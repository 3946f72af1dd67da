/** Spaces, as Go's strings package treats them. */
module Spaces {
  /** unicode.IsSpace */
  predicate IsSpace(c: char) {
    || '\t' <= c <= '\r' || c == ' ' || c == '\U{85}' || c == '\U{A0}' || c == '\U{1680}'
    || '\U{2000}' <= c <= '\U{200A}' || c == '\U{2028}' || c == '\U{2029}' || c == '\U{202F}'
    || c == '\U{205F}' || c == '\U{3000}'
  }

  /** TrimSpace leaves nothing. */
  predicate Blank(s: string) {
    forall i | 0 <= i < |s| :: IsSpace(s[i])
  }

  /** strings.TrimSpace */
  function TrimSpace(s: string): (t: string)
    ensures t != "" ==> !IsSpace(t[0]) && !IsSpace(t[|t| - 1])
    ensures t == "" <==> Blank(s)
    ensures |t| <= |s|
  {
    if Blank(s) then "" else s[SkipSpaces(s, 0)..SkipSpacesBack(s, |s|)]
  }

  function SkipSpaces(s: string, i: nat): (n: nat)
    requires i <= |s|
    ensures i <= n <= |s| && (forall k | i <= k < n :: IsSpace(s[k])) && (n < |s| ==> !IsSpace(s[n]))
    decreases |s| - i
  {
    if i < |s| && IsSpace(s[i]) then SkipSpaces(s, i + 1) else i
  }

  function SkipSpacesBack(s: string, j: nat): (n: nat)
    requires j <= |s|
    ensures n <= j && (forall k | n <= k < j :: IsSpace(s[k])) && (n > 0 ==> !IsSpace(s[n - 1]))
  {
    if j > 0 && IsSpace(s[j - 1]) then SkipSpacesBack(s, j - 1) else j
  }

  /** The characters that count as spaces, one by one. */
  const SPACES :=
    "\t\n\U{0B}\U{0C}\r \U{85}\U{A0}\U{1680}\U{2000}\U{2001}\U{2002}\U{2003}\U{2004}\U{2005}\U{2006}\U{2007}"
    + "\U{2008}\U{2009}\U{200A}\U{2028}\U{2029}\U{202F}\U{205F}\U{3000}"

  lemma SpacesAreThese(c: char)
    ensures IsSpace(c) <==> c in SPACES
  {
    if '\t' <= c <= '\r' { assert SPACES[c as int - '\t' as int] == c; }
    if '\U{2000}' <= c <= '\U{200A}' { assert SPACES[9 + c as int - '\U{2000}' as int] == c; }
    if c == ' ' { assert SPACES[5] == c; }
    if c == '\U{85}' { assert SPACES[6] == c; }
    if c == '\U{A0}' { assert SPACES[7] == c; }
    if c == '\U{1680}' { assert SPACES[8] == c; }
    if c == '\U{2028}' { assert SPACES[20] == c; }
    if c == '\U{2029}' { assert SPACES[21] == c; }
    if c == '\U{202F}' { assert SPACES[22] == c; }
    if c == '\U{205F}' { assert SPACES[23] == c; }
    if c == '\U{3000}' { assert SPACES[24] == c; }
  }

  /** Trimming takes the spaces at both ends and nothing else. */
  lemma {:induction false} TrimTakesSpacesOnly(s: string) returns (before: string, behind: string)
    ensures Blank(before) && Blank(behind) && s == before + TrimSpace(s) + behind
  {
    hide SkipSpaces, SkipSpacesBack, IsSpace;
    if Blank(s) {
      before, behind := s, "";
    } else {
      var i, j := SkipSpaces(s, 0), SkipSpacesBack(s, |s|);
      before, behind := s[..i], s[j..];
      assert TrimSpace(s) == s[i..j];
    }
  }

  /** core is s without the spaces at both ends. */
  ghost predicate IsCore(s: string, core: string) {
    && (core != "" ==> !IsSpace(core[0]) && !IsSpace(core[|core| - 1]))
    && exists before, behind :: Around(s, before, core, behind)
  }

  predicate Around(s: string, before: string, core: string, behind: string) {
    Blank(before) && Blank(behind) && s == before + core + behind
  }

  /** There is one such core, and trimming finds it. */
  lemma {:induction false} TrimFindsCore(s: string, core: string)
    ensures TrimSpace(s) == core <==> IsCore(s, core)
  {
    hide SkipSpaces, SkipSpacesBack, IsSpace;
    var b, e := TrimTakesSpacesOnly(s);
    assert Around(s, b, TrimSpace(s), e);
    if IsCore(s, core) {
      var before, behind :| Around(s, before, core, behind);
      CoreIsTrimmed(s, before, core, behind);
    }
  }

  lemma CoreIsTrimmed(s: string, before: string, core: string, behind: string)
    requires Around(s, before, core, behind) && (core != "" ==> !IsSpace(core[0]) && !IsSpace(core[|core| - 1]))
    ensures TrimSpace(s) == core
  {
    hide SkipSpaces, SkipSpacesBack, IsSpace;
    if core != "" {
      var i, j := |before|, |before| + |core|;
      assert s[i] == core[0] && s[j - 1] == core[|core| - 1];
      assert forall k | 0 <= k < i :: s[k] == before[k];
      assert forall k | j <= k < |s| :: s[k] == behind[k - j];
      assert SkipSpaces(s, 0) == i && SkipSpacesBack(s, |s|) == j;
      assert s[i..j] == core;
    } else {
      assert s == before + behind;
    }
  }
}
