/** splitTextSmartWithLimit (adapter/messenger.go): cut a text at a newline, else at punctuation,
    else hard at the limit. Text is a sequence of runes. */
module TextSplit {
  const NEWLINE_THRESHOLD := 100

  const PUNCTUATION: seq<string> :=
    ["。", "！", "？", "，", "、", "；", "：", "——", "…",
     ".", "!", "?", ",", ";", ":", "-", "…"]

  datatype Split = Split(text: string, hard: bool)

  predicate AllNewlines(s: string) {
    forall i | 0 <= i < |s| :: s[i] == '\n'
  }

  /** The length of s without its trailing newlines. */
  function TrimmedLength(s: string): (n: nat)
    ensures n <= |s| && (forall i | n <= i < |s| :: s[i] == '\n')
    ensures n > 0 ==> s[n - 1] != '\n'
  {
    if s != "" && s[|s| - 1] == '\n' then TrimmedLength(s[..|s| - 1]) else |s|
  }

  function TrimRight(s: string): (r: string)
    ensures |r| <= |s| && r == s[..|r|] && AllNewlines(s[|r|..])
    ensures r != "" ==> r[|r| - 1] != '\n'
  {
    s[..TrimmedLength(s)]
  }

  function LeadingNewlines(s: string): (n: nat)
    ensures n <= |s| && (forall i | 0 <= i < n :: s[i] == '\n')
    ensures n < |s| ==> s[n] != '\n'
  {
    if s != "" && s[0] == '\n' then 1 + LeadingNewlines(s[1..]) else 0
  }

  function TrimLeft(s: string): (r: string)
    ensures |r| <= |s| && r == s[|s| - |r|..] && AllNewlines(s[..|s| - |r|])
    ensures r != "" ==> r[0] != '\n'
  {
    s[LeadingNewlines(s)..]
  }

  /** A punctuation mark ends just before position pos. */
  predicate MarkEndsAt(s: string, mark: string, pos: int) {
    |mark| <= pos <= |s| && s[pos - |mark|..pos] == mark
  }

  predicate PunctuationEndsAt(s: string, pos: int) {
    exists k | 0 <= k < |PUNCTUATION| :: MarkEndsAt(s, PUNCTUATION[k], pos)
  }

  /** The last newline among the first n runes, -1 if there is none. */
  function LastNewline(s: string, n: nat): (pos: int)
    requires n <= |s|
    ensures -1 <= pos < n
    ensures pos >= 0 ==> s[pos] == '\n'
    ensures forall i | pos < i < n :: s[i] != '\n'
  {
    if n == 0 then -1 else if s[n - 1] == '\n' then n - 1 else LastNewline(s, n - 1)
  }

  /** The furthest end of a punctuation mark at a position up to n, -1 if there is none. */
  function LastPunctuationEnd(s: string, n: nat): (pos: int)
    requires n <= |s|
    ensures pos == -1 || 1 <= pos <= n
    ensures pos > 0 ==> PunctuationEndsAt(s, pos)
    ensures forall p | 1 <= p <= n && PunctuationEndsAt(s, p) :: p <= pos
  {
    if n == 0 then -1 else if PunctuationEndsAt(s, n) then n else LastPunctuationEnd(s, n - 1)
  }

  /** Where to cut, -1 for nowhere. */
  function CutPosition(s: string, limit: nat): (cut: int)
    requires 0 < limit <= |s|
    ensures cut == -1 || 1 <= cut <= limit
  {
    var newline := LastNewline(s, limit);
    var punct := LastPunctuationEnd(s, limit);
    if newline > 0 && limit - newline <= NEWLINE_THRESHOLD then newline
    else if newline > 0 || punct > 0 then (if newline > punct then newline else punct)
    else -1
  }

  function SplitOf(text: string, limit: int): (part: Split)
    ensures |part.text| <= |text| && part.text == text[..|part.text|]
    ensures limit > 0 ==> |part.text| <= limit
  {
    if limit <= 0 then Split("", true)
    else if |text| <= limit then Split(text, false)
    else
      var cut := CutPosition(text, limit);
      if cut > 0 then Split(TrimRight(text[..cut]), false) else Split(text[..limit], true)
  }

  method SplitTextSmartWithLimit(text: string, limit: int) returns (part: Split)
    ensures part == SplitOf(text, limit)
  {
    if limit <= 0 {
      return Split("", true);
    }
    if |text| <= limit {
      return Split(text, false);
    }

    var newlinePos := -1;
    for i := 0 to limit
      invariant newlinePos == LastNewline(text, i)
    {
      if text[i] == '\n' {
        newlinePos := i;
      }
    }

    var cutPos := -1;
    if newlinePos > 0 && limit - newlinePos <= NEWLINE_THRESHOLD {
      cutPos := newlinePos;
    } else {
      var punctPos := FindPunctuation(text, limit);
      if newlinePos > 0 && punctPos > 0 {
        if limit - punctPos <= limit - newlinePos {
          cutPos := punctPos;
        } else {
          cutPos := newlinePos;
        }
      } else if punctPos > 0 {
        cutPos := punctPos;
      } else if newlinePos > 0 {
        cutPos := newlinePos;
      }
    }

    if cutPos > 0 {
      return Split(TrimRight(text[..cutPos]), false);
    }
    return Split(text[..limit], true);
  }

  method MatchesAt(runes: string, i: nat, mark: string) returns (found: bool)
    requires i + |mark| <= |runes|
    ensures found <==> MarkEndsAt(runes, mark, i + |mark|)
  {
    for j := 0 to |mark|
      invariant runes[i..i + j] == mark[..j]
    {
      if runes[i + j] != mark[j] {
        assert runes[i..i + |mark|][j] != mark[j];
        return false;
      }
      assert runes[i..i + j + 1] == runes[i..i + j] + [runes[i + j]];
      assert mark[..j + 1] == mark[..j] + [mark[j]];
    }
    assert mark[..|mark|] == mark;
    return true;
  }

  /** The loop over the start positions of one mark. */
  method FindMark(runes: string, searchEnd: nat, mark: string, best: int) returns (punctPos: int)
    requires searchEnd <= |runes| && mark != ""
    ensures punctPos == best || (punctPos <= searchEnd && MarkEndsAt(runes, mark, punctPos))
    ensures best <= punctPos
    ensures forall p | p <= searchEnd && MarkEndsAt(runes, mark, p) :: p <= punctPos
  {
    punctPos := best;
    var i := 0;
    while i <= searchEnd - |mark|
      invariant 0 <= i && best <= punctPos
      invariant punctPos == best || (punctPos <= searchEnd && MarkEndsAt(runes, mark, punctPos))
      invariant forall p | p <= searchEnd && p - |mark| < i && MarkEndsAt(runes, mark, p) :: p <= punctPos
    {
      var found := MatchesAt(runes, i, mark);
      if found && i + |mark| > punctPos {
        punctPos := i + |mark|;
      }
      i := i + 1;
    }
  }

  /** The search over all marks and all start positions inside the window. */
  method FindPunctuation(runes: string, searchEnd: nat) returns (punctPos: int)
    requires searchEnd <= |runes|
    ensures punctPos == LastPunctuationEnd(runes, searchEnd)
  {
    punctPos := -1;
    for k := 0 to |PUNCTUATION|
      invariant punctPos == -1 || (1 <= punctPos <= searchEnd && PunctuationEndsAt(runes, punctPos))
      invariant forall k', p | 0 <= k' < k && p <= searchEnd && MarkEndsAt(runes, PUNCTUATION[k'], p) :: p <= punctPos
    {
      punctPos := FindMark(runes, searchEnd, PUNCTUATION[k], punctPos);
    }
  }

  /** The splitter's contract: the part is a prefix within the limit; a cut at a newline close to
      the limit is preferred, otherwise the furthest of the last newline and the last punctuation
      end is taken; the cut is hard exactly when neither exists at a positive position. */
  lemma {:induction false} SplitterSpecification(text: string, limit: nat, newline: int, punct: int)
    requires 0 < limit < |text|
    requires newline == -1 || (0 <= newline < limit && text[newline] == '\n')
    requires forall i | newline < i < limit :: text[i] != '\n'
    requires punct == -1 || (1 <= punct <= limit && PunctuationEndsAt(text, punct))
    requires forall p | 1 <= p <= limit && PunctuationEndsAt(text, p) :: p <= punct
    ensures var r := SplitOf(text, limit);
            && |r.text| <= limit && r.text == text[..|r.text|]
            && (r.hard <==> newline <= 0 && punct == -1)
            && (r.hard ==> |r.text| == limit)
            && (newline > 0 && limit - newline <= NEWLINE_THRESHOLD ==> r.text == TrimRight(text[..newline]))
            && (!r.hard && !(newline > 0 && limit - newline <= NEWLINE_THRESHOLD) ==>
                  r.text == TrimRight(text[..if newline > punct then newline else punct]))
  {
    assert newline == LastNewline(text, limit);
    assert punct == LastPunctuationEnd(text, limit);
  }

  /** What the code after a soft cut skips: only newlines, and all of them. */
  function Remainder(text: string, part: Split): (rest: string)
    requires |part.text| <= |text|
    ensures |rest| <= |text| - |part.text|
    ensures rest == text[|text| - |rest|..] && AllNewlines(text[|part.text|..|text| - |rest|])
  {
    var rest := text[|part.text|..];
    if part.hard then rest else
    var trimmed := TrimLeft(rest);
    assert rest[..|rest| - |trimmed|] == text[|part.text|..|text| - |trimmed|];
    trimmed
  }

  /** A text comes back whole exactly if it fits; without room nothing of it does, and that counts as a hard cut. */
  lemma {:induction false} WholeIffFits(text: string, limit: int)
    requires text != ""
    ensures SplitOf(text, limit).text == text <==> |text| <= limit
    ensures |text| <= limit ==> !SplitOf(text, limit).hard
    ensures limit <= 0 ==> SplitOf(text, limit) == Split("", true)
  {
    if 0 < limit < |text| { assert |SplitOf(text, limit).text| <= limit; }
  }

  /** Behind a hard cut nothing is skipped; behind a soft one the next rune is no newline. */
  lemma {:induction false} SkippedIffSoft(text: string, part: Split)
    requires |part.text| <= |text|
    ensures part.hard ==> Remainder(text, part) == text[|part.text|..]
    ensures !part.hard && Remainder(text, part) != "" ==> Remainder(text, part)[0] != '\n'
    ensures Remainder(text, part) == text[|part.text|..] <==>
      part.hard || |part.text| == |text| || text[|part.text|] != '\n'
  {
    if |part.text| < |text| && text[|part.text|] == '\n' && !part.hard {
      assert text[|part.text|..][0] == '\n';
    }
  }

  const MARKS := "。！？，、；：….!?,;:-"

  /** The marks by their runes: one of fifteen single ones, or two dashes in a row. */
  lemma {:induction false} PunctuationByRune(s: string, pos: int)
    ensures PunctuationEndsAt(s, pos) <==>
      1 <= pos <= |s| && (s[pos - 1] in MARKS || (pos >= 2 && s[pos - 2] == s[pos - 1] == '—'))
  {
    if PunctuationEndsAt(s, pos) {
      var k :| 0 <= k < |PUNCTUATION| && MarkEndsAt(s, PUNCTUATION[k], pos);
      var mark := PUNCTUATION[k];
      assert s[pos - |mark|..pos][|mark| - 1] == s[pos - 1];
      if |mark| == 2 {
        assert s[pos - 2..pos][0] == s[pos - 2];
      } else {
        OneRuneMark(k);
      }
    }
    if 1 <= pos <= |s| && s[pos - 1] in MARKS {
      var k := MarkOf(s[pos - 1]);
      assert s[pos - 1..pos] == [s[pos - 1]];
      assert MarkEndsAt(s, PUNCTUATION[k], pos);
    }
    if 2 <= pos <= |s| && s[pos - 2] == s[pos - 1] == '—' {
      assert s[pos - 2..pos] == "——" == PUNCTUATION[7];
      assert MarkEndsAt(s, PUNCTUATION[7], pos);
    }
  }

  lemma OneRuneMark(k: nat)
    requires k < |PUNCTUATION| && |PUNCTUATION[k]| != 2
    ensures |PUNCTUATION[k]| == 1 && PUNCTUATION[k][0] in MARKS
  {
    if k < 7 {
      assert MARKS[k] == PUNCTUATION[k][0];
    } else if k == 16 {
      assert MARKS[7] == PUNCTUATION[k][0];
    } else {
      assert MARKS[k - 1] == PUNCTUATION[k][0];
    }
  }

  lemma MarkOf(c: char) returns (k: nat)
    requires c in MARKS
    ensures k < |PUNCTUATION| && PUNCTUATION[k] == [c]
  {
    var i :| 0 <= i < |MARKS| && MARKS[i] == c;
    k := if i < 7 then i else i + 1;
    assert PUNCTUATION[k] == [MARKS[i]];
  }

  /** The window of limit runes opens with at least two newlines, has no later newline, and
      the last of them is either close to the limit or not followed by any punctuation. */
  ghost predicate BlockedBy(text: string, limit: nat, newline: nat) {
    && 1 <= newline < limit <= |text|
    && (forall i | 0 <= i <= newline :: text[i] == '\n')
    && (forall i | newline < i < limit :: text[i] != '\n')
    && (limit - newline <= NEWLINE_THRESHOLD || forall p | 1 <= p <= limit :: !PunctuationEndsAt(text, p))
  }

  ghost predicate Blocked(text: string, limit: nat) {
    exists newline: nat :: BlockedBy(text, limit, newline)
  }

  lemma BlockedOpensWithTwoNewlines(text: string, limit: nat)
    requires Blocked(text, limit)
    ensures limit >= 2
    ensures |text| >= 2
    ensures text[0] == '\n'
    ensures text[1] == '\n'
  {
  }

  lemma {:induction false} MarkLastRune(s: string, pos: int)
    requires PunctuationEndsAt(s, pos)
    ensures 1 <= pos <= |s|
    ensures s[pos - 1] != '\n'
    ensures !('a' <= s[pos - 1] <= 'z')
  {
    var k :| 0 <= k < |PUNCTUATION| && MarkEndsAt(s, PUNCTUATION[k], pos);
    var mark := PUNCTUATION[k];
    assert s[pos - 1] == s[pos - |mark|..pos][|mark| - 1];
  }

  /** The splitter returns an empty part exactly on blocked windows. */
  lemma {:induction false} EmptyPartIffBlocked(text: string, limit: nat)
    requires 0 < limit < |text|
    ensures SplitOf(text, limit).text == "" <==> Blocked(text, limit)
  {
    var newline := LastNewline(text, limit);
    var punct := LastPunctuationEnd(text, limit);
    var cut := CutPosition(text, limit);
    if SplitOf(text, limit).text == "" {
      assert cut > 0 && AllNewlines(text[..cut]);
      if cut == punct {
        MarkLastRune(text, cut);
        assert false;
      }
      assert cut == newline;
      forall i | 0 <= i <= newline ensures text[i] == '\n' {
        if i < newline { assert text[..cut][i] == text[i]; }
      }
      if limit - newline > NEWLINE_THRESHOLD && punct > 0 {
        assert punct < newline;
        MarkLastRune(text, punct);
        assert false;
      }
      assert BlockedBy(text, limit, newline);
    }
    if Blocked(text, limit) {
      var nl: nat :| BlockedBy(text, limit, nl);
      assert text[nl] == '\n';
      assert newline == nl;
      if cut != newline { MarkLastRune(text, punct); }
      assert AllNewlines(text[..newline]);
    }
  }
}
