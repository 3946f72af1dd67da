/** What the Satori scanners match, and what tags are read as and printed from, told without them
    (adapter/satori/adapter.go). */
module SatoriReading {
  import opened Common
  import opened Decimal
  import opened SatoriMarkup
  import opened SatoriRoundTrip

  // ---- The two regular expressions ----

  const LOWER := "abcdefghijklmnopqrstuvwxyz"
  const UPPER := "ABCDEFGHIJKLMNOPQRSTUVWXYZ"
  const DIGITS := "0123456789"

  lemma LowerAre(c: char)
    ensures 'a' <= c <= 'z' <==> c in LOWER
  {
    if 'a' <= c <= 'z' { assert LOWER[c as int - 'a' as int] == c; }
  }

  lemma UpperAre(c: char)
    ensures 'A' <= c <= 'Z' <==> c in UPPER
  {
    if 'A' <= c <= 'Z' { assert UPPER[c as int - 'A' as int] == c; }
  }

  lemma DigitsAre(c: char)
    ensures '0' <= c <= '9' <==> c in DIGITS
  {
    if '0' <= c <= '9' { assert DIGITS[c as int - '0' as int] == c; }
  }

  /** The characters of tag names and of attribute names. */
  lemma NameCharsAre(c: char)
    ensures IsNameChar(c) <==> c in LOWER || c in UPPER || c in DIGITS || c == ':' || c == '-'
    ensures IsAttrChar(c) <==> IsNameChar(c) || c == '_'
  {
    hide LOWER, UPPER, DIGITS;
    LowerAre(c);
    UpperAre(c);
    DigitsAre(c);
  }

  /** A bracket, a longest name, anything without a closing bracket, and one. */
  ghost predicate IsTag(s: string, tag: Tag) {
    && tag.end == tag.start + 2 + |tag.name| + |tag.attrs| && Here(s, tag.start, "<" + tag.name + tag.attrs + ">")
    && NameAndRest(tag.name, tag.attrs)
  }

  ghost predicate NameAndRest(name: string, attrs: string) {
    && name != "" && (forall k | 0 <= k < |name| :: IsNameChar(name[k]))
    && (attrs != "" ==> !IsNameChar(attrs[0])) && (forall k | 0 <= k < |attrs| :: attrs[k] != '>')
  }

  lemma TagIsScanned(s: string, i: nat, name: string, attrs: string)
    requires Here(s, i, "<" + name + attrs + ">") && NameAndRest(name, attrs)
    ensures i < |s| && TagAt(s, i) == Some(Tag(i, i + 2 + |name| + |attrs|, name, attrs))
  {
    hide Here, IsNameChar;
    TagLayout(s, i, name, attrs);
    NoNameChar();
    var n := i + 1 + |name|;
    forall k | i + 1 <= k < n ensures IsNameChar(s[k]) { assert s[k] == s[i + 1..n][k - i - 1]; }
    forall k | n <= k < n + |attrs| ensures s[k] != '>' { assert s[k] == s[n..n + |attrs|][k - n]; }
    if attrs != "" { assert s[n] == attrs[0]; }
  }

  lemma NoNameChar()
    ensures !IsNameChar('>')
  {
  }

  lemma Slices(s: string, a: nat, b: nat, c: nat)
    requires a <= b <= c <= |s|
    ensures s[a..c] == s[a..b] + s[b..c]
  {
  }

  lemma ScannedIsTag(s: string, i: nat)
    requires i < |s| && TagAt(s, i).Some?
    ensures IsTag(s, TagAt(s, i).value)
  {
    hide IsNameChar;
    var tag := TagAt(s, i).value;
    var n := i + 1 + |tag.name|;
    assert s[i..i + 1] == "<" && s[tag.end - 1..tag.end] == ">";
    FourSlices(s, i, i + 1, n, tag.end - 1, tag.end, "<", tag.name, tag.attrs, ">");
  }

  /** The scanner finds exactly these. */
  lemma {:induction false} TagAtIff(s: string, i: nat, tag: Tag)
    requires i < |s|
    ensures TagAt(s, i) == Some(tag) <==> tag.start == i && IsTag(s, tag)
  {
    if TagAt(s, i) == Some(tag) { ScannedIsTag(s, i); }
    hide TagAt, Here, NameAndRest;
    if tag.start == i && IsTag(s, tag) { TagIsScanned(s, i, tag.name, tag.attrs); }
  }

  /** A name, an equals sign, and a value in quotes. */
  ghost predicate IsAttr(s: string, i: nat, attr: Attr) {
    && attr.end == i + 3 + |attr.name| + |attr.value| && Here(s, i, attr.name + "=\"" + attr.value + "\"")
    && AttrParts(attr.name, attr.value)
  }

  ghost predicate AttrParts(name: string, value: string) {
    && name != "" && (forall k | 0 <= k < |name| :: IsAttrChar(name[k]))
    && (forall k | 0 <= k < |value| :: value[k] != '"')
  }

  lemma AttrLayout(s: string, i: nat, name: string, value: string)
    requires Here(s, i, name + "=\"" + value + "\"")
    ensures
      var n := i + |name|;
      && n + 2 + |value| < |s| && s[i..n] == name && s[n] == '=' && s[n + 1] == '"'
      && s[n + 2..n + 2 + |value|] == value && s[n + 2 + |value|] == '"'
  {
    HereSplit(s, i, name + "=\"" + value, "\"");
    HereSplit(s, i, name + "=\"", value);
    HereSplit(s, i, name, "=\"");
    var n := i + |name|;
    assert s[n..n + 2] == "=\"";
    assert s[n] == s[n..n + 2][0] && s[n + 1] == s[n..n + 2][1];
  }

  lemma AttrIsScanned(s: string, i: nat, name: string, value: string)
    requires Here(s, i, name + "=\"" + value + "\"") && AttrParts(name, value)
    ensures i < |s| && AttrAt(s, i) == Some(Attr(i + 3 + |name| + |value|, name, value))
  {
    hide Here, IsAttrChar;
    AttrLayout(s, i, name, value);
    NoAttrChars();
    var n := i + |name|;
    var close := n + 2 + |value|;
    forall k | i <= k < n ensures IsAttrChar(s[k]) { assert s[k] == s[i..n][k - i]; }
    forall k | n + 2 <= k < close ensures s[k] != '"' { assert s[k] == s[n + 2..close][k - n - 2]; }
  }

  /** Where the parts of a scanned attribute stand. */
  lemma AttrPlaces(s: string, i: nat)
    requires i < |s| && AttrAt(s, i).Some?
    ensures
      var attr := AttrAt(s, i).value;
      var n := i + |attr.name|;
      && attr.end == n + 3 + |attr.value| && i < n < n + 2 <= attr.end - 1 < |s|
      && s[i..n] == attr.name && s[n] == '=' && s[n + 1] == '"'
      && s[n + 2..attr.end - 1] == attr.value && s[attr.end - 1] == '"'
    ensures AttrParts(AttrAt(s, i).value.name, AttrAt(s, i).value.value)
  {
    hide IsAttrChar;
  }

  lemma ScannedIsAttr(s: string, i: nat)
    requires i < |s| && AttrAt(s, i).Some?
    ensures IsAttr(s, i, AttrAt(s, i).value)
  {
    AttrPlaces(s, i);
    hide AttrAt, AttrParts;
    var attr := AttrAt(s, i).value;
    var n := i + |attr.name|;
    EqualsAndQuotes(s, n, attr.end - 1);
    FourSlices(s, i, n, n + 2, attr.end - 1, attr.end, attr.name, "=\"", attr.value, "\"");
  }

  lemma FourSlices(s: string, i: nat, n: nat, m: nat, close: nat, end: nat, a: string, b: string, c: string, d: string)
    requires i <= n <= m <= close <= end <= |s|
    requires s[i..n] == a && s[n..m] == b && s[m..close] == c && s[close..end] == d
    ensures s[i..end] == a + b + c + d
  {
    Slices(s, i, n, m);
    Slices(s, i, m, close);
    Slices(s, i, close, end);
  }

  lemma EqualsAndQuotes(s: string, n: nat, close: nat)
    requires n + 2 <= close < |s| && s[n] == '=' && s[n + 1] == s[close] == '"'
    ensures s[n..n + 2] == "=\"" && s[close..close + 1] == "\""
  {
  }

  lemma {:induction false} AttrAtIff(s: string, i: nat, attr: Attr)
    requires i < |s|
    ensures AttrAt(s, i) == Some(attr) <==> IsAttr(s, i, attr)
  {
    if AttrAt(s, i) == Some(attr) { ScannedIsAttr(s, i); }
    hide AttrAt, Here, AttrParts;
    if IsAttr(s, i, attr) { AttrIsScanned(s, i, attr.name, attr.value); }
  }

  // ---- A list of attributes ----

  datatype Pair = Pair(name: string, value: string)

  ghost predicate Named(pairs: seq<Pair>) {
    forall k | 0 <= k < |pairs| ::
      pairs[k].name != "" && forall j | 0 <= j < |pairs[k].name| :: IsAttrChar(pairs[k].name[j])
  }

  function Printed(pairs: seq<Pair>): string {
    if pairs == [] then "" else Attribute(pairs[0].name, pairs[0].value) + Printed(pairs[1..])
  }

  function Merged(found: map<string, string>, pairs: seq<Pair>): map<string, string>
    decreases |pairs|
  {
    if pairs == [] then found else Merged(found[pairs[0].name := HtmlEscape(pairs[0].value)], pairs[1..])
  }

  lemma {:induction false} PairsScanned(s: string, i: nat, pairs: seq<Pair>, found: map<string, string>)
    requires Named(pairs) && Here(s, i, Printed(pairs))
    ensures i + |Printed(pairs)| <= |s|
    ensures AttrsFrom(s, i, found) == AttrsFrom(s, i + |Printed(pairs)|, Merged(found, pairs))
    decreases |pairs|
  {
    hide AttrsFrom, Attribute, HtmlEscape, IsAttrChar;
    if pairs != [] {
      var own := Attribute(pairs[0].name, pairs[0].value);
      HereSplit(s, i, own, Printed(pairs[1..]));
      ScanAttribute(s, i, pairs[0].name, pairs[0].value, found);
      PairsScanned(s, i + |own|, pairs[1..], found[pairs[0].name := HtmlEscape(pairs[0].value)]);
    }
  }

  /** No later attribute has the name. */
  predicate LastOfName(pairs: seq<Pair>, k: nat) {
    k < |pairs| && forall j | k < j < |pairs| :: pairs[j].name != pairs[k].name
  }

  predicate HasName(pairs: seq<Pair>, name: string) {
    exists k | 0 <= k < |pairs| :: pairs[k].name == name
  }

  lemma {:induction false} MergedIs(found: map<string, string>, pairs: seq<Pair>)
    ensures forall k: nat | LastOfName(pairs, k) ::
      pairs[k].name in Merged(found, pairs) && Merged(found, pairs)[pairs[k].name] == HtmlEscape(pairs[k].value)
    ensures forall name | !HasName(pairs, name) ::
      (name in Merged(found, pairs) <==> name in found)
      && (name in found ==> Merged(found, pairs)[name] == found[name])
    decreases |pairs|
  {
    hide HtmlEscape;
    if pairs != [] {
      var rest := pairs[1..];
      var found' := found[pairs[0].name := HtmlEscape(pairs[0].value)];
      MergedIs(found', rest);
      forall k: nat | LastOfName(pairs, k)
        ensures pairs[k].name in Merged(found, pairs)
        ensures Merged(found, pairs)[pairs[k].name] == HtmlEscape(pairs[k].value)
      {
        if k > 0 {
          assert LastOfName(rest, k - 1) && rest[k - 1] == pairs[k];
        } else {
          assert !HasName(rest, pairs[0].name);
        }
      }
      forall name | HasName(rest, name) ensures HasName(pairs, name) {
        var k :| 0 <= k < |rest| && rest[k].name == name;
        assert pairs[k + 1].name == name;
      }
    }
  }

  /** Any printed list of attributes is read as it was printed, with the values escaped; of equal names the last
      wins. */
  lemma {:induction false} AttributesRead(pairs: seq<Pair>)
    requires Named(pairs)
    ensures
      var attrs := AttrsFrom(Printed(pairs) + "/", 0, map[]);
      && (forall k: nat | LastOfName(pairs, k) :: Lookup(attrs, pairs[k].name) == HtmlEscape(pairs[k].value))
      && (forall name :: name in attrs <==> HasName(pairs, name))
  {
    hide AttrsFrom, HtmlEscape, IsAttrChar, Printed, Merged, Named, HasName, LastOfName;
    var s := Printed(pairs) + "/";
    assert Here(s, 0, Printed(pairs));
    PairsScanned(s, 0, pairs, map[]);
    ScanSlash(s, Merged(map[], pairs));
    MergedIs(map[], pairs);
    forall name | HasName(pairs, name) ensures name in Merged(map[], pairs) {
      var k := LastPlace(pairs, name);
    }
  }

  lemma {:induction false} LastPlace(pairs: seq<Pair>, name: string) returns (k: nat)
    requires HasName(pairs, name)
    ensures LastOfName(pairs, k) && pairs[k].name == name
    decreases |pairs|
  {
    var i :| 0 <= i < |pairs| && pairs[i].name == name;
    var last := |pairs| - 1;
    if pairs[last].name == name {
      k := last;
    } else {
      assert pairs[..last][i].name == name;
      k := LastPlace(pairs[..last], name);
      assert pairs[..last][k] == pairs[k];
      forall j | k < j < |pairs| ensures pairs[j].name != pairs[k].name {
        if j < last { assert pairs[..last][j] == pairs[j]; }
      }
    }
  }

  // ---- What a tag is read as ----

  /** The address: the first of the two attributes that is not empty. */
  predicate HasSource(attrs: map<string, string>) {
    Lookup(attrs, "src") != "" || Lookup(attrs, "url") != ""
  }

  predicate HasTitle(attrs: map<string, string>) {
    Lookup(attrs, "title") != "" || Lookup(attrs, "name") != ""
  }

  predicate IsMedia(name: string) {
    name in {"img", "image", "audio", "video"}
  }

  function UrlOf(seg: Segment): string {
    match seg
    case Image(url, _) => url
    case Record(url, _) => url
    case Video(url, _) => url
    case File(url, _, _) => url
    case _ => ""
  }

  /** A tag is read as one segment or none: exactly when it has what its kind needs, under either name of it. */
  lemma {:induction false} TagIsReadIff(name: string, attrs: map<string, string>)
    ensures |ReadTag(name, attrs)| <= 1
    ensures ReadTag(name, attrs) != [] <==>
      || (name == "at" && (Lookup(attrs, "type") == "all" || Lookup(attrs, "id") != ""))
      || (IsMedia(name) && HasSource(attrs))
      || (name == "file" && (HasSource(attrs) || HasTitle(attrs)))
    ensures ReadTag(name, attrs) != [] ==>
      var seg := ReadTag(name, attrs)[0];
      && (seg.At? <==> name == "at")
      && (seg.Image? <==> name in {"img", "image"})
      && (seg.Record? <==> name == "audio")
      && (seg.Video? <==> name == "video")
      && (seg.File? <==> name == "file")
      && (seg.At? ==> seg.qq == if Lookup(attrs, "type") == "all" then "all" else Lookup(attrs, "id"))
      && (Lookup(attrs, "src") != "" && !seg.At? ==> UrlOf(seg) == Lookup(attrs, "src"))
      && (Lookup(attrs, "src") == "" && !seg.At? ==> UrlOf(seg) == Lookup(attrs, "url"))
      && (seg.File? && Lookup(attrs, "title") != "" ==> seg.name == Lookup(attrs, "title"))
      && (seg.File? && Lookup(attrs, "title") == "" ==> seg.name == Lookup(attrs, "name"))
  {
  }

  // ---- What is printed ----

  function FileOf(seg: Segment): string {
    match seg
    case Image(_, file) => file
    case Record(_, file) => file
    case Video(_, file) => file
    case File(_, file, _) => file
    case _ => ""
  }

  predicate IsSourced(seg: Segment) {
    seg.Image? || seg.Record? || seg.Video? || seg.File?
  }

  /** A segment prints nothing exactly if it holds nothing that its kind is printed for. */
  lemma {:induction false} PrintsNothingIff(seg: Segment, ids: Ids)
    ensures RenderSegment(seg, ids) == "" <==>
      match seg
      case Text(text) => text == ""
      case At(qq) => qq == ""
      case Reply(id) => id == ""
      case File(url, file, name) => url == file == name == ""
      case _ => UrlOf(seg) == FileOf(seg) == ""
  {
    hide HtmlEscape, OriginalId, Uri;
    if seg.Text? { EscapeEmpty(seg.text); }
    if IsSourced(seg) { UriIsEmpty(seg); }
  }

  lemma UriIsEmpty(seg: Segment)
    requires IsSourced(seg)
    ensures Uri(seg) == "" <==> UrlOf(seg) == FileOf(seg) == ""
  {
  }

  /** A picture, voice, video or file is fetched from its address, and from its file only if it has none. */
  lemma {:induction false} PrintedSource(seg: Segment, ids: Ids)
    requires IsSourced(seg) && !seg.File? && (UrlOf(seg) != "" || FileOf(seg) != "")
    ensures
      var kind := if seg.Image? then "img" else if seg.Record? then "audio" else "video";
      var source := if UrlOf(seg) != "" then UrlOf(seg) else FileOf(seg);
      RenderSegment(seg, ids) == "<" + kind + Attribute("src", source) + "/>"
  {
    hide HtmlEscape;
    assert Attribute("src", Uri(seg))[0] == ' ';
  }

  /** A reply to a message whose quote has been read is printed with the id as it came, however it was written. */
  lemma {:induction false} QuoteIdComesBack(id: string, known: Ids)
    requires ParseInt(id).Some?
    ensures
      var number := ToInt32(ParseInt(id).value);
      OriginalId(FormatInt(number), QuoteIds(id, known)) == id
  {
    hide ParseInt, FormatInt;
    ParseAfterFormat(ToInt32(ParseInt(id).value));
  }

  /** Any other reply keeps its id. */
  lemma {:induction false} UnknownIdStays(id: string, ids: Ids)
    ensures ParseInt(id).None? || ToInt32(ParseInt(id).value) !in ids ==> OriginalId(id, ids) == id
    ensures ParseInt(id).Some? && ToInt32(ParseInt(id).value) in ids ==>
      OriginalId(id, ids) == ids[ToInt32(ParseInt(id).value)]
  {
    hide ParseInt;
  }
}
