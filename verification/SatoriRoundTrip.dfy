/** Parsing what was rendered (adapter/satori/adapter.go). */
module SatoriRoundTrip {
  import opened Common
  import opened Decimal
  import Spaces
  import opened SatoriMarkup

  // ---- Escaped text ----

  predicate Markup(c: char) {
    c == '<' || c == '>' || c == '"'
  }

  ghost predicate NoMarkup(s: string) {
    forall i | 0 <= i < |s| :: !Markup(s[i])
  }

  predicate PlainChar(c: char) {
    !Markup(c) && c != '&'
  }

  predicate Plain(s: string) {
    forall i | 0 <= i < |s| :: PlainChar(s[i])
  }

  lemma {:induction false} EscapedHasNoMarkup(s: string)
    ensures NoMarkup(HtmlEscape(s))
  {
    if s != "" {
      EscapedHasNoMarkup(s[1..]);
    }
  }

  lemma {:induction false} EscapeConcat(a: string, b: string)
    ensures HtmlEscape(a + b) == HtmlEscape(a) + HtmlEscape(b)
  {
    if a == "" {
      assert a + b == b;
    } else {
      assert (a + b)[1..] == a[1..] + b;
      EscapeConcat(a[1..], b);
    }
  }

  /** Unescaping undoes escaping on every text. */
  lemma {:induction false} UnescapeAfterEscape(s: string)
    ensures HtmlUnescape(HtmlEscape(s)) == s
  {
    if s != "" {
      var rest := HtmlEscape(s[1..]);
      UnescapeAfterEscape(s[1..]);
      EntityThen(s[0], rest);
      assert s == [s[0]] + s[1..];
    }
  }

  lemma EntityThen(c: char, rest: string)
    ensures HtmlUnescape(EscapeChar(c) + rest) == [c] + HtmlUnescape(rest)
  {
    var s := EscapeChar(c) + rest;
    if c == '&' {
      assert s[..5] == "&amp;" && s[5..] == rest && s[1] == 'a';
    } else if c == '<' {
      assert s[..4] == "&lt;" && s[4..] == rest && s[1] == 'l';
    } else if c == '>' {
      assert s[..4] == "&gt;" && s[4..] == rest;
    } else if c == '"' {
      assert s[..6] == "&quot;" && s[6..] == rest;
    } else {
      assert s[0] == c && s[1..] == rest;
    }
  }

  lemma EscapeCharLength(c: char)
    ensures |EscapeChar(c)| >= 1 && (|EscapeChar(c)| == 1 <==> PlainChar(c))
    ensures PlainChar(c) ==> EscapeChar(c) == [c]
  {
  }

  lemma PlainHead(s: string)
    requires s != ""
    ensures Plain(s) <==> PlainChar(s[0]) && Plain(s[1..])
  {
    hide PlainChar;
    if PlainChar(s[0]) && Plain(s[1..]) {
      forall i | 0 <= i < |s| ensures PlainChar(s[i]) {
        if i > 0 { assert s[i] == s[1..][i - 1]; }
      }
    }
  }

  lemma {:induction false} EscapeIsIdentityIffPlain(s: string)
    ensures HtmlEscape(s) == s <==> Plain(s)
    ensures |HtmlEscape(s)| >= |s|
  {
    hide EscapeChar, PlainChar, Plain;
    if s == "" {
      NothingIsPlain();
    } else {
      EscapeIsIdentityIffPlain(s[1..]);
      PlainHead(s);
      EscapeCharLength(s[0]);
      if HtmlEscape(s) == s {
        assert HtmlEscape(s)[1..] == HtmlEscape(s[1..]);
      }
    }
  }

  lemma NothingIsPlain()
    ensures Plain("")
  {
  }

  // ---- Scanning rendered text ----

  /** s continues with w at position i. */
  ghost predicate Here(s: string, i: nat, w: string) {
    i + |w| <= |s| && s[i..i + |w|] == w
  }

  lemma HereSplit(s: string, i: nat, a: string, b: string)
    requires Here(s, i, a + b)
    ensures Here(s, i, a) && Here(s, i + |a|, b)
  {
    assert s[i..i + |a + b|][..|a|] == s[i..i + |a|];
    assert s[i..i + |a + b|][|a|..] == s[i + |a|..i + |a| + |b|];
  }

  lemma {:induction false} ScanText(s: string, i: nat, j: nat)
    requires i <= j <= |s| && forall k | i <= k < j :: s[k] != '<'
    ensures TagsFrom(s, i) == TagsFrom(s, j)
    ensures StripTagsFrom(s, i) == s[i..j] + StripTagsFrom(s, j)
    decreases j - i
  {
    hide TagAt;
    if i < j {
      ScanText(s, i + 1, j);
      assert TagAt(s, i) == None by { NoTagHere(s, i); }
      ConcatAssociates([s[i]], s[i + 1..j], StripTagsFrom(s, j));
      assert s[i..j] == [s[i]] + s[i + 1..j];
    } else {
      assert s[i..j] == "";
    }
  }

  lemma NoTagHere(s: string, i: nat)
    requires i < |s| && s[i] != '<'
    ensures TagAt(s, i) == None
  {
  }

  ghost predicate TagParts(name: string, attrs: string) {
    && name != "" && (forall k | 0 <= k < |name| :: IsNameChar(name[k]))
    && attrs != "" && !IsNameChar(attrs[0]) && (forall k | 0 <= k < |attrs| :: attrs[k] != '>')
  }

  lemma TagLayout(s: string, i: nat, name: string, attrs: string)
    requires Here(s, i, "<" + name + attrs + ">")
    ensures
      var n := i + 1 + |name|;
      && n + |attrs| < |s|
      && s[i] == '<'
      && s[i + 1..n] == name
      && s[n..n + |attrs|] == attrs
      && s[n + |attrs|] == '>'
  {
    HereSplit(s, i, "<" + name + attrs, ">");
    HereSplit(s, i, "<" + name, attrs);
    HereSplit(s, i, "<", name);
  }

  lemma {:induction false} ScanTag(s: string, i: nat, name: string, attrs: string)
    requires TagParts(name, attrs) && Here(s, i, "<" + name + attrs + ">")
    ensures TagAt(s, i) == Some(Tag(i, i + 2 + |name| + |attrs|, name, attrs))
  {
    hide Here, IsNameChar;
    TagLayout(s, i, name, attrs);
    var n := i + 1 + |name|;
    forall k | i + 1 <= k < n ensures IsNameChar(s[k]) { assert s[k] == s[i + 1..n][k - i - 1]; }
    forall k | n <= k < n + |attrs| ensures s[k] != '>' { assert s[k] == s[n..n + |attrs|][k - n]; }
    assert s[n] == attrs[0];
  }

  /** Character by character, an attribute whose escaped value is w. */
  ghost predicate AttributeAt(s: string, i: nat, name: string, w: string) {
    var n := i + 1 + |name|;
    var close := n + 2 + |w|;
    && close < |s| && s[i] == ' ' && s[i + 1..n] == name
    && s[n] == '=' && s[n + 1] == '"' && s[n + 2..close] == w && s[close] == '"'
  }

  lemma AttributeLayout(s: string, i: nat, name: string, w: string)
    requires Here(s, i, " " + name + "=\"" + w + "\"")
    ensures AttributeAt(s, i, name, w)
  {
    HereSplit(s, i, " " + name + "=\"" + w, "\"");
    HereSplit(s, i, " " + name + "=\"", w);
    HereSplit(s, i, " " + name, "=\"");
    HereSplit(s, i, " ", name);
    var n := i + 1 + |name|;
  }

  lemma {:induction false} AttributeScan(s: string, i: nat, name: string, w: string)
    requires name != "" && forall k | 0 <= k < |name| :: IsAttrChar(name[k])
    requires NoMarkup(w) && AttributeAt(s, i, name, w)
    ensures AttrAt(s, i) == None
    ensures AttrAt(s, i + 1) == Some(Attr(i + 4 + |name| + |w|, name, w))
  {
    hide IsAttrChar;
    assert !IsAttrChar(' ') && !IsAttrChar('=') by { NoAttrChars(); }
    var n := i + 1 + |name|;
    var close := n + 2 + |w|;
    forall k | i + 1 <= k < n ensures IsAttrChar(s[k]) { assert s[k] == s[i + 1..n][k - i - 1]; }
    forall k | n + 2 <= k < close ensures s[k] != '"' { assert s[k] == s[n + 2..close][k - n - 2]; }
  }

  lemma NoAttrChars()
    ensures !IsAttrChar(' ') && !IsAttrChar('=')
  {
  }

  lemma ScanAttribute(s: string, i: nat, name: string, value: string, found: map<string, string>)
    requires name != "" && forall k | 0 <= k < |name| :: IsAttrChar(name[k])
    requires Here(s, i, Attribute(name, value))
    ensures i + |Attribute(name, value)| <= |s|
    ensures AttrsFrom(s, i, found) == AttrsFrom(s, i + |Attribute(name, value)|, found[name := HtmlEscape(value)])
  {
    hide HtmlEscape, AttrAt, AttributeAt;
    var w := HtmlEscape(value);
    EscapedHasNoMarkup(value);
    assert |Attribute(name, value)| == 4 + |name| + |w|;
    AttributeLayout(s, i, name, w);
    AttributeScan(s, i, name, w);
  }

  /** The slash before the closing bracket is no attribute. */
  lemma ScanSlash(s: string, found: map<string, string>)
    requires s != "" && s[|s| - 1] == '/'
    ensures AttrsFrom(s, |s| - 1, found) == found
  {
    assert AttrNameEnd(s, |s| - 1) == |s| - 1;
  }

  /** What a rendered tag is read back as. */
  function Reading(seg: Segment, ids: Ids): seq<Segment> {
    match seg
    case Text(_) => []
    case At(qq) => [At(if qq == "all" then "all" else HtmlEscape(qq))]
    case Image(_, _) => [Image(HtmlEscape(Uri(seg)), HtmlEscape(Uri(seg)))]
    case Record(_, _) => [Record(HtmlEscape(Uri(seg)), HtmlEscape(Uri(seg)))]
    case Video(_, _) => [Video(HtmlEscape(Uri(seg)), HtmlEscape(Uri(seg)))]
    case File(_, _, name) => [File(HtmlEscape(Uri(seg)), "", HtmlEscape(name))]
    case Reply(id) => ReadQuote(HtmlEscape(OriginalId(id, ids)))
  }

  /** A quote is kept only if its id is a number. */
  function ReadQuote(id: string): seq<Segment> {
    match ParseInt(id)
    case None => []
    case Some(n) => [Reply(FormatInt(ToInt32(n)))]
  }

  /** The maps after a quote: a numeric id is remembered under its 32-bit number, and so is its channel if known. */
  function QuoteIds(id: string, known: Ids): Ids {
    match ParseInt(id)
    case None => known
    case Some(n) => known[ToInt32(n) := id]
  }

  function QuoteChannels(id: string, channels: Option<Ids>, channelID: string): Option<Ids> {
    if ParseInt(id).None? || channels.None? || channelID == "" then channels
    else Some(channels.value[ToInt32(ParseInt(id).value) := channelID])
  }

  /** The id that a rendered reply is read back with. */
  function QuotedId(seg: Segment, ids: Ids): string {
    if seg.Reply? && RendersTag(seg, ids) then HtmlEscape(OriginalId(seg.id, ids)) else ""
  }

  function IdsAfter(segs: seq<Segment>, ids: Ids, known: Ids): Ids {
    if segs == [] then known else IdsAfter(segs[1..], ids, QuoteIds(QuotedId(segs[0], ids), known))
  }

  function ChannelsAfter(segs: seq<Segment>, ids: Ids, channels: Option<Ids>, channelID: string): Option<Ids> {
    if segs == [] then channels
    else ChannelsAfter(segs[1..], ids, QuoteChannels(QuotedId(segs[0], ids), channels, channelID), channelID)
  }

  predicate RendersTag(seg: Segment, ids: Ids) {
    !seg.Text? && RenderedAttrs(seg, ids) != ""
  }

  lemma EscapeEmpty(s: string)
    ensures HtmlEscape(s) == "" <==> s == ""
  {
  }

  lemma OneAttribute(name: string, value: string)
    requires name != "" && forall k | 0 <= k < |name| :: IsAttrChar(name[k])
    ensures AttrsFrom(Attribute(name, value) + "/", 0, map[]) == map[name := HtmlEscape(value)]
  {
    var s := Attribute(name, value) + "/";
    ScanAttribute(s, 0, name, value, map[]);
    ScanSlash(s, map[name := HtmlEscape(value)]);
  }

  lemma TwoAttributes(name: string, value: string, name2: string, value2: string)
    requires name != "" && forall k | 0 <= k < |name| :: IsAttrChar(name[k])
    requires name2 != "" && forall k | 0 <= k < |name2| :: IsAttrChar(name2[k])
    ensures AttrsFrom(Attribute(name, value) + Attribute(name2, value2) + "/", 0, map[])
         == map[name := HtmlEscape(value)][name2 := HtmlEscape(value2)]
  {
    hide Attribute, HtmlEscape, AttrsFrom;
    var a, b := Attribute(name, value), Attribute(name2, value2);
    var s := a + b + "/";
    assert Here(s, 0, a) && Here(s, |a|, b);
    ScanAttribute(s, 0, name, value, map[]);
    ScanAttribute(s, |a|, name2, value2, map[name := HtmlEscape(value)]);
    ScanSlash(s, map[name := HtmlEscape(value)][name2 := HtmlEscape(value2)]);
  }

  // ---- One tag read back ----

  function WithSlash(seg: Segment, ids: Ids): string {
    RenderedAttrs(seg, ids) + "/"
  }

  lemma {:induction false} TagReadsBack(seg: Segment, ids: Ids)
    requires RendersTag(seg, ids) && !seg.Reply?
    ensures ReadTag(TagName(seg), AttrsFrom(WithSlash(seg, ids), 0, map[])) == Reading(seg, ids)
  {
    hide HtmlEscape, Attribute, AttrsFrom;
    if seg.At? {
      EscapeEmpty(seg.qq);
      if seg.qq == "all" { OneAttribute("type", "all"); AllIsPlain(); } else { OneAttribute("id", seg.qq); }
    } else {
      EscapeEmpty(Uri(seg));
      if seg.File? {
        EscapeEmpty(seg.name);
        FileReadsBack(seg, ids);
      } else {
        OneAttribute("src", Uri(seg));
      }
    }
  }

  lemma AllIsPlain()
    ensures HtmlEscape("all") == "all"
  {
    EscapeIsIdentityIffPlain("all");
  }

  lemma FileReadsBack(seg: Segment, ids: Ids)
    requires seg.File? && RendersTag(seg, ids)
    ensures
      var attrs := AttrsFrom(WithSlash(seg, ids), 0, map[]);
      && Lookup(attrs, "src") == HtmlEscape(Uri(seg))
      && Lookup(attrs, "title") == HtmlEscape(seg.name)
      && Lookup(attrs, "url") == "" && Lookup(attrs, "name") == ""
  {
    hide HtmlEscape, Attribute, AttrsFrom;
    EscapeEmpty(Uri(seg));
    EscapeEmpty(seg.name);
    if Uri(seg) == "" {
      assert SourceAttr(seg) + Attribute("title", seg.name) == Attribute("title", seg.name);
      OneAttribute("title", seg.name);
    } else if seg.name == "" {
      assert SourceAttr(seg) + "" == SourceAttr(seg);
      OneAttribute("src", Uri(seg));
    } else {
      TwoAttributes("src", Uri(seg), "title", seg.name);
    }
  }

  lemma ReplyReadsBack(seg: Segment, ids: Ids)
    requires RendersTag(seg, ids) && seg.Reply?
    ensures Lookup(AttrsFrom(WithSlash(seg, ids), 0, map[]), "id") == HtmlEscape(OriginalId(seg.id, ids))
  {
    hide HtmlEscape, Attribute, AttrsFrom;
    OneAttribute("id", OriginalId(seg.id, ids));
  }

  // ---- The shape of rendered text ----

  ghost predicate NoBracket(s: string) {
    forall k | 0 <= k < |s| :: s[k] != '<' && s[k] != '>'
  }

  lemma AttributeNoBracket(name: string, value: string)
    requires NoBracket(name)
    ensures NoBracket(Attribute(name, value))
    ensures Attribute(name, value) != ""
    ensures Attribute(name, value)[0] == ' '
  {
    hide HtmlEscape;
    EscapedHasNoMarkup(value);
  }

  lemma AttrsShape(seg: Segment, ids: Ids)
    requires RendersTag(seg, ids)
    ensures NoBracket(RenderedAttrs(seg, ids))
    ensures RenderedAttrs(seg, ids)[0] == ' '
  {
    hide Attribute, HtmlEscape;
    if seg.At? {
      AttributeNoBracket("type", "all");
      AttributeNoBracket("id", seg.qq);
    } else if seg.Reply? {
      AttributeNoBracket("id", OriginalId(seg.id, ids));
    } else {
      AttributeNoBracket("src", Uri(seg));
      if seg.File? { AttributeNoBracket("title", seg.name); }
    }
  }

  lemma RenderedAttrsShape(seg: Segment, ids: Ids)
    requires RendersTag(seg, ids)
    ensures NoBracket(WithSlash(seg, ids))
    ensures TagParts(TagName(seg), WithSlash(seg, ids))
    ensures NoBracket(TagName(seg))
    ensures WithSlash(seg, ids)[|WithSlash(seg, ids)| - 1] == '/'
    ensures RenderSegment(seg, ids) == "<" + TagName(seg) + WithSlash(seg, ids) + ">"
  {
    hide RenderedAttrs, TagName;
    AttrsShape(seg, ids);
    TagNameShape(seg);
    var a := RenderedAttrs(seg, ids);
    assert WithSlash(seg, ids)[0] == a[0];
    assert "<" + TagName(seg) + a + "/>" == "<" + TagName(seg) + (a + "/") + ">";
  }

  lemma TagNameShape(seg: Segment)
    requires !seg.Text?
    ensures TagName(seg) != "" && NoBracket(TagName(seg))
    ensures forall k | 0 <= k < |TagName(seg)| :: IsNameChar(TagName(seg)[k])
  {
  }

  /** Every opening bracket is followed by something other than a slash. */
  ghost predicate NoClosing(s: string) {
    forall k | 0 <= k < |s| && s[k] == '<' :: k + 1 < |s| && s[k + 1] != '/'
  }

  ghost predicate NoClosingFrom(s: string, i: nat) {
    forall k | i <= k < |s| && s[k] == '<' :: k + 1 < |s| && s[k + 1] != '/'
  }

  lemma RendersText(seg: Segment, ids: Ids)
    requires !RendersTag(seg, ids)
    ensures RenderSegment(seg, ids) == HtmlEscape(if seg.Text? then seg.text else "")
  {
  }

  lemma TagHasNoClosing(name: string, attrs: string)
    requires TagParts(name, attrs) && NoBracket(name) && NoBracket(attrs)
    ensures NoClosing("<" + name + attrs + ">")
  {
    var s := "<" + name + attrs + ">";
    assert s[1] == name[0];
    forall k | 1 <= k < |s| ensures s[k] != '<' {
      if k < 1 + |name| { assert s[k] == name[k - 1]; }
      else if k < |s| - 1 { assert s[k] == attrs[k - 1 - |name|]; }
    }
  }

  lemma SegmentHasNoClosing(seg: Segment, ids: Ids)
    ensures NoClosing(RenderSegment(seg, ids))
  {
    hide RenderSegment, WithSlash, TagName, TagParts, NoBracket, RendersTag, HtmlEscape;
    if RendersTag(seg, ids) {
      RenderedAttrsShape(seg, ids);
      TagHasNoClosing(TagName(seg), WithSlash(seg, ids));
    } else {
      RendersText(seg, ids);
      EscapedHasNoMarkup(if seg.Text? then seg.text else "");
    }
  }

  lemma {:induction false} RenderHasNoClosing(segs: seq<Segment>, ids: Ids)
    ensures NoClosing(Render(segs, ids))
  {
    hide RenderSegment;
    if segs != [] {
      SegmentHasNoClosing(segs[0], ids);
      RenderHasNoClosing(segs[1..], ids);
    }
  }

  lemma {:induction false} NoQuoteClose(s: string, i: nat)
    requires NoClosingFrom(s, i) && i <= |s|
    ensures QuoteCloseFrom(s, i) == None
    decreases |s| - i
  {
    if i + |QUOTE_CLOSE| <= |s| {
      assert s[i..i + |QUOTE_CLOSE|][0] == s[i] && s[i..i + |QUOTE_CLOSE|][1] == s[i + 1];
      NoQuoteClose(s, i + 1);
    }
  }

  // ---- Parsing a whole rendered message ----

  /** Adjacent texts merged, blank ones and unrendered segments dropped, each tag as it is read back. */
  function NormalFrom(segs: seq<Segment>, pending: string, ids: Ids): seq<Segment> {
    if segs == [] then TextPart(pending)
    else if segs[0].Text? then NormalFrom(segs[1..], pending + segs[0].text, ids)
    else if !RendersTag(segs[0], ids) then NormalFrom(segs[1..], pending, ids)
    else TextPart(pending) + Reading(segs[0], ids) + NormalFrom(segs[1..], "", ids)
  }

  function Normal(segs: seq<Segment>, ids: Ids): seq<Segment> {
    NormalFrom(segs, "", ids)
  }

  function AllText(segs: seq<Segment>): string {
    if segs == [] then "" else (if segs[0].Text? then segs[0].text else "") + AllText(segs[1..])
  }

  /** The text read so far but not yet added lies between the parser's index and pos. */
  ghost predicate Pending(content: string, st: Scan, pos: nat, pending: string) {
    && st.quoteEnd <= st.index <= pos <= |content|
    && content[st.index..pos] == HtmlEscape(pending)
  }

  lemma PendingText(content: string, st: Scan, pos: nat, pending: string)
    requires Pending(content, st, pos, pending)
    ensures (if pos > st.index then TextPart(HtmlUnescape(content[st.index..pos])) else []) == TextPart(pending)
  {
    hide HtmlEscape, HtmlUnescape;
    UnescapeAfterEscape(pending);
    EscapeEmpty(pending);
  }

  lemma PendingGrows(content: string, st: Scan, pos: nat, pending: string, text: string)
    requires Pending(content, st, pos, pending) && Here(content, pos, HtmlEscape(text))
    ensures Pending(content, st, pos + |HtmlEscape(text)|, pending + text)
    ensures TagsFrom(content, pos) == TagsFrom(content, pos + |HtmlEscape(text)|)
    ensures StripTagsFrom(content, pos) == HtmlEscape(text) + StripTagsFrom(content, pos + |HtmlEscape(text)|)
  {
    hide HtmlEscape, TagsFrom, StripTagsFrom;
    var w := HtmlEscape(text);
    EscapedHasNoMarkup(text);
    EscapeConcat(pending, text);
    assert content[st.index..pos + |w|] == content[st.index..pos] + content[pos..pos + |w|];
    forall k | pos <= k < pos + |w| ensures content[k] != '<' { }
    ScanText(content, pos, pos + |w|);
  }

  /** A rendered tag is found as one tag. */
  lemma TagFound(content: string, pos: nat, seg: Segment, ids: Ids)
    requires RendersTag(seg, ids) && Here(content, pos, RenderSegment(seg, ids))
    ensures
      var end := pos + |RenderSegment(seg, ids)|;
      && end <= |content|
      && TagsFrom(content, pos) == [Tag(pos, end, TagName(seg), WithSlash(seg, ids))] + TagsFrom(content, end)
      && StripTagsFrom(content, pos) == StripTagsFrom(content, end)
  {
    hide RenderedAttrs, RenderSegment, WithSlash, TagAt, TagParts;
    RenderedAttrsShape(seg, ids);
    ScanTag(content, pos, TagName(seg), WithSlash(seg, ids));
  }

  lemma VisitPlainTag(content: string, st: Scan, tag: Tag, pending: string, channelID: string)
    requires tag.start <= tag.end <= |content| && tag.name != "quote" && Pending(content, st, tag.start, pending)
    ensures Pending(content, Visit(content, st, tag, channelID), tag.end, "")
    ensures Visit(content, st, tag, channelID).segments
         == st.segments + (TextPart(pending) + ReadTag(tag.name, AttrsFrom(tag.attrs, 0, map[])))
    ensures Visit(content, st, tag, channelID).ids == st.ids
    ensures Visit(content, st, tag, channelID).channels == st.channels
  {
    hide HtmlUnescape, TextPart, AttrsFrom, ReadTag;
    PendingText(content, st, tag.start, pending);
    ConcatAssociates(st.segments, TextPart(pending), ReadTag(tag.name, AttrsFrom(tag.attrs, 0, map[])));
  }

  lemma VisitQuoteTag(content: string, st: Scan, tag: Tag, pending: string, channelID: string)
    requires tag.start <= tag.end <= |content| && tag.name == "quote" && Pending(content, st, tag.start, pending)
    requires QuoteCloseFrom(content, tag.end) == None
    ensures Pending(content, Visit(content, st, tag, channelID), tag.end, "")
    ensures
      var id, next := Lookup(AttrsFrom(tag.attrs, 0, map[]), "id"), Visit(content, st, tag, channelID);
      && next.segments == st.segments + (TextPart(pending) + ReadQuote(id))
      && next.ids == QuoteIds(id, st.ids) && next.channels == QuoteChannels(id, st.channels, channelID)
  {
    hide HtmlUnescape, TextPart, AttrsFrom, ParseInt, FormatInt;
    PendingText(content, st, tag.start, pending);
    ConcatAssociates(st.segments, TextPart(pending), ReadQuote(Lookup(AttrsFrom(tag.attrs, 0, map[]), "id")));
  }

  /** Visiting it adds the pending text and what the tag is read back as. */
  lemma TagVisited(content: string, st: Scan, pos: nat, pending: string, seg: Segment, ids: Ids, channelID: string)
    requires RendersTag(seg, ids) && NoClosingFrom(content, pos) && Pending(content, st, pos, pending)
    requires pos + |RenderSegment(seg, ids)| <= |content|
    ensures
      var end := pos + |RenderSegment(seg, ids)|;
      var next := Visit(content, st, Tag(pos, end, TagName(seg), WithSlash(seg, ids)), channelID);
      && Pending(content, next, end, "")
      && next.segments == st.segments + (TextPart(pending) + Reading(seg, ids))
      && next.ids == QuoteIds(QuotedId(seg, ids), st.ids)
      && next.channels == QuoteChannels(QuotedId(seg, ids), st.channels, channelID)
  {
    NoNumber();
    hide RenderSegment, WithSlash, Visit, TextPart, Pending, AttrsFrom, HtmlEscape, OriginalId, ReadTag,
      RenderedAttrs, ParseInt, FormatInt;
    var end := pos + |RenderSegment(seg, ids)|;
    var tag := Tag(pos, end, TagName(seg), WithSlash(seg, ids));
    NoQuoteClose(content, end);
    if seg.Reply? {
      ReplyReadsBack(seg, ids);
      VisitQuoteTag(content, st, tag, pending, channelID);
    } else {
      TagReadsBack(seg, ids);
      VisitPlainTag(content, st, tag, pending, channelID);
    }
  }

  lemma VisitFirst(content: string, st: Scan, tag: Tag, tags: seq<Tag>, channelID: string)
    requires tag.start <= tag.end <= |content|
    requires forall k | 0 <= k < |tags| :: tags[k].start <= tags[k].end <= |content|
    ensures VisitAll(content, st, [tag] + tags, channelID)
         == VisitAll(content, Visit(content, st, tag, channelID), tags, channelID)
  {
    hide Visit;
    assert ([tag] + tags)[1..] == tags;
  }

  /** The loop's turn for one rendered tag. */
  lemma ParseTag(content: string, st: Scan, pos: nat, pending: string, seg: Segment, ids: Ids, channelID: string)
    returns (next: Scan)
    requires RendersTag(seg, ids) && NoClosingFrom(content, pos) && Pending(content, st, pos, pending)
    requires Here(content, pos, RenderSegment(seg, ids))
    ensures pos <= |content|
    ensures pos + |RenderSegment(seg, ids)| <= |content|
    ensures Pending(content, next, pos + |RenderSegment(seg, ids)|, "")
    ensures next.segments == st.segments + (TextPart(pending) + Reading(seg, ids))
    ensures next.ids == QuoteIds(QuotedId(seg, ids), st.ids)
    ensures next.channels == QuoteChannels(QuotedId(seg, ids), st.channels, channelID)
    ensures VisitAll(content, st, TagsFrom(content, pos), channelID)
         == VisitAll(content, next, TagsFrom(content, pos + |RenderSegment(seg, ids)|), channelID)
  {
    hide NoClosingFrom, Pending, TagsFrom, Visit, VisitAll, Reading, TextPart, RenderSegment, RenderedAttrs, WithSlash,
      TagName, QuoteIds, QuoteChannels, QuotedId;
    var end := pos + |RenderSegment(seg, ids)|;
    TagFound(content, pos, seg, ids);
    TagVisited(content, st, pos, pending, seg, ids, channelID);
    var tag := Tag(pos, end, TagName(seg), WithSlash(seg, ids));
    next := Visit(content, st, tag, channelID);
    VisitFirst(content, st, tag, TagsFrom(content, end), channelID);
  }

  lemma SuffixSplit(content: string, pos: nat, a: string, b: string)
    requires pos <= |content| && content[pos..] == a + b
    ensures Here(content, pos, a) && content[pos + |a|..] == b
  {
    assert content[pos..pos + |a|] == (a + b)[..|a|] == a;
    assert content[pos + |a|..] == (a + b)[|a|..] == b;
  }

  lemma ParseEnd(content: string, st: Scan, pos: nat, pending: string, channelID: string)
    requires Pending(content, st, pos, pending) && content[pos..] == ""
    ensures WithRest(content, VisitAll(content, st, TagsFrom(content, pos), channelID))
         == st.segments + TextPart(pending)
    ensures VisitAll(content, st, TagsFrom(content, pos), channelID) == st
  {
    hide HtmlEscape, HtmlUnescape, TextPart;
    PendingText(content, st, pos, pending);
    assert content[st.index..] == content[st.index..pos];
  }

  lemma NormalEnd(pending: string, ids: Ids)
    ensures NormalFrom([], pending, ids) == TextPart(pending)
  {
  }

  lemma NormalStep(segs: seq<Segment>, pending: string, ids: Ids)
    requires segs != []
    ensures NormalFrom(segs, pending, ids) ==
      if RendersTag(segs[0], ids) then TextPart(pending) + Reading(segs[0], ids) + NormalFrom(segs[1..], "", ids)
      else NormalFrom(segs[1..], pending + if segs[0].Text? then segs[0].text else "", ids)
  {
    assert pending + "" == pending;
  }

  lemma NoClosingLater(s: string, i: nat, later: nat)
    requires NoClosingFrom(s, i) && i <= later
    ensures NoClosingFrom(s, later)
  {
  }

  lemma MapsStep(segs: seq<Segment>, ids: Ids, known: Ids, channels: Option<Ids>, channelID: string)
    ensures IdsAfter(segs, ids, known) ==
      if segs == [] then known else IdsAfter(segs[1..], ids, QuoteIds(QuotedId(segs[0], ids), known))
    ensures ChannelsAfter(segs, ids, channels, channelID) ==
      if segs == [] then channels
      else ChannelsAfter(segs[1..], ids, QuoteChannels(QuotedId(segs[0], ids), channels, channelID), channelID)
  {
  }

  /** From pos on, the loop and the text behind the last tag give the normal form of segs. */
  ghost predicate ReadsRest(content: string, st: Scan, pos: nat, pending: string, segs: seq<Segment>, ids: Ids,
                            channelID: string)
    requires pos <= |content|
  {
    var end := VisitAll(content, st, TagsFrom(content, pos), channelID);
    && WithRest(content, end) == st.segments + NormalFrom(segs, pending, ids)
    && end.ids == IdsAfter(segs, ids, st.ids)
    && end.channels == ChannelsAfter(segs, ids, st.channels, channelID)
  }

  lemma RestEnds(content: string, st: Scan, pos: nat, pending: string, ids: Ids, channelID: string)
    requires pos <= |content| && Pending(content, st, pos, pending) && content[pos..] == ""
    ensures ReadsRest(content, st, pos, pending, [], ids, channelID)
  {
    hide Pending, TagsFrom, VisitAll, WithRest, TextPart, NormalFrom;
    ParseEnd(content, st, pos, pending, channelID);
    NormalEnd(pending, ids);
  }

  lemma TagThenRest(content: string, st: Scan, pos: nat, pending: string, segs: seq<Segment>, ids: Ids,
                    channelID: string, next: Scan, later: nat)
    requires segs != [] && RendersTag(segs[0], ids) && pos <= later <= |content|
    requires next.segments == st.segments + (TextPart(pending) + Reading(segs[0], ids))
    requires next.ids == QuoteIds(QuotedId(segs[0], ids), st.ids)
    requires next.channels == QuoteChannels(QuotedId(segs[0], ids), st.channels, channelID)
    requires VisitAll(content, st, TagsFrom(content, pos), channelID)
          == VisitAll(content, next, TagsFrom(content, later), channelID)
    requires ReadsRest(content, next, later, "", segs[1..], ids, channelID)
    ensures ReadsRest(content, st, pos, pending, segs, ids, channelID)
  {
    hide IdsAfter, ChannelsAfter, QuotedId, QuoteIds, QuoteChannels, TagsFrom, VisitAll, WithRest, Reading, TextPart,
      RendersTag, NormalFrom;
    MapsStep(segs, ids, st.ids, st.channels, channelID);
    NormalStep(segs, pending, ids);
    ConcatAssociates(st.segments, TextPart(pending) + Reading(segs[0], ids), NormalFrom(segs[1..], "", ids));
  }

  lemma TextThenRest(content: string, st: Scan, pos: nat, pending: string, segs: seq<Segment>, ids: Ids,
                     channelID: string, text: string, later: nat)
    requires segs != [] && !RendersTag(segs[0], ids) && pos <= later <= |content|
    requires text == if segs[0].Text? then segs[0].text else ""
    requires TagsFrom(content, pos) == TagsFrom(content, later)
    requires ReadsRest(content, st, later, pending + text, segs[1..], ids, channelID)
    ensures ReadsRest(content, st, pos, pending, segs, ids, channelID)
  {
    hide IdsAfter, ChannelsAfter, QuotedId, QuoteIds, QuoteChannels, TagsFrom, VisitAll, WithRest, Reading, TextPart,
      RendersTag, NormalFrom;
    MapsStep(segs, ids, st.ids, st.channels, channelID);
    NormalStep(segs, pending, ids);
    NoQuote(segs[0], ids, st.ids, st.channels, channelID);
  }

  lemma RenderStep(segs: seq<Segment>, ids: Ids)
    ensures Render(segs, ids) == if segs == [] then "" else RenderSegment(segs[0], ids) + Render(segs[1..], ids)
  {
    hide RenderSegment;
  }

  lemma {:induction false} ParseRest(content: string, st: Scan, pos: nat, pending: string, segs: seq<Segment>,
                                     ids: Ids, channelID: string)
    requires pos <= |content| && NoClosingFrom(content, pos) && Pending(content, st, pos, pending)
    requires content[pos..] == Render(segs, ids)
    ensures ReadsRest(content, st, pos, pending, segs, ids, channelID)
    decreases |segs|
  {
    hide ReadsRest, IdsAfter, ChannelsAfter, NoClosingFrom, QuotedId, QuoteIds, QuoteChannels, Pending, TagsFrom,
      VisitAll, Reading, TextPart, Render, RenderSegment, RendersTag, HtmlEscape, Here, StripTagsFrom;
    RenderStep(segs, ids);
    if segs == [] {
      RestEnds(content, st, pos, pending, ids, channelID);
    } else {
      var seg := segs[0];
      var w := RenderSegment(seg, ids);
      SuffixSplit(content, pos, w, Render(segs[1..], ids));
      NoClosingLater(content, pos, pos + |w|);
      if RendersTag(seg, ids) {
        var next := ParseTag(content, st, pos, pending, seg, ids, channelID);
        ParseRest(content, next, pos + |w|, "", segs[1..], ids, channelID);
        TagThenRest(content, st, pos, pending, segs, ids, channelID, next, pos + |w|);
      } else {
        RendersText(seg, ids);
        var text := if seg.Text? then seg.text else "";
        PendingGrows(content, st, pos, pending, text);
        ParseRest(content, st, pos + |w|, pending + text, segs[1..], ids, channelID);
        TextThenRest(content, st, pos, pending, segs, ids, channelID, text, pos + |w|);
      }
    }
  }

  lemma NoNumber()
    ensures ParseInt("") == None
  {
  }

  lemma NoQuote(seg: Segment, ids: Ids, known: Ids, channels: Option<Ids>, channelID: string)
    requires !RendersTag(seg, ids)
    ensures QuoteIds(QuotedId(seg, ids), known) == known
    ensures QuoteChannels(QuotedId(seg, ids), channels, channelID) == channels
  {
    NoNumber();
  }

  /** Without its tags a rendered message is its text. */
  lemma {:induction false} StripRest(content: string, pos: nat, segs: seq<Segment>, ids: Ids)
    requires pos <= |content| && content[pos..] == Render(segs, ids)
    ensures StripTagsFrom(content, pos) == HtmlEscape(AllText(segs))
    decreases |segs|
  {
    hide RenderSegment, HtmlEscape, StripTagsFrom, TagsFrom, RendersTag, AllText, Here, Pending;
    AllTextStep(segs, ids);
    if segs == [] {
      StripEnd(content, pos);
    } else {
      var seg := segs[0];
      var w := RenderSegment(seg, ids);
      SuffixSplit(content, pos, w, Render(segs[1..], ids));
      StripRest(content, pos + |w|, segs[1..], ids);
      if RendersTag(seg, ids) {
        TagFound(content, pos, seg, ids);
      } else {
        RendersText(seg, ids);
        var text := if seg.Text? then seg.text else "";
        var st := Scan([], pos, -1, map[], None);
        NothingPending(content, st);
        PendingGrows(content, st, pos, "", text);
        EscapeConcat(text, AllText(segs[1..]));
      }
    }
  }

  lemma AllTextStep(segs: seq<Segment>, ids: Ids)
    ensures segs == [] ==> AllText(segs) == ""
    ensures segs != [] ==> AllText(segs) == (if segs[0].Text? then segs[0].text else "") + AllText(segs[1..])
    ensures segs != [] && RendersTag(segs[0], ids) ==> AllText(segs) == AllText(segs[1..])
  {
    assert "" + AllText(if segs == [] then [] else segs[1..]) == AllText(if segs == [] then [] else segs[1..]);
  }

  lemma NothingPending(content: string, st: Scan)
    requires st.quoteEnd <= st.index <= |content|
    ensures Pending(content, st, st.index, "")
  {
  }

  lemma StripEnd(content: string, pos: nat)
    requires pos <= |content| && content[pos..] == ""
    ensures StripTagsFrom(content, pos) == HtmlEscape("")
  {
  }

  lemma {:induction false} NothingLeftIsBlank(segs: seq<Segment>, pending: string, ids: Ids)
    requires NormalFrom(segs, pending, ids) == []
    ensures Spaces.Blank(pending + AllText(segs))
    decreases |segs|
  {
    hide Reading, RenderedAttrs;
    if segs != [] {
      var rest := segs[1..];
      if segs[0].Text? {
        NothingLeftIsBlank(rest, pending + segs[0].text, ids);
        ConcatAssociates(pending, segs[0].text, AllText(rest));
      } else if RendersTag(segs[0], ids) {
        NothingLeftIsBlank(rest, "", ids);
        assert Spaces.Blank(pending);
        assert "" + AllText(rest) == AllText(rest) == AllText(segs);
      } else {
        NothingLeftIsBlank(rest, pending, ids);
        assert "" + AllText(rest) == AllText(rest);
      }
    }
  }

  /** Parsing undoes rendering up to normal form, for every message and whatever the parser's maps hold. */
  lemma {:induction false} ParseAfterRender(segs: seq<Segment>, ids: Ids, known: Ids, channels: Option<Ids>,
                                            channelID: string)
    ensures Parsed(Render(segs, ids), known, channels, channelID).segments == Normal(segs, ids)
    ensures Parsed(Render(segs, ids), known, channels, channelID).ids == IdsAfter(segs, ids, known)
    ensures Parsed(Render(segs, ids), known, channels, channelID).channels
         == ChannelsAfter(segs, ids, channels, channelID)
  {
    hide Visit, TagsFrom, NormalFrom, Render, HtmlUnescape, StripTagsFrom, Spaces.Blank, HtmlEscape, Pending,
      VisitAll, WithRest;
    var content := Render(segs, ids);
    var start := Scan([], 0, -1, known, channels);
    RenderHasNoClosing(segs, ids);
    NothingPending(content, start);
    assert content[0..] == content;
    ParseRest(content, start, 0, "", segs, ids, channelID);
    assert [] + Normal(segs, ids) == Normal(segs, ids);
    if content == "" {
      EmptyParse(content, start, channelID);
    } else if Normal(segs, ids) == [] {
      NothingLeftIsBlank(segs, "", ids);
      assert "" + AllText(segs) == AllText(segs);
      StripRest(content, 0, segs, ids);
      UnescapeAfterEscape(AllText(segs));
    }
  }

  lemma EmptyParse(content: string, st: Scan, channelID: string)
    requires content == "" && st.segments == [] && st.index == 0
    ensures WithRest(content, VisitAll(content, st, TagsFrom(content, 0), channelID)) == []
    ensures VisitAll(content, st, TagsFrom(content, 0), channelID) == st
  {
  }

  // ---- Exactly which messages come back unchanged ----

  /** Comes back as itself. */
  predicate Stable(seg: Segment, ids: Ids) {
    match seg
    case Text(text) => !Spaces.Blank(text)
    case At(qq) => qq != "" && Plain(qq)
    case Image(url, file) => url == file != "" && Plain(url)
    case Record(url, file) => url == file != "" && Plain(url)
    case Video(url, file) => url == file != "" && Plain(url)
    case File(url, file, name) => file == "" && (url != "" || name != "") && Plain(url) && Plain(name)
    case Reply(id) =>
      match ParseInt(OriginalId(id, ids))
      case None => false
      case Some(n) => id == FormatInt(ToInt32(n))
  }

  /** Every segment is stable, and no two texts are neighbours. */
  ghost predicate Canonical(segs: seq<Segment>, ids: Ids) {
    && (forall i | 0 <= i < |segs| :: Stable(segs[i], ids))
    && (forall i | 0 < i < |segs| :: !(segs[i - 1].Text? && segs[i].Text?))
  }

  lemma LetterInNumber(s: string, i: nat)
    requires i < |s| && !PlainChar(s[i])
    ensures ParseInt(s) == None
  {
    if i > 0 { assert s[1..][i - 1] == s[i]; }
  }

  lemma {:induction false} EscapeSpecial(s: string)
    requires !Plain(s)
    ensures exists i | 0 <= i < |HtmlEscape(s)| :: HtmlEscape(s)[i] == '&'
  {
    if !PlainChar(s[0]) {
      assert HtmlEscape(s)[0] == '&';
    } else {
      PlainHead(s);
      EscapeSpecial(s[1..]);
      var j :| 0 <= j < |HtmlEscape(s[1..])| && HtmlEscape(s[1..])[j] == '&';
      assert HtmlEscape(s)[|EscapeChar(s[0])| + j] == '&';
    }
  }

  lemma EscapeKeepsNumbers(s: string)
    ensures ParseInt(HtmlEscape(s)) == ParseInt(s)
  {
    if Plain(s) {
      EscapeIsIdentityIffPlain(s);
    } else {
      EscapeSpecial(s);
      var i :| 0 <= i < |s| && !PlainChar(s[i]);
      var j :| 0 <= j < |HtmlEscape(s)| && HtmlEscape(s)[j] == '&';
      LetterInNumber(s, i);
      LetterInNumber(HtmlEscape(s), j);
    }
  }

  lemma StableIffReadBack(seg: Segment, ids: Ids)
    requires RendersTag(seg, ids)
    ensures Stable(seg, ids) <==> Reading(seg, ids) == [seg]
  {
    hide HtmlEscape, Plain, ParseInt, FormatInt;
    match seg {
      case At(qq) => EscapeIsIdentityIffPlain(qq); AllIsPlain(); EscapeIsIdentityIffPlain("all");
      case Reply(id) => EscapeKeepsNumbers(OriginalId(id, ids));
      case File(_, _, name) =>
        EscapeIsIdentityIffPlain(Uri(seg)); EscapeIsIdentityIffPlain(name); EscapeIsIdentityIffPlain("");
      case Image(_, _) => EscapeIsIdentityIffPlain(Uri(seg));
      case Record(_, _) => EscapeIsIdentityIffPlain(Uri(seg));
      case Video(_, _) => EscapeIsIdentityIffPlain(Uri(seg));
    }
  }

  lemma StableRenders(seg: Segment, ids: Ids)
    requires Stable(seg, ids) && !seg.Text?
    ensures RendersTag(seg, ids)
  {
    hide HtmlEscape, Plain;
  }

  lemma {:induction false} NormalLength(segs: seq<Segment>, pending: string, ids: Ids)
    ensures |NormalFrom(segs, pending, ids)| <= |segs| + |TextPart(pending)|
    decreases |segs|
  {
    hide RendersTag, Spaces.Blank, ParseInt, HtmlEscape, OriginalId;
    if segs != [] {
      if segs[0].Text? {
        NormalLength(segs[1..], pending + segs[0].text, ids);
        BlankConcat(pending, segs[0].text);
      } else if !RendersTag(segs[0], ids) {
        NormalLength(segs[1..], pending, ids);
      } else {
        NormalLength(segs[1..], "", ids);
        BlankConcat("", "");
      }
    }
  }

  lemma BlankConcat(a: string, b: string)
    ensures Spaces.Blank(a + b) <==> Spaces.Blank(a) && Spaces.Blank(b)
    ensures Spaces.Blank("")
  {
    assert a == (a + b)[..|a|] && b == (a + b)[|a|..];
    if Spaces.Blank(a + b) {
      forall i | 0 <= i < |a| ensures Spaces.IsSpace(a[i]) { assert (a + b)[i] == a[i]; }
      forall i | 0 <= i < |b| ensures Spaces.IsSpace(b[i]) { assert (a + b)[|a| + i] == b[i]; }
    }
  }

  /** A message is its own normal form exactly when it is canonical. */
  lemma {:induction false} NormalIffCanonical(segs: seq<Segment>, ids: Ids)
    ensures Normal(segs, ids) == segs <==> Canonical(segs, ids)
    decreases |segs|
  {
    hide Stable, Reading, Spaces.Blank, RendersTag;
    BlankConcat("", "");
    if segs != [] {
      var rest := segs[1..];
      NormalLength(rest, "", ids);
      if segs[0].Text? {
        TextFirst(segs, ids);
        NormalIffCanonical(rest, ids);
      } else {
        TagFirst(segs, ids);
        NormalIffCanonical(rest, ids);
      }
    }
  }

  lemma TagFirst(segs: seq<Segment>, ids: Ids)
    requires segs != [] && !segs[0].Text?
    ensures Normal(segs, ids) == segs <==> Stable(segs[0], ids) && Normal(segs[1..], ids) == segs[1..]
  {
    hide Stable, Reading, Spaces.Blank, RendersTag, ReadQuote;
    BlankConcat("", "");
    NormalLength(segs[1..], "", ids);
    if RendersTag(segs[0], ids) {
      StableIffReadBack(segs[0], ids);
      AtMostOne(segs[0], ids);
      assert TextPart("") + Reading(segs[0], ids) == Reading(segs[0], ids);
      assert segs == [segs[0]] + segs[1..];
      if Normal(segs, ids) == segs {
        assert |Reading(segs[0], ids)| == 1;
        assert segs[..1] == Reading(segs[0], ids);
        assert segs[1..] == Normal(segs[1..], ids);
      }
    } else if Stable(segs[0], ids) {
      StableRenders(segs[0], ids);
    }
  }

  lemma AtMostOne(seg: Segment, ids: Ids)
    ensures |Reading(seg, ids)| <= 1
  {
    hide HtmlEscape, OriginalId, ParseInt, FormatInt;
  }

  lemma TextFirst(segs: seq<Segment>, ids: Ids)
    requires segs != [] && segs[0].Text?
    ensures Normal(segs, ids) == segs <==>
      && Stable(segs[0], ids) && Normal(segs[1..], ids) == segs[1..]
      && (|segs| > 1 ==> !segs[1].Text?)
  {
    hide Reading, Spaces.Blank, RendersTag, ReadQuote;
    BlankConcat("", "");
    var text, rest := segs[0].text, segs[1..];
    assert "" + text == text;
    NormalLength(rest, text, ids);
    if !Spaces.Blank(text) && |segs| > 1 {
      NormalLength(rest[1..], text, ids);
      if rest[0].Text? {
        NormalLength(rest[1..], text + rest[0].text, ids);
      } else if RendersTag(rest[0], ids) {
        ConcatAssociates([Text(text)], Reading(rest[0], ids), NormalFrom(rest[1..], "", ids));
        assert TextPart("") + Reading(rest[0], ids) == Reading(rest[0], ids);
        assert Normal(segs, ids) == [Text(text)] + Normal(rest, ids);
        assert Normal(segs, ids)[1..] == Normal(rest, ids);
        assert segs == [segs[0]] + rest;
      } else {
        NormalLength(rest[1..], "", ids);
      }
    }
  }

  /** Rendering and parsing returns exactly the canonical messages unchanged. */
  lemma {:induction false} RoundTripIffCanonical(segs: seq<Segment>, ids: Ids, known: Ids, channels: Option<Ids>,
                                                 channelID: string)
    ensures Parsed(Render(segs, ids), known, channels, channelID).segments == segs <==> Canonical(segs, ids)
  {
    hide Parsed, Render, Normal, Canonical;
    ParseAfterRender(segs, ids, known, channels, channelID);
    NormalIffCanonical(segs, ids);
  }

  lemma EscapedQuery()
    ensures HtmlEscape("?a&b") == "?a&amp;b"
  {
    EscapeConcat("?a&", "b");
    EscapeConcat("?a", "&");
    EscapeIsIdentityIffPlain("?a");
    EscapeIsIdentityIffPlain("b");
    assert HtmlEscape("&") == "&amp;" + HtmlEscape("") == "&amp;";
  }

  /** A picture's address with a query string comes back with its escapes. */
  lemma {:induction false} QueryAddressChanges(known: Ids, channelID: string)
    ensures Parsed(Render([Image("?a&b", "?a&b")], map[]), known, None, channelID).segments
         == [Image("?a&amp;b", "?a&amp;b")]
  {
    hide Parsed, Render, HtmlEscape;
    var seg := Image("?a&b", "?a&b");
    EscapedQuery();
    ParseAfterRender([seg], map[], known, None, channelID);
    assert Spaces.Blank("");
    assert NormalFrom([seg][1..], "", map[]) == [];
  }
}
