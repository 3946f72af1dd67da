/** Satori message markup: rendering segments, and scanning rendered text back
    (adapter/satori/adapter.go). */
module SatoriMarkup {
  import opened Common
  import Decimal
  import Spaces

  // ---- Escaping ----

  function EscapeChar(c: char): string {
    match c
    case '&' => "&amp;"
    case '<' => "&lt;"
    case '>' => "&gt;"
    case '"' => "&quot;"
    case _ => [c]
  }

  function HtmlEscape(s: string): string {
    if s == "" then "" else EscapeChar(s[0]) + HtmlEscape(s[1..])
  }

  /** Left to right, each entity becomes its character; a replaced character is not looked at again. */
  function HtmlUnescape(s: string): string {
    if s == "" then ""
    else if "&quot;" <= s then "\"" + HtmlUnescape(s[6..])
    else if "&gt;" <= s then ">" + HtmlUnescape(s[4..])
    else if "&lt;" <= s then "<" + HtmlUnescape(s[4..])
    else if "&amp;" <= s then "&" + HtmlUnescape(s[5..])
    else [s[0]] + HtmlUnescape(s[1..])
  }

  // ---- Scanning: the two regular expressions, written as scanners ----

  predicate IsAlnum(c: char) {
    'a' <= c <= 'z' || 'A' <= c <= 'Z' || '0' <= c <= '9'
  }

  predicate IsNameChar(c: char) {
    IsAlnum(c) || c == ':' || c == '-'
  }

  predicate IsAttrChar(c: char) {
    IsNameChar(c) || c == '_'
  }

  function NameEnd(s: string, i: nat): (n: nat)
    requires i <= |s|
    ensures i <= n <= |s| && (forall k | i <= k < n :: IsNameChar(s[k])) && (n < |s| ==> !IsNameChar(s[n]))
    decreases |s| - i
  {
    if i < |s| && IsNameChar(s[i]) then NameEnd(s, i + 1) else i
  }

  function AttrNameEnd(s: string, i: nat): (n: nat)
    requires i <= |s|
    ensures i <= n <= |s| && (forall k | i <= k < n :: IsAttrChar(s[k])) && (n < |s| ==> !IsAttrChar(s[n]))
    decreases |s| - i
  {
    if i < |s| && IsAttrChar(s[i]) then AttrNameEnd(s, i + 1) else i
  }

  /** The first position of c from i on, |s| if there is none. */
  function IndexFrom(s: string, c: char, i: nat): (n: nat)
    requires i <= |s|
    ensures i <= n <= |s| && (forall k | i <= k < n :: s[k] != c) && (n < |s| ==> s[n] == c)
    decreases |s| - i
  {
    if i < |s| && s[i] != c then IndexFrom(s, c, i + 1) else i
  }

  datatype Tag = Tag(start: nat, end: nat, name: string, attrs: string)

  /** The match of <([a-zA-Z0-9:-]+)([^>]*)/?> at position i. The second group takes a final slash. */
  function TagAt(s: string, i: nat): (tag: Option<Tag>)
    requires i < |s|
    ensures tag.Some? ==> tag.value.start == i < tag.value.end <= |s|
  {
    if s[i] != '<' then None else
    var n := NameEnd(s, i + 1);
    var close := IndexFrom(s, '>', n);
    if n > i + 1 && close < |s| then Some(Tag(i, close + 1, s[i + 1..n], s[n..close])) else None
  }

  /** All matches from position i on, leftmost first, without overlap. */
  function TagsFrom(s: string, i: nat): (tags: seq<Tag>)
    requires i <= |s|
    ensures forall k | 0 <= k < |tags| :: i <= tags[k].start < tags[k].end <= |s|
    decreases |s| - i
  {
    if i == |s| then [] else
    match TagAt(s, i)
    case Some(tag) => [tag] + TagsFrom(s, tag.end)
    case None => TagsFrom(s, i + 1)
  }

  /** stripTags: the text outside all matches. */
  function StripTagsFrom(s: string, i: nat): string
    requires i <= |s|
    decreases |s| - i
  {
    if i == |s| then "" else
    match TagAt(s, i)
    case Some(tag) => StripTagsFrom(s, tag.end)
    case None => [s[i]] + StripTagsFrom(s, i + 1)
  }

  datatype Attr = Attr(end: nat, name: string, value: string)

  /** The match of ([a-zA-Z0-9:_-]+)="([^"]*)" at position i. */
  function AttrAt(s: string, i: nat): (attr: Option<Attr>)
    requires i < |s|
    ensures attr.Some? ==> i < attr.value.end <= |s|
  {
    var n := AttrNameEnd(s, i);
    if n == i || n + 2 > |s| || s[n] != '=' || s[n + 1] != '"' then None else
    var close := IndexFrom(s, '"', n + 2);
    if close < |s| then Some(Attr(close + 1, s[i..n], s[n + 2..close])) else None
  }

  /** parseAttrs: later attributes of the same name win. */
  function AttrsFrom(s: string, i: nat, found: map<string, string>): map<string, string>
    requires i <= |s|
    decreases |s| - i
  {
    if i == |s| then found else
    match AttrAt(s, i)
    case Some(attr) => AttrsFrom(s, attr.end, found[attr.name := attr.value])
    case None => AttrsFrom(s, i + 1, found)
  }

  function Lookup(attrs: map<string, string>, name: string): string {
    if name in attrs then attrs[name] else ""
  }

  function FirstNonEmpty(a: string, b: string): string {
    if a != "" then a else b
  }

  // ---- Segments ----

  /** The data read or written for each kind; a reply id is its decimal or other text. */
  datatype Segment =
    | Text(text: string)
    | At(qq: string)
    | Image(url: string, file: string)
    | Record(url: string, file: string)
    | Video(url: string, file: string)
    | File(url: string, file: string, name: string)
    | Reply(id: string)

  type Ids = map<int32, string>

  function Attribute(name: string, value: string): string {
    " " + name + "=\"" + HtmlEscape(value) + "\""
  }

  /** The attributes of the tag a segment is rendered to; empty when it renders to no tag. */
  function RenderedAttrs(seg: Segment, ids: Ids): string {
    match seg
    case Text(_) => ""
    case At(qq) => if qq == "all" then Attribute("type", "all") else if qq != "" then Attribute("id", qq) else ""
    case Image(_, _) => SourceAttr(seg)
    case Record(_, _) => SourceAttr(seg)
    case Video(_, _) => SourceAttr(seg)
    case File(_, _, name) => SourceAttr(seg) + if name != "" then Attribute("title", name) else ""
    case Reply(id) => if id != "" then Attribute("id", OriginalId(id, ids)) else ""
  }

  function Uri(seg: Segment): string
    requires seg.Image? || seg.Record? || seg.Video? || seg.File?
  {
    FirstNonEmpty(seg.url, seg.file)
  }

  function SourceAttr(seg: Segment): string
    requires seg.Image? || seg.Record? || seg.Video? || seg.File?
  {
    if Uri(seg) != "" then Attribute("src", Uri(seg)) else ""
  }

  /** The remembered original of a numeric message id, or the id itself. */
  function OriginalId(id: string, ids: Ids): string {
    match Decimal.ParseInt(id)
    case None => id
    case Some(n) => if ToInt32(n) in ids then ids[ToInt32(n)] else id
  }

  function TagName(seg: Segment): string {
    match seg
    case At(_) => "at"
    case Image(_, _) => "img"
    case Record(_, _) => "audio"
    case Video(_, _) => "video"
    case File(_, _, _) => "file"
    case Reply(_) => "quote"
    case Text(_) => ""
  }

  function RenderSegment(seg: Segment, ids: Ids): string {
    if seg.Text? then HtmlEscape(seg.text)
    else if RenderedAttrs(seg, ids) == "" then ""
    else "<" + TagName(seg) + RenderedAttrs(seg, ids) + "/>"
  }

  function Render(segs: seq<Segment>, ids: Ids): string {
    if segs == [] then "" else RenderSegment(segs[0], ids) + Render(segs[1..], ids)
  }

  lemma {:induction false} RenderAppend(segs: seq<Segment>, seg: Segment, ids: Ids)
    ensures Render(segs + [seg], ids) == Render(segs, ids) + RenderSegment(seg, ids)
  {
    if segs != [] {
      assert (segs + [seg])[1..] == segs[1..] + [seg];
      RenderAppend(segs[1..], seg, ids);
    }
  }

  method RenderMessageContent(segments: seq<Segment>, msgIDMap: Ids) returns (builder: string)
    ensures builder == Render(segments, msgIDMap)
  {
    hide RenderSegment;
    builder := "";
    for i := 0 to |segments|
      invariant builder == Render(segments[..i], msgIDMap)
    {
      RenderAppend(segments[..i], segments[i], msgIDMap);
      assert segments[..i + 1] == segments[..i] + [segments[i]];
      builder := builder + RenderSegment(segments[i], msgIDMap);
    }
    assert segments[..|segments|] == segments;
  }

  // ---- The parser's loop ----

  /** The loop's variables: quoteEnd is -1 outside any quote. */
  datatype Scan = Scan(segments: seq<Segment>, index: nat, quoteEnd: int, ids: Ids, channels: Option<Ids>)

  function TextPart(text: string): seq<Segment> {
    if Spaces.Blank(text) then [] else [Text(text)]
  }

  /** What a tag other than quote adds. */
  function ReadTag(name: string, attrs: map<string, string>): seq<Segment> {
    var url := FirstNonEmpty(Lookup(attrs, "src"), Lookup(attrs, "url"));
    if name == "at" then
      if Lookup(attrs, "type") == "all" then [At("all")]
      else if Lookup(attrs, "id") != "" then [At(Lookup(attrs, "id"))] else []
    else if name == "img" || name == "image" then if url != "" then [Image(url, url)] else []
    else if name == "audio" then if url != "" then [Record(url, url)] else []
    else if name == "video" then if url != "" then [Video(url, url)] else []
    else if name == "file" then
      var title := FirstNonEmpty(Lookup(attrs, "title"), Lookup(attrs, "name"));
      if url != "" || title != "" then [File(url, "", title)] else []
    else []
  }

  const QUOTE_CLOSE := "</quote>"

  /** The first occurrence of the closing quote tag from position i on. */
  function QuoteCloseFrom(s: string, i: nat): (n: Option<nat>)
    requires i <= |s|
    ensures n.Some? ==> i <= n.value && n.value + |QUOTE_CLOSE| <= |s|
    decreases |s| - i
  {
    if i + |QUOTE_CLOSE| > |s| then None
    else if s[i..i + |QUOTE_CLOSE|] == QUOTE_CLOSE then Some(i)
    else QuoteCloseFrom(s, i + 1)
  }

  function VisitQuote(content: string, st: Scan, tag: Tag, id: string, channelID: string): Scan
    requires tag.end <= |content|
  {
    var read := match Decimal.ParseInt(id)
      case None => st
      case Some(n) =>
        var local := ToInt32(n);
        st.(segments := st.segments + [Reply(Decimal.FormatInt(local))],
            ids := st.ids[local := id],
            channels := match st.channels
              case None => None
              case Some(known) => Some(if channelID != "" then known[local := channelID] else known));
    match QuoteCloseFrom(content, tag.end)
    case None => read.(index := tag.end)
    case Some(close) => read.(index := close + |QUOTE_CLOSE|, quoteEnd := close + |QUOTE_CLOSE|)
  }

  function Visit(content: string, st: Scan, tag: Tag, channelID: string): Scan
    requires tag.start <= tag.end <= |content|
  {
    var before := if tag.start > st.index then TextPart(HtmlUnescape(content[st.index..tag.start])) else [];
    var st1 := st.(segments := st.segments + before);
    var attrs := AttrsFrom(tag.attrs, 0, map[]);
    if tag.name == "quote" then VisitQuote(content, st1, tag, Lookup(attrs, "id"), channelID)
    else st1.(segments := st1.segments + ReadTag(tag.name, attrs),
              index := if st.quoteEnd >= 0 && tag.start < st.quoteEnd then st.index else tag.end)
  }

  function VisitAll(content: string, st: Scan, tags: seq<Tag>, channelID: string): Scan
    requires forall k | 0 <= k < |tags| :: tags[k].start <= tags[k].end <= |content|
    decreases |tags|
  {
    if tags == [] then st else VisitAll(content, Visit(content, st, tags[0], channelID), tags[1..], channelID)
  }

  /** The segments found, with the text after the last tag. */
  function WithRest(content: string, st: Scan): seq<Segment> {
    st.segments + (if st.index < |content| then TextPart(HtmlUnescape(content[st.index..])) else [])
  }

  /** After the last tag; if nothing was found, the text without its tags. */
  function Finish(content: string, st: Scan): Scan {
    var segments := WithRest(content, st);
    st.(segments := if segments == [] then TextPart(HtmlUnescape(StripTagsFrom(content, 0))) else segments)
  }

  function Parsed(content: string, ids: Ids, channels: Option<Ids>, channelID: string): Scan {
    var start := Scan([], 0, -1, ids, channels);
    if content == "" then start
    else Finish(content, VisitAll(content, start, TagsFrom(content, 0), channelID))
  }

  /** The parser's variables, updated tag by tag. */
  class Parser {
    var segments: seq<Segment>
    var index: nat
    var quoteEnd: int
    var msgIDMap: Ids
    var messageChannelMap: Option<Ids>

    ghost function State(): Scan
      reads this
    {
      Scan(segments, index, quoteEnd, msgIDMap, messageChannelMap)
    }

    constructor (ids: Ids, channels: Option<Ids>)
      ensures State() == Scan([], 0, -1, ids, channels)
    {
      segments, index, quoteEnd := [], 0, -1;
      msgIDMap, messageChannelMap := ids, channels;
    }

    method AppendTextSegment(text: string)
      modifies this`segments
      ensures segments == old(segments) + TextPart(text)
    {
      if !Spaces.Blank(text) {
        segments := segments + [Text(text)];
      }
    }

    method ReadQuote(content: string, tag: Tag, id: string, channelID: string)
      requires tag.end <= |content|
      modifies this
      ensures State() == VisitQuote(content, old(State()), tag, id, channelID)
    {
      match Decimal.ParseInt(id) {
        case None =>
        case Some(n) =>
          var local := ToInt32(n);
          msgIDMap := msgIDMap[local := id];
          if messageChannelMap.Some? && channelID != "" {
            messageChannelMap := Some(messageChannelMap.value[local := channelID]);
          }
          segments := segments + [Reply(Decimal.FormatInt(local))];
      }
      match QuoteCloseFrom(content, tag.end) {
        case None => index := tag.end;
        case Some(close) =>
          quoteEnd := close + |QUOTE_CLOSE|;
          index := close + |QUOTE_CLOSE|;
      }
    }

    method ReadOneTag(content: string, tag: Tag, channelID: string)
      requires tag.start <= tag.end <= |content|
      modifies this
      ensures State() == Visit(content, old(State()), tag, channelID)
    {
      hide VisitQuote, AttrsFrom, HtmlUnescape, TextPart, ReadTag;
      var inQuote := quoteEnd >= 0 && tag.start < quoteEnd;
      if tag.start > index {
        AppendTextSegment(HtmlUnescape(content[index..tag.start]));
      }
      assert old(segments) + [] == old(segments);
      var attrs := AttrsFrom(tag.attrs, 0, map[]);
      if tag.name == "quote" {
        ReadQuote(content, tag, Lookup(attrs, "id"), channelID);
      } else {
        segments := segments + ReadTag(tag.name, attrs);
        if !inQuote {
          index := tag.end;
        }
      }
    }

    method TakeRest(content: string)
      modifies this`segments
      ensures State() == Finish(content, old(State()))
    {
      hide HtmlUnescape, StripTagsFrom, TextPart;
      if index < |content| {
        AppendTextSegment(HtmlUnescape(content[index..]));
      }
      assert old(segments) + [] == old(segments);
      if |segments| == 0 {
        AppendTextSegment(HtmlUnescape(StripTagsFrom(content, 0)));
        ghost var part := TextPart(HtmlUnescape(StripTagsFrom(content, 0)));
        assert [] + part == part;
      }
    }
  }

  method ParseSatoriContentWithMap(content: string, msgIDMap: Ids, messageChannelMap: Option<Ids>, channelID: string)
    returns (parsed: Scan)
    ensures parsed == Parsed(content, msgIDMap, messageChannelMap, channelID)
  {
    hide Visit, Finish, TagsFrom;
    var parser := new Parser(msgIDMap, messageChannelMap);
    if content == "" {
      return Scan([], 0, -1, msgIDMap, messageChannelMap);
    }
    var matches := TagsFrom(content, 0);
    for k := 0 to |matches|
      invariant fresh(parser)
      invariant VisitAll(content, Scan([], 0, -1, msgIDMap, messageChannelMap), matches, channelID)
             == VisitAll(content, parser.State(), matches[k..], channelID)
    {
      assert matches[k..][0] == matches[k] && matches[k..][1..] == matches[k + 1..];
      parser.ReadOneTag(content, matches[k], channelID);
    }
    parser.TakeRest(content);
    parsed := Scan(parser.segments, parser.index, parser.quoteEnd, parser.msgIDMap, parser.messageChannelMap);
  }
}
