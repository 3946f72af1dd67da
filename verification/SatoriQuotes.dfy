/** Quotes with a body in incoming markup: the quoted words are skipped, and the id is remembered
    (adapter/satori/adapter.go). */
module SatoriQuotes {
  import opened Common
  import opened Decimal
  import opened SatoriMarkup
  import opened SatoriRoundTrip

  // ---- Finding the closing tag and the tags before it ----

  lemma {:induction false} CloseAhead(s: string, i: nat, j: nat, close: nat)
    requires i <= j <= close && i <= |s| && QuoteCloseFrom(s, i) == Some(close)
    ensures j <= |s| && QuoteCloseFrom(s, j) == Some(close)
    decreases j - i
  {
    if i < j { CloseAhead(s, i + 1, j, close); }
  }

  /** The closing tag that is found is the first one. */
  lemma {:induction false} QuoteCloseIff(s: string, i: nat, n: nat)
    requires i <= |s|
    ensures QuoteCloseFrom(s, i) == Some(n) <==>
      i <= n && Here(s, n, QUOTE_CLOSE) && forall k: nat | i <= k < n :: !Here(s, k, QUOTE_CLOSE)
    decreases |s| - i
  {
    if i + |QUOTE_CLOSE| <= |s| && s[i..i + |QUOTE_CLOSE|] != QUOTE_CLOSE {
      assert !Here(s, i, QUOTE_CLOSE);
      QuoteCloseIff(s, i + 1, n);
    } else if i + |QUOTE_CLOSE| <= |s| {
      assert Here(s, i, QUOTE_CLOSE);
    }
  }

  /** Behind the body comes the first closing tag. */
  ghost predicate ClosesBehind(body: string) {
    forall k: nat | k < |body| :: !Here(body + QUOTE_CLOSE, k, QUOTE_CLOSE)
  }

  lemma ClosingFound(body: string)
    requires ClosesBehind(body)
    ensures QuoteCloseFrom(body + QUOTE_CLOSE, 0) == Some(|body|)
  {
    hide QuoteCloseFrom;
    var w := body + QUOTE_CLOSE;
    assert w[|body|..|body| + |QUOTE_CLOSE|] == QUOTE_CLOSE;
    QuoteCloseIff(w, 0, |body|);
  }

  /** s continues with w at position p, character by character. */
  ghost predicate SameChars(s: string, p: nat, w: string) {
    p + |w| <= |s| && forall k | 0 <= k < |w| :: s[p + k] == w[k]
  }

  lemma HereIsSame(s: string, p: nat, w: string)
    requires Here(s, p, w)
    ensures SameChars(s, p, w)
  {
    forall k | 0 <= k < |w| ensures s[p + k] == w[k] { assert s[p..p + |w|][k] == w[k]; }
  }

  lemma SameSlice(s: string, p: nat, w: string, a: nat, b: nat)
    requires SameChars(s, p, w) && a <= b <= |w|
    ensures p + b <= |s| && s[p + a..p + b] == w[a..b]
  {
    forall k | 0 <= k < b - a ensures s[p + a..p + b][k] == w[a..b][k] { assert s[p + (a + k)] == w[a + k]; }
  }

  lemma SameHere(s: string, p: nat, w: string, k: nat, v: string)
    requires SameChars(s, p, w) && k + |v| <= |w|
    ensures Here(s, p + k, v) <==> Here(w, k, v)
  {
    SameSlice(s, p, w, k, k + |v|);
  }

  /** The closing tag of a quote's body is found where the body ends. */
  lemma {:induction false} CloseInContext(s: string, p: nat, w: string, i: nat, close: nat)
    requires SameChars(s, p, w) && i <= |w| && QuoteCloseFrom(w, i) == Some(close)
    ensures p + i <= |s| && QuoteCloseFrom(s, p + i) == Some(p + close)
  {
    QuoteCloseIff(w, i, close);
    QuoteCloseIff(s, p + i, p + close);
    SameHere(s, p, w, close, QUOTE_CLOSE);
    hide SameChars, Here;
    forall k: nat | p + i <= k < p + close ensures !Here(s, k, QUOTE_CLOSE) {
      SameHere(s, p, w, k - p, QUOTE_CLOSE);
    }
  }

  function Moved(tags: seq<Tag>, p: nat): (moved: seq<Tag>)
    ensures |moved| == |tags|
    ensures forall k | 0 <= k < |tags| ::
      moved[k] == Tag(tags[k].start + p, tags[k].end + p, tags[k].name, tags[k].attrs)
  {
    seq(|tags|, k requires 0 <= k < |tags| => Tag(tags[k].start + p, tags[k].end + p, tags[k].name, tags[k].attrs))
  }

  /** A match inside a piece of text that ends with a bracket is the same match anywhere. */
  lemma TagInContext(s: string, p: nat, w: string, i: nat)
    requires SameChars(s, p, w) && i < |w| && w[|w| - 1] == '>'
    ensures p + i < |s|
    ensures TagAt(s, p + i) == match TagAt(w, i)
      case None => None
      case Some(tag) => Some(Tag(tag.start + p, tag.end + p, tag.name, tag.attrs))
  {
    hide NameEnd, IndexFrom;
    assert s[p + i] == w[i];
    if w[i] == '<' {
      assert i + 1 < |w|;
      SameNameEnd(s, p, w, i + 1);
      var n := NameEnd(w, i + 1);
      SameIndex(s, p, w, n);
      var close := IndexFrom(w, '>', n);
      SameSlice(s, p, w, i + 1, n);
      SameSlice(s, p, w, n, close);
      TagOfParts(w, i, n, close);
      TagOfParts(s, p + i, p + n, p + close);
    }
  }

  lemma TagOfParts(s: string, i: nat, n: nat, close: nat)
    requires i + 1 <= n <= close < |s| && s[i] == '<'
    requires n == NameEnd(s, i + 1) && close == IndexFrom(s, '>', n)
    ensures TagAt(s, i) == if n > i + 1 then Some(Tag(i, close + 1, s[i + 1..n], s[n..close])) else None
  {
  }

  lemma SameNameEnd(s: string, p: nat, w: string, i: nat)
    requires SameChars(s, p, w) && i < |w| && w[|w| - 1] == '>'
    ensures NameEnd(s, p + i) == p + NameEnd(w, i) && NameEnd(w, i) < |w|
    decreases |w| - i
  {
    assert !IsNameChar('>');
    if IsNameChar(w[i]) { SameNameEnd(s, p, w, i + 1); }
  }

  lemma SameIndex(s: string, p: nat, w: string, i: nat)
    requires SameChars(s, p, w) && i < |w| && w[|w| - 1] == '>'
    ensures IndexFrom(s, '>', p + i) == p + IndexFrom(w, '>', i)
    ensures IndexFrom(w, '>', i) < |w|
    decreases |w| - i
  {
    if w[i] != '>' { SameIndex(s, p, w, i + 1); }
  }

  lemma MovedFirst(tag: Tag, rest: seq<Tag>, p: nat, later: seq<Tag>)
    ensures Moved([tag] + rest, p) + later
         == [Tag(tag.start + p, tag.end + p, tag.name, tag.attrs)] + (Moved(rest, p) + later)
  {
  }

  lemma {:induction false} TagsInContext(s: string, p: nat, w: string, i: nat)
    requires SameChars(s, p, w) && i <= |w| && w != "" && w[|w| - 1] == '>'
    ensures p + |w| <= |s|
    ensures TagsFrom(s, p + i) == Moved(TagsFrom(w, i), p) + TagsFrom(s, p + |w|)
    decreases |w| - i
  {
    hide TagAt, Moved, SameChars, TagsFrom;
    SameFits(s, p, w);
    if i == |w| {
      TagsEnd(w);
      NothingMoved(p, TagsFrom(s, p + |w|));
    } else {
      TagInContext(s, p, w, i);
      match TagAt(w, i) {
        case None =>
          TagsInContext(s, p, w, i + 1);
          NoTagFrom(w, i);
          NoTagFrom(s, p + i);
        case Some(tag) =>
          TagsInContext(s, p, w, tag.end);
          TagFirst(w, i, tag);
          TagFirst(s, p + i, Tag(tag.start + p, tag.end + p, tag.name, tag.attrs));
          MovedFirst(tag, TagsFrom(w, tag.end), p, TagsFrom(s, p + |w|));
      }
    }
  }

  lemma TagsEnd(s: string)
    ensures TagsFrom(s, |s|) == []
  {
  }

  lemma NoTagFrom(s: string, i: nat)
    requires i < |s| && TagAt(s, i) == None
    ensures TagsFrom(s, i) == TagsFrom(s, i + 1)
  {
    hide TagAt;
  }

  lemma TagFirst(s: string, i: nat, tag: Tag)
    requires i < |s| && TagAt(s, i) == Some(tag)
    ensures tag.end <= |s| && TagsFrom(s, i) == [tag] + TagsFrom(s, tag.end)
  {
    hide TagAt;
  }

  lemma SameFits(s: string, p: nat, w: string)
    requires SameChars(s, p, w)
    ensures p + |w| <= |s|
  {
  }

  lemma TagsStep(s: string, i: nat)
    requires i <= |s|
    ensures TagsFrom(s, i) ==
      if i == |s| then [] else
      match TagAt(s, i) case Some(tag) => [tag] + TagsFrom(s, tag.end) case None => TagsFrom(s, i + 1)
  {
    hide TagAt;
  }

  lemma NothingMoved(p: nat, later: seq<Tag>)
    ensures Moved([], p) + later == later
  {
  }

  // ---- What the tags of a body add ----

  function TagId(tag: Tag): string {
    if tag.name == "quote" then Lookup(AttrsFrom(tag.attrs, 0, map[]), "id") else ""
  }

  /** The segments that the tags stand for, without any text between them. */
  function TagSegments(tags: seq<Tag>): seq<Segment> {
    if tags == [] then [] else
    (if tags[0].name == "quote" then ReadQuote(TagId(tags[0]))
     else ReadTag(tags[0].name, AttrsFrom(tags[0].attrs, 0, map[])))
    + TagSegments(tags[1..])
  }

  function TagIds(tags: seq<Tag>, known: Ids): Ids {
    if tags == [] then known else TagIds(tags[1..], QuoteIds(TagId(tags[0]), known))
  }

  function TagChannels(tags: seq<Tag>, channels: Option<Ids>, channelID: string): Option<Ids> {
    if tags == [] then channels
    else TagChannels(tags[1..], QuoteChannels(TagId(tags[0]), channels, channelID), channelID)
  }

  /** The tag stands before the end of the quote that has been jumped over. */
  ghost predicate InQuote(content: string, tag: Tag, close: nat) {
    && tag.start < tag.end <= |content|
    && (tag.end <= close ==> QuoteCloseFrom(content, tag.end) == Some(close))
    && (tag.end > close ==> tag.end == close + |QUOTE_CLOSE| && QuoteCloseFrom(content, tag.end) == None)
  }

  lemma VisitInQuote(content: string, st: Scan, tag: Tag, close: nat, channelID: string)
    requires InQuote(content, tag, close) && st.index == st.quoteEnd == close + |QUOTE_CLOSE|
    ensures
      var next := Visit(content, st, tag, channelID);
      && next.index == next.quoteEnd == st.quoteEnd
      && next.segments == st.segments
           + (if tag.name == "quote" then ReadQuote(TagId(tag))
              else ReadTag(tag.name, AttrsFrom(tag.attrs, 0, map[])))
      && next.ids == QuoteIds(TagId(tag), st.ids)
      && next.channels == QuoteChannels(TagId(tag), st.channels, channelID)
  {
    NoNumber();
    hide AttrsFrom, ParseInt, FormatInt, ReadTag;
    assert st.segments + [] == st.segments;
  }

  lemma {:induction false} BodyVisited(content: string, st: Scan, tags: seq<Tag>, later: seq<Tag>, close: nat,
                                       channelID: string)
    requires forall k | 0 <= k < |tags| :: InQuote(content, tags[k], close) && tags[k].start <= tags[k].end <= |content|
    requires forall k | 0 <= k < |later| :: later[k].start <= later[k].end <= |content|
    requires st.index == st.quoteEnd == close + |QUOTE_CLOSE|
    ensures VisitAll(content, st, tags + later, channelID) ==
      VisitAll(content, st.(segments := st.segments + TagSegments(tags), ids := TagIds(tags, st.ids),
                            channels := TagChannels(tags, st.channels, channelID)), later, channelID)
    decreases |tags|
  {
    hide Visit, InQuote, ReadTag, ReadQuote, QuoteIds, QuoteChannels, TagId;
    if tags == [] {
      assert st.segments + [] == st.segments && tags + later == later;
    } else {
      var tag, rest := tags[0], tags[1..];
      assert tags + later == [tag] + (rest + later) && InQuote(content, tag, close);
      VisitInQuote(content, st, tag, close, channelID);
      VisitFirst(content, st, tag, rest + later, channelID);
      var next := Visit(content, st, tag, channelID);
      BodyVisited(content, next, rest, later, close, channelID);
      var own := if tag.name == "quote" then ReadQuote(TagId(tag))
                 else ReadTag(tag.name, AttrsFrom(tag.attrs, 0, map[]));
      ConcatAssociates(st.segments, own, TagSegments(rest));
    }
  }

  lemma {:induction false} NoTextInTags(tags: seq<Tag>)
    ensures forall k | 0 <= k < |TagSegments(tags)| :: !TagSegments(tags)[k].Text?
  {
    hide AttrsFrom, Lookup, ParseInt, FormatInt;
    if tags != [] { NoTextInTags(tags[1..]); }
  }

  // ---- A quote with a body ----

  lemma {:induction false} TagsEndWithBracket(s: string, i: nat)
    requires i <= |s|
    ensures forall k | 0 <= k < |TagsFrom(s, i)| :: s[TagsFrom(s, i)[k].end - 1] == '>'
    decreases |s| - i
  {
    hide TagAt, TagsFrom;
    TagsStep(s, i);
    if i < |s| {
      match TagAt(s, i) {
        case Some(tag) => TagEndsWithBracket(s, i); TagsEndWithBracket(s, tag.end);
        case None => TagsEndWithBracket(s, i + 1);
      }
    }
  }

  lemma TagEndsWithBracket(s: string, i: nat)
    requires i < |s| && TagAt(s, i).Some?
    ensures s[TagAt(s, i).value.end - 1] == '>'
  {
  }

  lemma VisitOpenQuote(content: string, st: Scan, tag: Tag, pending: string, close: nat, channelID: string)
    requires tag.start <= tag.end <= |content| && tag.name == "quote" && Pending(content, st, tag.start, pending)
    requires QuoteCloseFrom(content, tag.end) == Some(close)
    ensures
      var id, next := TagId(tag), Visit(content, st, tag, channelID);
      && next.index == next.quoteEnd == close + |QUOTE_CLOSE|
      && next.segments == st.segments + (TextPart(pending) + ReadQuote(id))
      && next.ids == QuoteIds(id, st.ids) && next.channels == QuoteChannels(id, st.channels, channelID)
  {
    hide HtmlUnescape, TextPart, AttrsFrom, ParseInt, FormatInt;
    PendingText(content, st, tag.start, pending);
    ConcatAssociates(st.segments, TextPart(pending), ReadQuote(TagId(tag)));
  }

  /** The tags of the body, where the body stands in the content. */
  lemma BodyTagsInQuote(content: string, q: nat, body: string)
    requires SameChars(content, q, body + QUOTE_CLOSE)
    requires QuoteCloseFrom(body + QUOTE_CLOSE, 0) == Some(|body|)
    requires NoClosingFrom(content, q + |body| + |QUOTE_CLOSE|)
    ensures
      var moved := Moved(TagsFrom(body + QUOTE_CLOSE, 0), q);
      forall k | 0 <= k < |moved| ::
        InQuote(content, moved[k], q + |body|) && moved[k].start <= moved[k].end <= |content|
  {
    hide TagsFrom, QuoteCloseFrom, NoClosingFrom;
    var w, close := body + QUOTE_CLOSE, q + |body|;
    var tags := TagsFrom(w, 0);
    CloseInContext(content, q, w, 0, |body|);
    TagsEndWithBracket(w, 0);
    NoQuoteClose(content, close + |QUOTE_CLOSE|);
    var moved := Moved(tags, q);
    forall k | 0 <= k < |moved| ensures InQuote(content, moved[k], close) {
      assert w[tags[k].end - 1] == '>';
      if moved[k].end <= close {
        CloseAhead(content, q, moved[k].end, close);
      } else {
        OnlyLastBracket(tags[k].end - 1 - |body|);
        assert w[tags[k].end - 1] == QUOTE_CLOSE[tags[k].end - 1 - |body|];
      }
    }
  }

  lemma OnlyLastBracket(k: nat)
    requires k < |QUOTE_CLOSE|
    ensures QUOTE_CLOSE[k] == '>' <==> k == |QUOTE_CLOSE| - 1
  {
  }

  function WithQuote(text: string, attrs: string, body: string, after: string): string {
    HtmlEscape(text) + (("<" + "quote" + attrs + ">") + ((body + QUOTE_CLOSE) + after))
  }

  lemma QuoteSlices(content: string, text: string, attrs: string, body: string, after: string)
    requires content == WithQuote(text, attrs, body, after)
    ensures
      var p := |HtmlEscape(text)|;
      var q := p + 7 + |attrs|;
      && q + |body + QUOTE_CLOSE| <= |content|
      && Here(content, 0, HtmlEscape(text))
      && Here(content, p, "<" + "quote" + attrs + ">")
      && Here(content, q, body + QUOTE_CLOSE)
      && content[q + |body + QUOTE_CLOSE|..] == after
  {
    hide HtmlEscape, Here;
    var open, w := "<" + "quote" + attrs + ">", body + QUOTE_CLOSE;
    var p := |HtmlEscape(text)|;
    assert content[0..] == content;
    SuffixSplit(content, 0, HtmlEscape(text), open + (w + after));
    SuffixSplit(content, p, open, w + after);
    SuffixSplit(content, p + |open|, w, after);
  }

  /** The quote's tag is found behind the text. */
  lemma OpenTagFound(content: string, p: nat, attrs: string)
    requires TagParts("quote", attrs) && Here(content, p, "<" + "quote" + attrs + ">")
    ensures
      var q := p + 7 + |attrs|;
      q <= |content| && TagsFrom(content, p) == [Tag(p, q, "quote", attrs)] + TagsFrom(content, q)
  {
    hide TagsFrom, TagAt, TagParts;
    ScanTag(content, p, "quote", attrs);
    TagsStep(content, p);
  }

  lemma TextBefore(content: string, st: Scan, text: string)
    requires st.index == 0 && st.quoteEnd == -1 && Here(content, 0, HtmlEscape(text))
    ensures Pending(content, st, |HtmlEscape(text)|, text)
    ensures TagsFrom(content, 0) == TagsFrom(content, |HtmlEscape(text)|)
  {
    hide HtmlEscape, TagsFrom, Here, Pending;
    HereFits(content, 0, HtmlEscape(text));
    NothingPending(content, st);
    PendingGrows(content, st, 0, "", text);
    assert "" + text == text;
  }

  lemma HereFits(s: string, p: nat, w: string)
    requires Here(s, p, w)
    ensures p + |w| <= |s|
  {
  }

  /** Where the quote's tag, its body and what follows stand. */
  lemma QuoteLayout(content: string, st: Scan, text: string, attrs: string, body: string, after: string)
    requires content == WithQuote(text, attrs, body, after) && TagParts("quote", attrs) && NoClosing(after)
    requires QuoteCloseFrom(body + QUOTE_CLOSE, 0) == Some(|body|)
    requires st.index == 0 && st.quoteEnd == -1
    ensures
      var p := |HtmlEscape(text)|;
      var q := p + 7 + |attrs|;
      var end := q + |body + QUOTE_CLOSE|;
      && end <= |content| && content[end..] == after && NoClosingFrom(content, end)
      && Pending(content, st, p, text)
      && TagsFrom(content, 0) == [Tag(p, q, "quote", attrs)] + TagsFrom(content, q)
      && SameChars(content, q, body + QUOTE_CLOSE)
      && QuoteCloseFrom(content, q) == Some(q + |body|)
  {
    hide HtmlEscape, TagsFrom, QuoteCloseFrom, TagParts, NoClosing, Here, WithQuote, NoClosingFrom, SameChars, Pending;
    var q := |HtmlEscape(text)| + 7 + |attrs|;
    QuoteSlices(content, text, attrs, body, after);
    TextBefore(content, st, text);
    OpenTagFound(content, |HtmlEscape(text)|, attrs);
    var w := body + QUOTE_CLOSE;
    HereIsSame(content, q, w);
    TailHasNoClosing(content, q + |w|, after);
    CloseInContext(content, q, w, 0, |body|);
  }

  /** What the parser has read when it comes to the end of the quote. */
  lemma ReadsQuote(content: string, st: Scan, text: string, attrs: string, body: string, after: string,
                   channelID: string)
    returns (end: nat, next: Scan)
    requires content == WithQuote(text, attrs, body, after) && TagParts("quote", attrs) && NoClosing(after)
    requires QuoteCloseFrom(body + QUOTE_CLOSE, 0) == Some(|body|)
    requires st.index == 0 && st.quoteEnd == -1
    ensures end <= |content| && content[end..] == after && NoClosingFrom(content, end)
    ensures Pending(content, next, end, "")
    ensures VisitAll(content, st, TagsFrom(content, 0), channelID)
         == VisitAll(content, next, TagsFrom(content, end), channelID)
    ensures
      var id, inner := Lookup(AttrsFrom(attrs, 0, map[]), "id"), TagsFrom(body + QUOTE_CLOSE, 0);
      && next.segments == st.segments + (TextPart(text) + ReadQuote(id)) + TagSegments(inner)
      && next.ids == TagIds(inner, QuoteIds(id, st.ids))
      && next.channels == TagChannels(inner, QuoteChannels(id, st.channels, channelID), channelID)
  {
    hide HtmlEscape, TagsFrom, VisitAll, Visit, QuoteCloseFrom, TextPart, ReadQuote, QuoteIds, QuoteChannels, AttrsFrom,
      TagSegments, TagIds, TagChannels, InQuote, TagParts, NoClosing, NoClosingFrom, WithQuote, SameChars, Moved;
    QuoteLayout(content, st, text, attrs, body, after);
    var p := |HtmlEscape(text)|;
    var q := p + 7 + |attrs|;
    end := q + |body| + |QUOTE_CLOSE|;
    var tag, inner := Tag(p, q, "quote", attrs), TagsFrom(body + QUOTE_CLOSE, 0);
    VisitOpenQuote(content, st, tag, text, q + |body|, channelID);
    var inside := Visit(content, st, tag, channelID);
    VisitFirst(content, st, tag, TagsFrom(content, q), channelID);
    TagsInContext(content, q, body + QUOTE_CLOSE, 0);
    BodyTagsInQuote(content, q, body);
    BodyVisited(content, inside, Moved(inner, q), TagsFrom(content, end), q + |body|, channelID);
    MovedAddSame(inner, q, inside.ids, inside.channels, channelID);
    next := inside.(segments := inside.segments + TagSegments(inner), ids := TagIds(inner, inside.ids),
                    channels := TagChannels(inner, inside.channels, channelID));
    NothingPending(content, next);
  }

  lemma TailHasNoClosing(content: string, end: nat, after: string)
    requires end <= |content| && content[end..] == after && NoClosing(after)
    ensures NoClosingFrom(content, end)
  {
    forall k | end <= k < |content| && content[k] == '<' ensures k + 1 < |content| && content[k + 1] != '/' {
      assert after[k - end] == '<';
      assert content[k + 1] == after[k - end + 1];
    }
  }

  lemma {:induction false} MovedAddSame(tags: seq<Tag>, p: nat, known: Ids, channels: Option<Ids>, channelID: string)
    ensures TagSegments(Moved(tags, p)) == TagSegments(tags)
    ensures TagIds(Moved(tags, p), known) == TagIds(tags, known)
    ensures TagChannels(Moved(tags, p), channels, channelID) == TagChannels(tags, channels, channelID)
  {
    hide AttrsFrom, ReadTag, ReadQuote, QuoteIds, QuoteChannels;
    if tags != [] {
      var id := TagId(tags[0]);
      assert Moved(tags, p)[1..] == Moved(tags[1..], p);
      MovedAddSame(tags[1..], p, QuoteIds(id, known), QuoteChannels(id, channels, channelID), channelID);
    }
  }

  /** For any text, any quote tag with a numeric id, any body up to its closing tag, and any rendered message behind it:
      the text, the reply, the body's tags without its words, and the message; and the id is remembered. */
  lemma {:induction false} QuotedWordsAreSkipped(text: string, attrs: string, body: string, segs: seq<Segment>,
                                                 ids: Ids, known: Ids, channels: Option<Ids>, channelID: string)
    requires TagParts("quote", attrs) && ParseInt(Lookup(AttrsFrom(attrs, 0, map[]), "id")).Some?
    requires ClosesBehind(body)
    ensures
      var id, inner := Lookup(AttrsFrom(attrs, 0, map[]), "id"), TagsFrom(body + QUOTE_CLOSE, 0);
      var number := ToInt32(ParseInt(id).value);
      var parsed := Parsed(WithQuote(text, attrs, body, Render(segs, ids)), known, channels, channelID);
      && parsed.segments == TextPart(text) + [Reply(FormatInt(number))] + TagSegments(inner) + Normal(segs, ids)
      && parsed.ids == IdsAfter(segs, ids, TagIds(inner, known[number := id]))
      && parsed.channels ==
           ChannelsAfter(segs, ids, TagChannels(inner, if channels.Some? && channelID != ""
             then Some(channels.value[number := channelID]) else channels, channelID), channelID)
  {
    hide WithQuote, TagsFrom, VisitAll, QuoteCloseFrom, TextPart, AttrsFrom, TagSegments, TagIds, TagChannels, IdsAfter,
      ChannelsAfter, TagParts, NoClosing, NoClosingFrom, Pending, ParseInt, FormatInt, NormalFrom, WithRest, Lookup,
      HtmlUnescape, StripTagsFrom, ClosesBehind;
    ClosingFound(body);
    var content := WithQuote(text, attrs, body, Render(segs, ids));
    var start := Scan([], 0, -1, known, channels);
    RenderHasNoClosing(segs, ids);
    var end, next := ReadsQuote(content, start, text, attrs, body, Render(segs, ids), channelID);
    ParseRest(content, next, end, "", segs, ids, channelID);
    QuoteIsNotEmpty(text, attrs, body, Render(segs, ids));
    var id := Lookup(AttrsFrom(attrs, 0, map[]), "id");
    assert [] + (TextPart(text) + ReadQuote(id)) == TextPart(text) + ReadQuote(id);
  }

  lemma QuoteIsNotEmpty(text: string, attrs: string, body: string, after: string)
    ensures WithQuote(text, attrs, body, after) != ""
  {
    hide HtmlEscape;
  }
}
