/** What the chunks say, compared with the message they were built from. */
module ChunkContent {
  import opened Common
  import opened Segments
  import TextSplit
  import opened Chunker

  function Flatten(chunks: seq<seq<Segment>>): seq<Segment> {
    if chunks == [] then [] else Flatten(chunks[..|chunks| - 1]) + chunks[|chunks| - 1]
  }

  /** Everything packed so far, in order. */
  function Flat(p: Pack): seq<Segment> {
    Flatten(p.chunks) + p.current
  }

  lemma FlushedIsFlat(p: Pack)
    ensures Flat(Flushed(p)) == Flat(p)
  {
    if p.current != [] {
      assert Flushed(p).chunks[..|p.chunks|] == p.chunks;
    }
  }

  function Texts(pieces: seq<string>): (segs: seq<Segment>)
    ensures |segs| == |pieces| && forall i | 0 <= i < |pieces| :: segs[i] == Text(pieces[i])
  {
    seq(|pieces|, i requires 0 <= i < |pieces| => Text(pieces[i]))
  }

  /** The text is the pieces joined by runs of newlines, possibly followed by one more run. */
  ghost predicate JoinsTo(pieces: seq<string>, text: string) {
    if pieces == [] then TextSplit.AllNewlines(text)
    else pieces[0] != "" && exists skip: nat :: SkipsTo(pieces[0], text, skip) && JoinsTo(pieces[1..], text[skip..])
  }

  /** The text starts with the piece, followed by newlines only up to position skip. */
  ghost predicate SkipsTo(piece: string, text: string, skip: nat) {
    |piece| <= skip <= |text| && text[..|piece|] == piece && TextSplit.AllNewlines(text[|piece|..skip])
  }

  /** What one segment becomes: a text its pieces, a json segment nothing, any other kind itself. */
  ghost predicate Covers(seg: Segment, part: seq<Segment>) {
    match seg
    case Text(text) => exists pieces: seq<string> :: IsCutInto(text, pieces) && part == Texts(pieces)
    case Json(_) => part == []
    case _ => part == [seg]
  }

  /** Only an empty text has no piece at all. */
  ghost predicate IsCutInto(text: string, pieces: seq<string>) {
    JoinsTo(pieces, text) && (text == "" <==> pieces == [])
  }

  /** The output is what the input segments become, one after the other. */
  ghost predicate Faithful(input: seq<Segment>, output: seq<Segment>)
    decreases |input|, 1
  {
    if input == [] then output == [] else exists n: nat :: StartsFaithfully(input, output, n)
  }

  ghost predicate StartsFaithfully(input: seq<Segment>, output: seq<Segment>, n: nat)
    requires input != []
    decreases |input|, 0
  {
    n <= |output| && Covers(input[0], output[..n]) && Faithful(input[1..], output[n..])
  }

  lemma WithTextIsFlat(p: Pack, text: string)
    ensures Flat(WithText(p, text)) == Flat(p) + [Text(text)]
  {
    ConcatAssociates(Flatten(p.chunks), p.current, [Text(text)]);
  }

  /** One pass of the text loop adds nothing, or one piece together with the newlines it skips. */
  lemma {:induction false} TextStepContent(st: TextLoop) returns (piece: string)
    requires st.text != ""
    ensures var next := TextStep(st);
            if piece == "" then next.text == st.text && Flat(next.pack) == Flat(st.pack)
            else && Flat(next.pack) == Flat(st.pack) + [Text(piece)]
                 && SkipsTo(piece, st.text, |st.text| - |next.text|)
                 && next.text == st.text[|st.text| - |next.text|..]
  {
    hide TextSplit.SplitOf, TextSplit.Remainder, Flat, Flushed, WithText;
    var text, p := st.text, st.pack;
    var available := MAX_TEXT_LENGTH - p.textLen;
    FlushedIsFlat(p);
    if available <= 0 {
      piece := "";
    } else {
      piece := if |text| <= available then text else TextSplit.SplitOf(text, available).text;
      WithTextIsFlat(p, piece);
      FlushedIsFlat(WithText(p, piece));
    }
  }

  lemma JoinsToCons(piece: string, rest: seq<string>, text: string, skip: nat)
    requires piece != "" && SkipsTo(piece, text, skip) && JoinsTo(rest, text[skip..])
    ensures JoinsTo([piece] + rest, text)
    ensures Texts([piece] + rest) == [Text(piece)] + Texts(rest)
  {
    assert ([piece] + rest)[1..] == rest;
  }

  lemma NothingToCut(st: TextLoop)
    requires st.text == ""
    ensures PackText(st) == Some(st.pack) && IsCutInto("", [])
    ensures Flat(st.pack) + Texts([]) == Flat(st.pack)
  {
  }

  lemma PackTextStep(st: TextLoop)
    requires st.text != "" && PackText(st).Some?
    ensures TextStep(st) != st && PackText(st) == PackText(TextStep(st))
  {
    hide TextStep;
  }

  lemma {:induction false} TextPieces(st: TextLoop, q: Pack) returns (pieces: seq<string>)
    requires PackText(st) == Some(q)
    ensures IsCutInto(st.text, pieces)
    ensures Flat(q) == Flat(st.pack) + Texts(pieces)
    decreases |st.text|, |st.pack.current|
  {
    hide TextStep, PackText, Flat, SkipsTo, JoinsTo;
    if st.text == "" {
      NothingToCut(st);
      pieces := [];
    } else {
      var next := TextStep(st);
      TextStepMakesProgress(st);
      PackTextStep(st);
      var piece := TextStepContent(st);
      var rest := TextPieces(next, q);
      if piece == "" {
        pieces := rest;
      } else {
        JoinsToCons(piece, rest, st.text, |st.text| - |next.text|);
        pieces := [piece] + rest;
        ConcatAssociates(Flat(st.pack), [Text(piece)], Texts(rest));
      }
    }
  }

  lemma {:induction false} SegmentContent(seg: Segment, p: Pack, q: Pack) returns (part: seq<Segment>)
    requires PackSegment(seg, p) == Some(q)
    ensures Flat(q) == Flat(p) + part
    ensures Covers(seg, part)
  {
    if seg.Text? {
      hide PackText, Flat, IsCutInto;
      var pieces := TextPieces(TextLoop(seg.text, p), q);
      part := Texts(pieces);
    } else {
      part := if seg.Json? then [] else [seg];
      OtherContent(seg, p, q);
    }
  }

  lemma OtherContent(seg: Segment, p: Pack, q: Pack)
    requires !seg.Text? && PackSegment(seg, p) == Some(q)
    ensures Flat(q) == Flat(p) + if seg.Json? then [] else [seg]
  {
    hide PackText, Flat;
    FlushedIsFlat(p);
    if IsSingle(seg) {
      AloneIsFlat(Flushed(p), q, seg);
    } else if seg.Json? {
      assert Flat(p) + [] == Flat(p);
    } else {
      AppendIsFlat(if q.chunks == p.chunks then p else Flushed(p), q, seg);
    }
  }

  lemma AloneIsFlat(p: Pack, q: Pack, seg: Segment)
    requires p.current == q.current == [] && q.chunks == p.chunks + [[seg]]
    ensures Flat(q) == Flat(p) + [seg]
  {
    assert q.chunks[..|p.chunks|] == p.chunks;
  }

  lemma AppendIsFlat(p: Pack, q: Pack, seg: Segment)
    requires q.chunks == p.chunks && q.current == p.current + [seg]
    ensures Flat(q) == Flat(p) + [seg]
  {
    hide Flatten;
    ConcatAssociates(Flatten(p.chunks), p.current, [seg]);
  }

  lemma FaithfulCons(segs: seq<Segment>, part: seq<Segment>, rest: seq<Segment>)
    requires segs != [] && Covers(segs[0], part) && Faithful(segs[1..], rest)
    ensures Faithful(segs, part + rest)
  {
    assert (part + rest)[..|part|] == part && (part + rest)[|part|..] == rest;
    assert StartsFaithfully(segs, part + rest, |part|);
  }

  lemma {:induction false} PackContent(segs: seq<Segment>, p: Pack, q: Pack) returns (output: seq<Segment>)
    requires PackAll(segs, p) == Some(q)
    ensures Flat(q) == Flat(p) + output
    ensures Faithful(segs, output)
  {
    hide PackSegment, Covers, Flat;
    if segs == [] {
      output := [];
    } else {
      var next := PackSegment(segs[0], p).value;
      var part := SegmentContent(segs[0], p, next);
      var rest := PackContent(segs[1..], next, q);
      FaithfulCons(segs, part, rest);
      output := part + rest;
    }
  }

  /** Chunking preserves content and order. */
  lemma {:induction false} ChunksAreFaithful(segs: seq<Segment>)
    requires PackMessage(segs).Some?
    ensures Faithful(segs, Flatten(PackMessage(segs).value))
  {
    hide PackAll, Faithful;
    var p := PackAll(segs, EMPTY_PACK).value;
    var output := PackContent(segs, EMPTY_PACK, p);
    FlushedIsFlat(p);
    assert Flat(EMPTY_PACK) == [];
    assert Flat(EMPTY_PACK) + output == output;
    assert Flat(Flushed(p)) == Flatten(Flushed(p).chunks);
  }

  // ---- No visible rune is lost, repeated or moved ----

  datatype Token = Rune(c: char) | Whole(seg: Segment)

  function Ink(text: string): seq<Token> {
    if text == "" then [] else (if text[0] == '\n' then [] else [Rune(text[0])]) + Ink(text[1..])
  }

  function Visible(segs: seq<Segment>): seq<Token> {
    if segs == [] then [] else
    (match segs[0] case Text(text) => Ink(text) case Json(_) => [] case _ => [Whole(segs[0])])
    + Visible(segs[1..])
  }

  lemma {:induction false} InkOfConcat(a: string, b: string)
    ensures Ink(a + b) == Ink(a) + Ink(b)
  {
    if a == "" {
      assert a + b == b;
    } else {
      assert (a + b)[1..] == a[1..] + b;
      InkOfConcat(a[1..], b);
    }
  }

  lemma {:induction false} InkOfNewlines(text: string)
    requires TextSplit.AllNewlines(text)
    ensures Ink(text) == []
  {
    if text != "" { InkOfNewlines(text[1..]); }
  }

  lemma {:induction false} VisibleConcat(a: seq<Segment>, b: seq<Segment>)
    ensures Visible(a + b) == Visible(a) + Visible(b)
  {
    if a == [] {
      assert a + b == b;
    } else {
      assert (a + b)[1..] == a[1..] + b;
      VisibleConcat(a[1..], b);
    }
  }

  lemma {:induction false} InkOfSkip(piece: string, text: string, skip: nat)
    requires SkipsTo(piece, text, skip)
    ensures Ink(text) == Ink(piece) + Ink(text[skip..])
  {
    var newlines := text[|piece|..skip];
    InkOfNewlines(newlines);
    InkOfConcat(piece, newlines);
    InkOfConcat(piece + newlines, text[skip..]);
    assert text == piece + newlines + text[skip..];
  }

  lemma {:induction false} InkOfPieces(pieces: seq<string>, text: string)
    requires JoinsTo(pieces, text)
    ensures Visible(Texts(pieces)) == Ink(text)
  {
    if pieces == [] {
      InkOfNewlines(text);
    } else {
      hide Ink;
      var skip: nat :| SkipsTo(pieces[0], text, skip) && JoinsTo(pieces[1..], text[skip..]);
      InkOfPieces(pieces[1..], text[skip..]);
      InkOfSkip(pieces[0], text, skip);
      assert Texts(pieces)[1..] == Texts(pieces[1..]);
    }
  }

  lemma {:induction false} CoveredKeepsInk(seg: Segment, part: seq<Segment>)
    requires Covers(seg, part)
    ensures Visible(part) == Visible([seg])
  {
    if seg.Text? {
      var pieces: seq<string> :| IsCutInto(seg.text, pieces) && part == Texts(pieces);
      InkOfPieces(pieces, seg.text);
    }
  }

  lemma {:induction false} FaithfulKeepsInk(input: seq<Segment>, output: seq<Segment>)
    requires Faithful(input, output)
    ensures Visible(output) == Visible(input)
    decreases |input|
  {
    if input == [] {
      assert output == input;
    } else {
      hide Covers, Ink, Visible;
      var n: nat :| StartsFaithfully(input, output, n);
      CoveredKeepsInk(input[0], output[..n]);
      FaithfulKeepsInk(input[1..], output[n..]);
      VisibleConcat(output[..n], output[n..]);
      VisibleConcat([input[0]], input[1..]);
      assert output == output[..n] + output[n..] && input == [input[0]] + input[1..];
    }
  }

  /** Apart from newlines, the chunks spell the message rune by rune and segment by segment. */
  lemma {:induction false} ChunksKeepEveryVisibleRune(segs: seq<Segment>)
    requires PackMessage(segs).Some?
    ensures Visible(Flatten(PackMessage(segs).value)) == Visible(segs)
  {
    ChunksAreFaithful(segs);
    FaithfulKeepsInk(segs, Flatten(PackMessage(segs).value));
  }

  // ---- Queued chunks are rebuilt as they were ----

  lemma {:induction false} FlattenBuilt(chunks: seq<seq<Segment>>, i: nat)
    requires AllBuilt(Flatten(chunks)) && i < |chunks|
    ensures AllBuilt(chunks[i])
  {
    var init, last := chunks[..|chunks| - 1], chunks[|chunks| - 1];
    var flat := Flatten(chunks);
    if i == |chunks| - 1 {
      forall k | 0 <= k < |last| ensures Built(last[k]) { assert flat[|Flatten(init)| + k] == last[k]; }
    } else {
      forall k | 0 <= k < |Flatten(init)| ensures Built(Flatten(init)[k]) { assert flat[k] == Flatten(init)[k]; }
      FlattenBuilt(init, i);
    }
  }

  lemma {:induction false} FaithfulBuilt(input: seq<Segment>, output: seq<Segment>)
    requires AllBuilt(input) && Faithful(input, output)
    ensures AllBuilt(output)
    decreases |input|
  {
    if input != [] {
      hide Built;
      var n: nat :| StartsFaithfully(input, output, n);
      FaithfulBuilt(input[1..], output[n..]);
      forall k | 0 <= k < |output| ensures Built(output[k]) {
        if k >= n {
          assert output[k] == output[n..][k - n];
        } else {
          assert output[k] == output[..n][k];
          if input[0].Text? { TextIsBuilt(output[k].text); } else { assert output[k] == input[0]; }
        }
      }
    }
  }

  lemma TextIsBuilt(text: string)
    ensures Built(Text(text))
  {
    assert SegmentOf(TextElement(text)) == Some(Text(text));
  }

  /** From the sender's elements to the wire: each chunk is rebuilt from its elements before it is
      sent or queued, and goes out exactly as packed iff it carries no face with a non-zero id. */
  lemma {:induction false} ChunksGoOutAsPacked(elements: seq<Element>, i: nat)
    requires PackMessage(SegmentsOf(elements)).Some?
    requires i < |PackMessage(SegmentsOf(elements)).value|
    ensures var chunk := PackMessage(SegmentsOf(elements)).value[i];
            && SegmentsOf(ElementsOf(chunk)) == RewiredAll(chunk)
            && (SegmentsOf(ElementsOf(chunk)) == chunk <==> forall k | 0 <= k < |chunk| :: !LostFace(chunk[k]))
  {
    var segs := SegmentsOf(elements);
    var chunks := PackMessage(segs).value;
    SegmentsAreBuilt(elements);
    ChunksAreFaithful(segs);
    FaithfulBuilt(segs, Flatten(chunks));
    FlattenBuilt(chunks, i);
    RewireRoundTrip(chunks[i]);
    WireFidelity(chunks[i]);
  }
}
