/** When the packer cuts (adapter/messenger.go): what it keeps together, and what it does not. */
module ChunkGroups {
  import opened Common
  import opened Segments
  import TextSplit
  import opened Chunker

  /** What a combinable segment leaves in a chunk that has room for it. */
  function Kept(seg: Segment): seq<Segment> {
    if seg.Json? || seg == Text("") then [] else [seg]
  }

  /** The chunks without any limit: everything combinable between two stand-alone segments is one chunk. */
  function Grouped(segs: seq<Segment>, current: seq<Segment>): seq<seq<Segment>> {
    var before := if current == [] then [] else [current];
    if segs == [] then before
    else if IsSingle(segs[0]) then before + [[segs[0]]] + Grouped(segs[1..], [])
    else Grouped(segs[1..], current + Kept(segs[0]))
  }

  predicate Fits(chunk: seq<Segment>) {
    TotalLength(chunk) <= MAX_TEXT_LENGTH && CountImages(chunk) <= MAX_IMAGE_COUNT
  }

  ghost predicate AllFit(chunks: seq<seq<Segment>>) {
    forall chunk | chunk in chunks :: Fits(chunk)
  }

  function Loaded(chunks: seq<seq<Segment>>, current: seq<Segment>): Pack {
    Pack(chunks, current, TotalLength(current), CountImages(current))
  }

  lemma KeptMeasures(current: seq<Segment>, seg: Segment)
    requires !IsSingle(seg)
    ensures TotalLength(current + Kept(seg)) == TotalLength(current) + PackedLength(seg)
    ensures CountImages(current + Kept(seg)) == CountImages(current) + if seg.Image? then 1 else 0
  {
    if Kept(seg) == [] {
      assert current + [] == current;
    } else {
      assert (current + [seg])[..|current|] == current;
    }
  }

  lemma {:induction false} FittingSegmentJoins(seg: Segment, chunks: seq<seq<Segment>>, current: seq<Segment>)
    requires !IsSingle(seg) && Fits(current + Kept(seg))
    ensures PackSegment(seg, Loaded(chunks, current)) == Some(Loaded(chunks, current + Kept(seg)))
  {
    hide TextSplit.SplitOf, TotalLength, CountImages;
    KeptMeasures(current, seg);
    var p := Loaded(chunks, current);
    if seg.Text? && seg.text != "" {
      var next := TextLoop("", WithText(p, seg.text));
      assert TextStep(TextLoop(seg.text, p)) == next;
      assert PackText(next) == Some(next.pack);
    }
    assert current + [] == current;
  }

  /** What is current stays together. */
  lemma {:induction false} CurrentFits(segs: seq<Segment>, current: seq<Segment>)
    requires AllFit(Grouped(segs, current))
    ensures Fits(current)
  {
    if segs != [] && !IsSingle(segs[0]) {
      CurrentFits(segs[1..], current + Kept(segs[0]));
      KeptMeasures(current, segs[0]);
    } else if current != [] {
      assert Grouped(segs, current)[0] == current;
    }
  }

  lemma {:induction false} FittingGroupsStay(segs: seq<Segment>, chunks: seq<seq<Segment>>, current: seq<Segment>)
    requires AllFit(Grouped(segs, current))
    ensures PackAll(segs, Loaded(chunks, current)).Some?
    ensures Flushed(PackAll(segs, Loaded(chunks, current)).value).chunks == chunks + Grouped(segs, current)
    decreases |segs|
  {
    hide PackText, Fits;
    var before := if current == [] then [] else [current];
    var p := Loaded(chunks, current);
    if segs == [] {
      assert chunks + [] == chunks;
    } else if IsSingle(segs[0]) {
      var rest := Grouped(segs[1..], []);
      assert Grouped(segs, current) == before + [[segs[0]]] + rest;
      assert AllFit(rest);
      FittingGroupsStay(segs[1..], chunks + before + [[segs[0]]], []);
      assert chunks + [] == chunks;
      assert PackSegment(segs[0], p) == Some(Loaded(chunks + before + [[segs[0]]], []));
      assert chunks + before + [[segs[0]]] + rest == chunks + (before + [[segs[0]]] + rest);
    } else {
      CurrentFits(segs[1..], current + Kept(segs[0]));
      FittingSegmentJoins(segs[0], chunks, current);
      FittingGroupsStay(segs[1..], chunks, current + Kept(segs[0]));
    }
  }

  /** The packer cuts nothing but at stand-alone segments exactly if every group fits both budgets. */
  lemma {:induction false} UncutIffGroupsFit(segs: seq<Segment>)
    ensures PackMessage(segs) == Some(Grouped(segs, [])) <==> AllFit(Grouped(segs, []))
  {
    hide PackAll, Grouped, Flushed;
    if AllFit(Grouped(segs, [])) {
      assert Loaded([], []) == EMPTY_PACK;
      FittingGroupsStay(segs, [], []);
      assert [] + Grouped(segs, []) == Grouped(segs, []);
    }
    if PackMessage(segs) == Some(Grouped(segs, [])) {
      ChunksRespectLimits(segs);
    }
  }

  // ---- A message without stand-alone segments ----

  function KeptAll(segs: seq<Segment>): seq<Segment> {
    if segs == [] then [] else Kept(segs[0]) + KeptAll(segs[1..])
  }

  lemma {:induction false} MeasuresAdd(a: seq<Segment>, b: seq<Segment>)
    ensures TotalLength(a + b) == TotalLength(a) + TotalLength(b)
    ensures CountImages(a + b) == CountImages(a) + CountImages(b)
  {
    if b == [] {
      assert a + b == a;
    } else {
      var n := |b| - 1;
      assert (a + b)[..|a + b| - 1] == a + b[..n];
      MeasuresAdd(a, b[..n]);
    }
  }

  lemma OneMeasures(seg: Segment)
    requires !IsSingle(seg)
    ensures TotalLength(Kept(seg)) == TotalLength([seg])
    ensures CountImages(Kept(seg)) == CountImages([seg])
  {
    assert [seg][..0] == [];
  }

  lemma {:induction false} KeptAllMeasures(segs: seq<Segment>)
    requires forall i | 0 <= i < |segs| :: !IsSingle(segs[i])
    ensures TotalLength(KeptAll(segs)) == TotalLength(segs)
    ensures CountImages(KeptAll(segs)) == CountImages(segs)
  {
    hide TotalLength, CountImages, Kept, IsSingle;
    if segs != [] {
      KeptAllMeasures(segs[1..]);
      OneMeasures(segs[0]);
      MeasuresAdd(Kept(segs[0]), KeptAll(segs[1..]));
      MeasuresAdd([segs[0]], segs[1..]);
      assert [segs[0]] + segs[1..] == segs;
    }
  }

  lemma {:induction false} OneGroup(segs: seq<Segment>, current: seq<Segment>)
    requires forall i | 0 <= i < |segs| :: !IsSingle(segs[i])
    ensures var all := current + KeptAll(segs);
            Grouped(segs, current) == if all == [] then [] else [all]
  {
    if segs == [] {
      assert current + [] == current;
    } else {
      OneGroup(segs[1..], current + Kept(segs[0]));
      ConcatAssociates(current, Kept(segs[0]), KeptAll(segs[1..]));
    }
  }

  /** A message of combinable segments becomes exactly one chunk holding all of it, or none when nothing is left to
      send, exactly if it fits both budgets by what the packer charges. */
  lemma {:induction false} FittingMessageIsOneChunk(segs: seq<Segment>)
    requires forall i | 0 <= i < |segs| :: !IsSingle(segs[i])
    ensures PackMessage(segs) == Some(if KeptAll(segs) == [] then [] else [KeptAll(segs)])
       <==> TotalLength(segs) <= MAX_TEXT_LENGTH && CountImages(segs) <= MAX_IMAGE_COUNT
  {
    hide PackMessage, TotalLength, CountImages, Grouped;
    OneGroup(segs, []);
    assert [] + KeptAll(segs) == KeptAll(segs);
    KeptAllMeasures(segs);
    UncutIffGroupsFit(segs);
    EmptyFits();
    assert KeptAll(segs) != [] ==> AllFit([KeptAll(segs)]) == Fits(KeptAll(segs)) by {
      assert KeptAll(segs) in [KeptAll(segs)];
    }
  }

  lemma EmptyFits()
    ensures TotalLength([]) == CountImages([]) == 0
  {
  }

  // ---- The packer's charge and the estimate ----

  function CountFaces(segs: seq<Segment>): nat {
    if segs == [] then 0 else CountFaces(segs[..|segs| - 1]) + if segs[|segs| - 1].Face? then 1 else 0
  }

  /** The packer charges five more than the estimate for every face. */
  lemma {:induction false} FaceSurcharge(segs: seq<Segment>)
    ensures TotalLength(segs) == CalculateTextLength(segs) + 5 * CountFaces(segs)
  {
    if segs != [] { FaceSurcharge(segs[..|segs| - 1]); }
  }

  lemma {:induction false} FacesMeasures(faces: seq<Segment>, current: seq<Segment>)
    requires forall i | 0 <= i < |faces| :: faces[i].Face?
    ensures TotalLength(current + faces) == TotalLength(current) + 10 * |faces|
    ensures CalculateTextLength(current + faces) == CalculateTextLength(current) + 5 * |faces|
    ensures CountImages(current + faces) == CountImages(current)
  {
    if faces == [] {
      assert current + [] == current;
    } else {
      var n := |faces| - 1;
      FacesMeasures(faces[..n], current);
      assert (current + faces)[..|current + faces| - 1] == current + faces[..n];
    }
  }

  lemma {:induction false} FacesJoin(faces: seq<Segment>, current: seq<Segment>)
    requires forall i | 0 <= i < |faces| :: faces[i].Face?
    requires TotalLength(current) + 10 * |faces| <= MAX_TEXT_LENGTH && CountImages(current) <= MAX_IMAGE_COUNT
    ensures PackAll(faces, Loaded([], current)) == Some(Loaded([], current + faces))
    decreases |faces|
  {
    hide PackSegment;
    if faces == [] {
      assert current + [] == current;
    } else {
      KeptMeasures(current, faces[0]);
      FittingSegmentJoins(faces[0], [], current);
      FacesJoin(faces[1..], current + [faces[0]]);
      assert current + [faces[0]] + faces[1..] == current + faces;
    }
  }

  lemma {:induction false} PackAllSnoc(segs: seq<Segment>, seg: Segment, p: Pack)
    requires PackAll(segs, p).Some?
    ensures PackAll(segs + [seg], p) == PackSegment(seg, PackAll(segs, p).value)
  {
    hide PackSegment;
    if segs == [] {
      assert [seg][1..] == [];
    } else {
      assert (segs + [seg])[1..] == segs[1..] + [seg];
      PackAllSnoc(segs[1..], seg, PackSegment(segs[0], p).value);
    }
  }

  /** A text of 4400 runes and eleven faces is within both budgets by the estimate, yet it goes out as two chunks. */
  lemma {:induction false} FacesSplitMessage(text: string, faces: seq<Segment>)
    requires |text| == 4400 && |faces| == 11 && forall i | 0 <= i < |faces| :: faces[i].Face?
    ensures
      var segs := [Text(text)] + faces;
      && CalculateTextLength(segs) == 4455 && CountImages(segs) == 0
      && PackMessage(segs) == Some([[Text(text)] + faces[..10], [faces[10]]])
  {
    hide PackAll, PackSegment, TotalLength, CountImages, CalculateTextLength;
    var start, joined, last := [Text(text)], [Text(text)] + faces[..10], faces[10];
    TextAlone(text);
    FacesMeasures(faces, start);
    FacesMeasures(faces[..10], start);
    FacesJoin(faces[..10], start);
    assert joined[1..] == faces[..10];
    PackAllFirst(joined);
    PackAllSnoc(joined, last, EMPTY_PACK);
    assert joined + [last] == start + faces;
    LastOpensChunk(joined, last);
  }

  lemma PackAllFirst(segs: seq<Segment>)
    requires segs != [] && PackSegment(segs[0], EMPTY_PACK) == Some(Loaded([], [segs[0]]))
    ensures PackAll(segs, EMPTY_PACK) == PackAll(segs[1..], Loaded([], [segs[0]]))
  {
    hide PackSegment;
  }

  lemma TextAlone(text: string)
    requires 0 < |text| <= MAX_TEXT_LENGTH
    ensures TotalLength([Text(text)]) == CalculateTextLength([Text(text)]) == |text|
    ensures CountImages([Text(text)]) == 0
    ensures PackSegment(Text(text), EMPTY_PACK) == Some(Loaded([], [Text(text)]))
  {
    assert [Text(text)][..0] == [] && [] + [Text(text)] == [Text(text)] && EMPTY_PACK == Loaded([], []);
    FittingSegmentJoins(Text(text), [], []);
  }

  lemma LastOpensChunk(current: seq<Segment>, face: Segment)
    requires face.Face? && current != [] && TotalLength(current) == MAX_TEXT_LENGTH
    ensures PackSegment(face, Loaded([], current)) == Some(Pack([current], [face], 10, 0))
    ensures Flushed(Pack([current], [face], 10, 0)).chunks == [current, [face]]
  {
    hide TotalLength, CountImages;
    assert [] + [current] == [current] && [] + [face] == [face] && [current] + [[face]] == [current, [face]];
  }
}
