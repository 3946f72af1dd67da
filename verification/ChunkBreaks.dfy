/** Where the packer starts a new chunk, told from the chunks alone (adapter/messenger.go). */
module ChunkBreaks {
  import opened Common
  import opened Segments
  import opened TextSplit
  import opened Chunker

  predicate IsMark(seg: Segment) {
    seg.At? || seg.Reply? || seg.Face?
  }

  /** One of the message's texts from some place on. */
  ghost predicate RestOfText(segs: seq<Segment>, text: string) {
    exists i: nat, n: nat :: RestAt(segs, i, n, text)
  }

  predicate RestAt(segs: seq<Segment>, i: nat, n: nat, text: string) {
    i < |segs| && segs[i].Text? && n <= |segs[i].text| && segs[i].text[n..] == text
  }

  /** What a chunk leaves for text. */
  function Room(chunk: seq<Segment>): int {
    MAX_TEXT_LENGTH - TotalLength(chunk)
  }

  /** The text does not fit behind the chunk, and the splitter finds no part of it that does. */
  ghost predicate NoRoomFor(segs: seq<Segment>, chunk: seq<Segment>, text: string) {
    && RestOfText(segs, text) && text != "" && |text| > Room(chunk)
    && SplitOf(text, Room(chunk)).text == ""
  }

  /** The chunk ends with the part that the splitter finds for the room left before it, and the text did not fit. */
  ghost predicate CutIn(segs: seq<Segment>, chunk: seq<Segment>, text: string, rest: string) {
    && chunk != [] && RestOfText(segs, text)
    && var room := Room(chunk[..|chunk| - 1]);
    && |text| > room && SplitOf(text, room).text != ""
    && chunk[|chunk| - 1] == Text(SplitOf(text, room).text)
    && rest == Remainder(text, SplitOf(text, room))
  }

  /** The next chunk starts with a part of this text. */
  predicate StartsWith(next: Segment, text: string) {
    next.Text? && next.text != "" && next.text <= text
  }

  /** Why a chunk ends where the next one starts. */
  ghost predicate BreakOk(segs: seq<Segment>, chunk: seq<Segment>, next: Segment)
    requires chunk != []
  {
    || IsSingle(chunk[|chunk| - 1]) || IsSingle(next)
    || (next.Image? && CountImages(chunk) >= MAX_IMAGE_COUNT)
    || (IsMark(next) && TotalLength(chunk) + ESTIMATED_AT_LENGTH > MAX_TEXT_LENGTH)
    || (exists text :: NoRoomFor(segs, chunk, text) && StartsWith(next, text))
    || (exists text, rest :: CutIn(segs, chunk, text, rest) && (rest == "" || StartsWith(next, rest)))
  }

  /** Inside a chunk a text is whole: it runs to the end of one of the message's texts. */
  ghost predicate WholeInside(segs: seq<Segment>, chunk: seq<Segment>, n: nat) {
    forall i | 0 <= i < n <= |chunk| && chunk[i].Text? :: RestOfText(segs, chunk[i].text)
  }

  ghost predicate ChunkOk(segs: seq<Segment>, chunk: seq<Segment>) {
    chunk != [] && WholeInside(segs, chunk, |chunk| - 1)
  }

  /** What has been flushed last allows the rest of the text, and afterwards anything, to start the next chunk. */
  ghost predicate Pending(segs: seq<Segment>, chunk: seq<Segment>, rest: string)
    requires chunk != []
  {
    || IsSingle(chunk[|chunk| - 1])
    || NoRoomFor(segs, chunk, rest)
    || (exists text, left :: CutIn(segs, chunk, text, left) && (left == "" || left == rest))
  }

  ghost predicate BreaksOk(segs: seq<Segment>, p: Pack, rest: string) {
    && (forall k | 0 <= k < |p.chunks| :: ChunkOk(segs, p.chunks[k]))
    && (forall k | 0 < k < |p.chunks| :: BreakOk(segs, p.chunks[k - 1], p.chunks[k][0]))
    && WholeInside(segs, p.current, |p.current|)
    && (p.chunks != [] ==>
          var last := p.chunks[|p.chunks| - 1];
          if p.current == [] then Pending(segs, last, rest) else BreakOk(segs, last, p.current[0]))
  }

  // ---- One segment joins the current chunk ----

  lemma PendingAllows(segs: seq<Segment>, chunk: seq<Segment>, rest: string, next: Segment)
    requires chunk != [] && Pending(segs, chunk, rest) && (rest == "" || StartsWith(next, rest))
    ensures BreakOk(segs, chunk, next)
  {
    hide SplitOf, Remainder, TotalLength, CountImages, RestOfText;
  }

  lemma Joins(segs: seq<Segment>, p: Pack, rest: string, seg: Segment, q: Pack)
    requires BreaksOk(segs, p, rest) && (rest == "" || StartsWith(seg, rest))
    requires seg.Text? ==> RestOfText(segs, seg.text)
    requires q.chunks == p.chunks && q.current == p.current + [seg]
    ensures BreaksOk(segs, q, "")
  {
    hide BreakOk, Pending, RestOfText;
    if p.chunks != [] && p.current == [] {
      PendingAllows(segs, p.chunks[|p.chunks| - 1], rest, seg);
    }
  }

  /** The current chunk is flushed for a reason that the next segment bears out. */
  lemma Flushes(segs: seq<Segment>, p: Pack, rest: string, q: Pack)
    requires BreaksOk(segs, p, rest) && p.current != []
    requires q.chunks == p.chunks + [p.current] && q.current == []
    ensures forall k | 0 <= k < |q.chunks| :: ChunkOk(segs, q.chunks[k])
    ensures forall k | 0 < k < |q.chunks| :: BreakOk(segs, q.chunks[k - 1], q.chunks[k][0])
  {
    hide BreakOk, Pending, RestOfText;
  }

  lemma NothingFlushed(segs: seq<Segment>, p: Pack, rest: string, later: string)
    requires BreaksOk(segs, p, rest) && (rest == "" || p.current != [])
    ensures BreaksOk(segs, p, later)
  {
    hide BreakOk, NoRoomFor, CutIn, RestOfText;
    if p.chunks != [] && p.current == [] {
      EmptyPending(segs, p.chunks[|p.chunks| - 1], later);
    }
  }

  lemma EmptyPending(segs: seq<Segment>, chunk: seq<Segment>, later: string)
    requires chunk != [] && Pending(segs, chunk, "")
    ensures Pending(segs, chunk, later)
  {
    hide SplitOf, Remainder, TotalLength, RestOfText;
  }

  // ---- A text ----

  lemma RestShrinks(segs: seq<Segment>, text: string, rest: string)
    requires RestOfText(segs, text) && |rest| <= |text| && rest == text[|text| - |rest|..]
    ensures RestOfText(segs, rest)
  {
    var i: nat, n: nat :| RestAt(segs, i, n, text);
    assert RestAt(segs, i, n + |text| - |rest|, rest);
  }

  /** A text that has no room behind the current chunk starts the next one. */
  lemma FlushForText(segs: seq<Segment>, p: Pack, text: string)
    requires Within(p) && BreaksOk(segs, p, text) && p.current != [] && NoRoomFor(segs, p.current, text)
    ensures BreaksOk(segs, Flushed(p), text)
  {
    hide BreakOk, NoRoomFor, CutIn, RestOfText, ChunkOk, Within;
    Flushes(segs, p, text, Flushed(p));
  }

  lemma CutText(segs: seq<Segment>, p: Pack, text: string, part: Split)
    requires Within(p) && BreaksOk(segs, p, text) && RestOfText(segs, text)
    requires |text| > Room(p.current) && part == SplitOf(text, Room(p.current)) && part.text != ""
    ensures BreaksOk(segs, Flushed(WithText(p, part.text)), Remainder(text, part))
  {
    hide BreakOk, SplitOf, Remainder, RestOfText, NoRoomFor, Within, TotalLength;
    var q := WithText(p, part.text);
    var chunk := q.current;
    assert chunk[..|chunk| - 1] == p.current;
    assert CutIn(segs, chunk, text, Remainder(text, part));
    assert part.text <= text;
    if p.chunks != [] && p.current == [] {
      PendingAllows(segs, p.chunks[|p.chunks| - 1], text, Text(part.text));
    }
    var flushed := Flushed(q);
    assert flushed.chunks == p.chunks + [chunk];
    assert ChunkOk(segs, chunk);
  }

  lemma TextStepBreaks(segs: seq<Segment>, st: TextLoop)
    requires Within(st.pack) && st.text != "" && TextStep(st) != st
    requires BreaksOk(segs, st.pack, st.text) && RestOfText(segs, st.text)
    ensures BreaksOk(segs, TextStep(st).pack, TextStep(st).text)
    ensures TextStep(st).text != "" ==> RestOfText(segs, TextStep(st).text)
  {
    hide BreaksOk, Remainder, RestOfText;
    var text, p := st.text, st.pack;
    var available := MAX_TEXT_LENGTH - p.textLen;
    assert Room(p.current) == available;
    if available <= 0 {
      assert NoRoomFor(segs, p.current, text);
      FlushForText(segs, p, text);
    } else if |text| <= available {
      Joins(segs, p, text, Text(text), WithText(p, text));
    } else {
      var part := SplitOf(text, available);
      if part.text == "" {
        assert NoRoomFor(segs, p.current, text);
        FlushForText(segs, p, text);
      } else {
        CutText(segs, p, text, part);
        RestShrinks(segs, text, Remainder(text, part));
      }
    }
  }

  lemma {:induction false} PackTextBreaks(segs: seq<Segment>, st: TextLoop)
    requires Within(st.pack) && PackText(st).Some? && BreaksOk(segs, st.pack, st.text)
    requires st.text != "" ==> RestOfText(segs, st.text)
    ensures BreaksOk(segs, PackText(st).value, "")
    decreases |st.text|, |st.pack.current|
  {
    hide BreaksOk, RestOfText, Within, TextStep;
    if st.text != "" {
      TextStepMakesProgress(st);
      TextStepBreaks(segs, st);
      TextStepStaysWithin(st);
      PackTextBreaks(segs, TextStep(st));
    }
  }

  // ---- Any segment ----

  /** The current chunk is flushed, and this segment opens the next. */
  lemma FlushThenJoin(segs: seq<Segment>, p: Pack, seg: Segment, q: Pack)
    requires BreaksOk(segs, p, "") && p.current != [] && BreakOk(segs, p.current, seg) && !seg.Text?
    requires q.chunks == p.chunks + [p.current] && q.current == [seg]
    ensures BreaksOk(segs, q, "")
  {
    hide BreakOk, Pending, RestOfText;
    Flushes(segs, p, "", q.(current := []));
  }

  lemma SingleBreaks(segs: seq<Segment>, p: Pack, seg: Segment)
    requires BreaksOk(segs, p, "") && IsSingle(seg)
    ensures BreaksOk(segs, PackSegment(seg, p).value, "")
  {
    hide Pending, RestOfText, NoRoomFor, CutIn;
    var q, r := Flushed(p), PackSegment(seg, p).value;
    if p.current != [] { Flushes(segs, p, "", q); }
    assert r.chunks == q.chunks + [[seg]] && r.current == [];
    assert Pending(segs, [seg], "") by { SingleIsPending(segs, seg); }
    forall k | 0 < k < |r.chunks| ensures BreakOk(segs, r.chunks[k - 1], r.chunks[k][0]) {
      if k < |q.chunks| { assert r.chunks[k - 1] == q.chunks[k - 1] && r.chunks[k] == q.chunks[k]; }
    }
  }

  lemma SingleIsPending(segs: seq<Segment>, seg: Segment)
    requires IsSingle(seg)
    ensures Pending(segs, [seg], "")
  {
  }

  lemma PackSegmentBreaks(segs: seq<Segment>, i: nat, p: Pack)
    requires i < |segs| && Within(p) && PackSegment(segs[i], p).Some? && BreaksOk(segs, p, "")
    ensures BreaksOk(segs, PackSegment(segs[i], p).value, "")
  {
    hide BreaksOk, PackText, CalculateTextLength;
    var seg := segs[i];
    var q := PackSegment(seg, p).value;
    if IsSingle(seg) {
      SingleBreaks(segs, p, seg);
    } else if seg.Text? {
      assert RestAt(segs, i, 0, seg.text);
      NothingFlushed(segs, p, "", seg.text);
      PackTextBreaks(segs, TextLoop(seg.text, p));
    } else if seg.Image? || IsMark(seg) {
      if q.chunks == p.chunks {
        Joins(segs, p, "", seg, q);
      } else {
        FlushThenJoin(segs, p, seg, q);
      }
    }
  }

  lemma {:induction false} PackAllBreaks(segs: seq<Segment>, n: nat)
    requires n <= |segs| && PackAll(segs[..n], EMPTY_PACK).Some?
    ensures BreaksOk(segs, PackAll(segs[..n], EMPTY_PACK).value, "")
    ensures Within(PackAll(segs[..n], EMPTY_PACK).value)
  {
    hide PackAll, PackSegment, Within, BreaksOk;
    if n == 0 {
      NothingPacked(segs);
    } else {
      PackAllSplits(segs[..n], EMPTY_PACK);
      assert segs[..n][..n - 1] == segs[..n - 1];
      PackAllBreaks(segs, n - 1);
      PackSegmentBreaks(segs, n - 1, PackAll(segs[..n - 1], EMPTY_PACK).value);
      StartIsWithin();
      PackAllStaysWithin(segs[..n], EMPTY_PACK);
    }
  }

  lemma StartIsWithin()
    ensures Within(EMPTY_PACK)
  {
  }

  lemma NothingPacked(segs: seq<Segment>)
    ensures PackAll(segs[..0], EMPTY_PACK) == Some(EMPTY_PACK)
    ensures BreaksOk(segs, EMPTY_PACK, "")
    ensures Within(EMPTY_PACK)
  {
  }

  lemma {:induction false} PackAllSplits(segs: seq<Segment>, p: Pack)
    requires segs != [] && PackAll(segs, p).Some?
    ensures
      var n := |segs| - 1;
      && PackAll(segs[..n], p).Some?
      && PackAll(segs, p) == PackSegment(segs[n], PackAll(segs[..n], p).value)
  {
    hide PackSegment;
    if |segs| > 1 {
      PackAllSplits(segs[1..], PackSegment(segs[0], p).value);
      assert segs[..|segs| - 1][1..] == segs[1..][..|segs| - 2];
    }
  }

  /** Every chunk ends where it has to: at a stand-alone segment, at an image or mark that is one too many, before a
      text for which the splitter finds no part that fits, or inside a text, at the splitter's cut for the room left. */
  lemma {:induction false} ChunksBreakWhereTheyMust(segs: seq<Segment>)
    requires PackMessage(segs).Some?
    ensures forall chunk | chunk in PackMessage(segs).value :: ChunkOk(segs, chunk)
    ensures forall k | 0 < k < |PackMessage(segs).value| ::
      var chunks := PackMessage(segs).value;
      chunks[k - 1] != [] && chunks[k] != [] && BreakOk(segs, chunks[k - 1], chunks[k][0])
  {
    hide PackAll, Within, BreakOk, Pending, RestOfText;
    assert segs[..|segs|] == segs;
    PackAllBreaks(segs, |segs|);
    var p := PackAll(segs, EMPTY_PACK).value;
    if p.current != [] { Flushes(segs, p, "", Flushed(p)); }
  }
}
