/** buildMessageChunks (adapter/messenger.go): the greedy packer with a text budget and an image
    budget. None stands for a run of the text loop that never ends. */
module Chunker {
  import opened Common
  import opened Segments
  import opened TextSplit

  const MAX_TEXT_LENGTH := 4500
  const MAX_IMAGE_COUNT := 20
  const ESTIMATED_AT_LENGTH := 10
  const ESTIMATED_REPLY_LENGTH := 10
  const ESTIMATED_FACE_LENGTH := 5

  predicate IsSingle(seg: Segment) {
    seg.Video? || seg.File? || seg.Record? || seg.Forward?
  }

  function EstimatedLength(seg: Segment): nat {
    match seg
    case Text(text) => |text|
    case At(_) => ESTIMATED_AT_LENGTH
    case Reply(_) => ESTIMATED_REPLY_LENGTH
    case Face(_) => ESTIMATED_FACE_LENGTH
    case _ => 0
  }

  function CalculateTextLength(segs: seq<Segment>): nat {
    if segs == [] then 0 else CalculateTextLength(segs[..|segs| - 1]) + EstimatedLength(segs[|segs| - 1])
  }

  function CountImages(segs: seq<Segment>): nat {
    if segs == [] then 0
    else CountImages(segs[..|segs| - 1]) + if segs[|segs| - 1].Image? then 1 else 0
  }

  /** What the packer charges, which differs from the estimate for a face. */
  function PackedLength(seg: Segment): nat {
    if seg.Face? then ESTIMATED_AT_LENGTH else EstimatedLength(seg)
  }

  function TotalLength(segs: seq<Segment>): nat {
    if segs == [] then 0 else TotalLength(segs[..|segs| - 1]) + PackedLength(segs[|segs| - 1])
  }

  // ---- The packer's state and its steps ----

  datatype Pack = Pack(chunks: seq<seq<Segment>>, current: seq<Segment>, textLen: nat, images: nat)

  const EMPTY_PACK := Pack([], [], 0, 0)

  function Flushed(p: Pack): Pack {
    if p.current == [] then p else Pack(p.chunks + [p.current], [], 0, 0)
  }

  function WithText(p: Pack, text: string): Pack {
    p.(current := p.current + [Text(text)], textLen := p.textLen + |text|)
  }

  /** The text still to place, and the packer. */
  datatype TextLoop = TextLoop(text: string, pack: Pack)

  /** One pass through the body of the text loop. */
  function TextStep(st: TextLoop): TextLoop {
    var text, p := st.text, st.pack;
    var available := MAX_TEXT_LENGTH - p.textLen;
    if text == "" then st
    else if available <= 0 then TextLoop(text, Flushed(p))
    else if |text| <= available then TextLoop("", WithText(p, text))
    else
      var part := SplitOf(text, available);
      if part.text == "" then TextLoop(text, Flushed(p))
      else TextLoop(Remainder(text, part), Flushed(WithText(p, part.text)))
  }

  function PackText(st: TextLoop): Option<Pack>
    decreases |st.text|, |st.pack.current|
  {
    if st.text == "" then Some(st.pack)
    else if TextStep(st) == st then None
    else PackText(TextStep(st))
  }

  function PackSegment(seg: Segment, p: Pack): Option<Pack> {
    if IsSingle(seg) then
      var q := Flushed(p);
      Some(q.(chunks := q.chunks + [[seg]]))
    else match seg
      case Text(text) => PackText(TextLoop(text, p))
      case Image(_, _) =>
        var q := if p.images >= MAX_IMAGE_COUNT then Flushed(p) else p;
        Some(q.(current := q.current + [seg], images := q.images + 1))
      case At(_) => Some(WithMark(seg, p))
      case Reply(_) => Some(WithMark(seg, p))
      case Face(_) => Some(WithMark(seg, p))
      case _ => Some(p)
  }

  function WithMark(seg: Segment, p: Pack): Pack {
    var q := if p.textLen + ESTIMATED_AT_LENGTH > MAX_TEXT_LENGTH then Flushed(p) else p;
    q.(current := q.current + [seg], textLen := q.textLen + ESTIMATED_AT_LENGTH)
  }

  function PackAll(segs: seq<Segment>, p: Pack): Option<Pack> {
    if segs == [] then Some(p) else
    match PackSegment(segs[0], p)
    case None => None
    case Some(q) => PackAll(segs[1..], q)
  }

  function PackMessage(segs: seq<Segment>): Option<seq<seq<Segment>>> {
    match PackAll(segs, EMPTY_PACK)
    case None => None
    case Some(p) => Some(Flushed(p).chunks)
  }

  // ---- The code's loops, updating the packer in place ----

  class Packer {
    var chunks: seq<seq<Segment>>
    var currentChunk: seq<Segment>
    var currentTextLen: nat
    var currentImageCount: nat

    ghost function State(): Pack
      reads this
    {
      Pack(chunks, currentChunk, currentTextLen, currentImageCount)
    }

    constructor ()
      ensures State() == EMPTY_PACK
    {
      chunks, currentChunk := [], [];
      currentTextLen, currentImageCount := 0, 0;
    }

    method Flush()
      modifies this
      ensures State() == Flushed(old(State()))
    {
      if |currentChunk| > 0 {
        chunks := chunks + [currentChunk];
        currentChunk := [];
        currentTextLen := 0;
        currentImageCount := 0;
      }
    }

    /** The body of the loop over one text: what remains of it afterwards. */
    method PlaceText(text: string) returns (rest: string)
      requires text != ""
      modifies this
      ensures TextLoop(rest, State()) == TextStep(TextLoop(text, old(State())))
    {
      hide SplitOf, TrimLeft;
      var available := MAX_TEXT_LENGTH - currentTextLen;
      if available <= 0 {
        Flush();
        return text;
      }
      if |text| <= available {
        currentChunk := currentChunk + [Text(text)];
        currentTextLen := currentTextLen + |text|;
        return "";
      }
      var split := SplitTextSmartWithLimit(text, available);
      var part := split.text;
      if part == "" {
        Flush();
        return text;
      }
      currentChunk := currentChunk + [Text(part)];
      currentTextLen := currentTextLen + |part|;
      Flush();
      rest := text[|part|..];
      if !split.hard {
        rest := TrimLeft(rest);
      }
    }

    /** The loop over one text. Where the original loop would repeat an unchanged state forever,
        this one stops and answers false. */
    method AddText(whole: string) returns (ends: bool)
      modifies this
      ensures PackText(TextLoop(whole, old(State()))) == if ends then Some(State()) else None
    {
      hide TextStep;
      var text := whole;
      while |text| > 0
        invariant PackText(TextLoop(text, State())) == PackText(TextLoop(whole, old(State())))
        decreases |text|, |currentChunk|
      {
        ghost var before := TextLoop(text, State());
        var chunkWasEmpty := currentChunk == [];
        var rest := PlaceText(text);
        TextStepMakesProgress(before);
        if rest == text && chunkWasEmpty {
          return false;
        }
        text := rest;
      }
      ends := true;
    }

    method AddSegment(seg: Segment) returns (ends: bool)
      modifies this
      ensures PackSegment(seg, old(State())) == if ends then Some(State()) else None
    {
      ends := true;
      if IsSingle(seg) {
        Flush();
        chunks := chunks + [[seg]];
      } else if seg.Text? {
        ends := AddText(seg.text);
      } else if seg.Image? {
        if currentImageCount >= MAX_IMAGE_COUNT {
          Flush();
        }
        currentChunk := currentChunk + [seg];
        currentImageCount := currentImageCount + 1;
      } else if seg.At? || seg.Reply? || seg.Face? {
        if currentTextLen + ESTIMATED_AT_LENGTH > MAX_TEXT_LENGTH {
          Flush();
        }
        currentChunk := currentChunk + [seg];
        currentTextLen := currentTextLen + ESTIMATED_AT_LENGTH;
      }
    }
  }

  method BuildMessageChunks(elements: seq<Element>) returns (ends: bool, chunks: seq<seq<Segment>>)
    ensures PackMessage(SegmentsOf(elements)) == if ends then Some(chunks) else None
  {
    var segments := BuildMessageSegments(elements);
    var packer := new Packer();
    chunks := [];
    for i := 0 to |segments|
      invariant fresh(packer)
      invariant PackAll(segments, EMPTY_PACK) == PackAll(segments[i..], packer.State())
    {
      assert segments[i..][0] == segments[i] && segments[i..][1..] == segments[i + 1..];
      ends := packer.AddSegment(segments[i]);
      if !ends {
        return;
      }
    }
    packer.Flush();
    return true, packer.chunks;
  }

  // ---- When the text loop ends ----

  /** A pass either shortens the text, or flushes a non-empty chunk, or changes nothing; it keeps
      the text and an empty chunk only when it changes nothing. */
  lemma TextStepMakesProgress(st: TextLoop)
    requires st.text != ""
    ensures var next := TextStep(st);
            if next == st then st.pack.current == [] else
            || |next.text| < |st.text|
            || (next.text == st.text && |next.pack.current| < |st.pack.current|)
  {
    hide SplitOf;
  }

  ghost function Iterate(st: TextLoop, n: nat): TextLoop
    decreases n
  {
    if n == 0 then st else Iterate(TextStep(st), n - 1)
  }

  lemma {:induction false} FixpointIterates(st: TextLoop, n: nat)
    requires TextStep(st) == st
    ensures Iterate(st, n) == st
  {
    if n > 0 { FixpointIterates(st, n - 1); }
  }

  lemma {:induction false} EndingRunLength(st: TextLoop) returns (n: nat)
    ensures PackText(st).Some? ==> Iterate(st, n) == TextLoop("", PackText(st).value)
    decreases |st.text|, |st.pack.current|
  {
    if st.text == "" || PackText(st) == None {
      n := 0;
    } else {
      n := EndingRunLength(TextStep(st));
      n := n + 1;
    }
  }

  lemma NoneStep(st: TextLoop)
    ensures PackText(st) == None ==> st.text != "" && PackText(TextStep(st)) == None
  {
  }

  lemma {:induction false} NoneNeverEnds(st: TextLoop, n: nat)
    ensures PackText(st) == None ==> Iterate(st, n).text != ""
    decreases n
  {
    hide TextStep, PackText;
    NoneStep(st);
    if n > 0 { NoneNeverEnds(TextStep(st), n - 1); }
  }

  /** None means exactly that no number of passes places the whole text. */
  lemma {:induction false} NoneIffNeverEnds(st: TextLoop)
    ensures PackText(st) == None <==> forall n: nat :: Iterate(st, n).text != ""
  {
    if PackText(st) == None {
      forall n: nat ensures Iterate(st, n).text != "" { NoneNeverEnds(st, n); }
    } else {
      var n := EndingRunLength(st);
    }
  }

  /** A pass that changes nothing: the chunk is empty and the full window is blocked. */
  ghost predicate Stuck(st: TextLoop) {
    st.pack.current == [] && |st.text| > MAX_TEXT_LENGTH && Blocked(st.text, MAX_TEXT_LENGTH)
  }

  ghost predicate StuckAfter(st: TextLoop, passes: nat) {
    Stuck(Iterate(st, passes))
  }

  lemma {:induction false} FixpointIffStuck(st: TextLoop)
    requires Within(st.pack) && st.text != ""
    ensures TextStep(st) == st <==> Stuck(st)
  {
    if |st.text| > MAX_TEXT_LENGTH { EmptyPartIffBlocked(st.text, MAX_TEXT_LENGTH); }
    if TextStep(st) == st && st.pack.current == [] && |st.text| > MAX_TEXT_LENGTH {
      assert SplitOf(st.text, MAX_TEXT_LENGTH).text == "";
    }
  }

  /** The exact condition: a text loops forever iff some remainder it reaches opens a fresh chunk
      with a blocked window. */
  lemma {:induction false} NeverEndsIffBlocked(st: TextLoop)
    requires Within(st.pack)
    ensures PackText(st) == None <==> exists k: nat :: StuckAfter(st, k)
    decreases |st.text|, |st.pack.current|
  {
    hide TextStep, Blocked;
    if st.text == "" {
      forall k: nat ensures !StuckAfter(st, k) { TextStepAtEnd(st); FixpointIterates(st, k); }
    } else {
      FixpointIffStuck(st);
      var next := TextStep(st);
      if next == st {
        assert StuckAfter(st, 0);
      } else {
        TextStepMakesProgress(st);
        TextStepStaysWithin(st);
        NeverEndsIffBlocked(next);
        assert PackText(st) == PackText(next);
        if k: nat :| StuckAfter(next, k) {
          assert StuckAfter(st, k + 1);
        }
        if k: nat :| StuckAfter(st, k) {
          assert k > 0;
          assert StuckAfter(next, k - 1);
        }
      }
    }
  }

  /** The pass from st cuts the text hard. */
  ghost predicate HardCut(st: TextLoop) {
    var available := MAX_TEXT_LENGTH - st.pack.textLen;
    available > 0 && |st.text| > available && SplitOf(st.text, available).hard
  }

  /** The text after the given passes is still the whole text, or what a hard cut left. */
  ghost predicate StartOrHardCut(st: TextLoop, passes: nat) {
    || Iterate(st, passes).text == st.text
    || exists j: nat :: j < passes && CutBehind(st, j, passes)
  }

  ghost predicate CutBehind(st: TextLoop, j: nat, passes: nat) {
    HardCut(Iterate(st, j)) && Iterate(st, j + 1).text == Iterate(st, passes).text
  }

  /** So only the start of the text, or the place behind a hard cut, can block. */
  lemma {:induction false} StuckAtStartOrHardCut(st: TextLoop, k: nat)
    requires StuckAfter(st, k)
    ensures StartOrHardCut(st, k)
    decreases k
  {
    hide TextStep, HardCut, Blocked, Stuck;
    if k > 0 {
      var next := TextStep(st);
      StuckAtStartOrHardCut(next, k - 1);
      if Iterate(next, k - 1).text == next.text {
        if HardCut(st) {
          assert Iterate(st, 1) == next;
          assert CutBehind(st, 0, k);
        } else {
          SoftCutOrSame(st, Iterate(next, k - 1));
        }
      } else {
        var j: nat :| j < k - 1 && CutBehind(next, j, k - 1);
        assert CutBehind(st, j + 1, k);
      }
    }
  }

  /** What a soft cut leaves never blocks: it opens with something other than a newline. */
  lemma SoftCutOrSame(st: TextLoop, stuck: TextLoop)
    requires !HardCut(st) && Stuck(stuck) && stuck.text == TextStep(st).text
    ensures TextStep(st).text == st.text
  {
    BlockedOpensWithTwoNewlines(stuck.text, MAX_TEXT_LENGTH);
  }

  lemma TextStepAtEnd(st: TextLoop)
    requires st.text == ""
    ensures TextStep(st) == st
  {
  }

  predicate NoDoubleNewline(text: string) {
    forall i | 0 <= i < |text| - 1 :: !(text[i] == '\n' && text[i + 1] == '\n')
  }

  lemma {:induction false} SingleNewlinesAlwaysPack(st: TextLoop)
    requires Within(st.pack) && NoDoubleNewline(st.text)
    ensures PackText(st).Some?
    decreases |st.text|, |st.pack.current|
  {
    if st.text != "" {
      FixpointIffStuck(st);
      if Stuck(st) {
        BlockedOpensWithTwoNewlines(st.text, MAX_TEXT_LENGTH);
        assert false;
      }
      TextStepStaysWithin(st);
      SingleNewlinesAlwaysPack(TextStep(st));
    }
  }

  /** Two leading newlines and a long line without punctuation make the packer loop forever. */
  lemma {:induction false} LeadingNewlinesNeverEnd(tail: string)
    requires |tail| >= MAX_TEXT_LENGTH - 1
    requires forall i | 0 <= i < |tail| :: tail[i] == 'a'
    ensures PackMessage([Text("\n\n" + tail)]) == None
  {
    var text := "\n\n" + tail;
    forall p | 1 <= p <= MAX_TEXT_LENGTH ensures !PunctuationEndsAt(text, p) {
      if PunctuationEndsAt(text, p) {
        MarkLastRune(text, p);
        assert false;
      }
    }
    assert BlockedBy(text, MAX_TEXT_LENGTH, 1);
    var st := TextLoop(text, EMPTY_PACK);
    FixpointIffStuck(st);
    assert PackSegment(Text(text), EMPTY_PACK) == None;
  }

  /** The segments before i pack into q, and the text at i then loops forever. */
  ghost predicate LoopsAt(segs: seq<Segment>, p: Pack, i: nat, q: Pack) {
    i < |segs| && PackAll(segs[..i], p) == Some(q) && segs[i].Text? && PackText(TextLoop(segs[i].text, q)) == None
  }

  lemma {:induction false} LoopsAtTail(segs: seq<Segment>, p: Pack, i: nat, q: Pack)
    requires segs != [] && i > 0 && PackSegment(segs[0], p).Some?
    ensures LoopsAt(segs, p, i, q) <==> LoopsAt(segs[1..], PackSegment(segs[0], p).value, i - 1, q)
  {
    if i < |segs| {
      assert segs[..i][0] == segs[0] && segs[..i][1..] == segs[1..][..i - 1];
      assert segs[1..][i - 1] == segs[i];
    }
  }

  /** A message fails to pack iff one of its texts loops forever from where the segments before
      it left the packer. */
  lemma {:induction false} MessageNeverEndsIff(segs: seq<Segment>, p: Pack)
    ensures PackAll(segs, p) == None <==> exists i: nat, q :: LoopsAt(segs, p, i, q)
  {
    if segs != [] {
      var step := PackSegment(segs[0], p);
      if step == None {
        assert segs[..0] == [];
        assert LoopsAt(segs, p, 0, p);
      } else {
        MessageNeverEndsIff(segs[1..], step.value);
        if i: nat, q :| LoopsAt(segs[1..], step.value, i, q) {
          LoopsAtTail(segs, p, i + 1, q);
        }
        if i: nat, q :| LoopsAt(segs, p, i, q) {
          assert segs[..0] == [];
          LoopsAtTail(segs, p, i, q);
        }
      }
    }
  }

  /** The segments before i pack into q; the text at i, after some passes from there, opens an empty chunk with a
      blocked window, at its own start or behind a hard cut. */
  ghost predicate BlocksAt(segs: seq<Segment>, p: Pack, i: nat, q: Pack, passes: nat) {
    && i < |segs| && PackAll(segs[..i], p) == Some(q) && segs[i].Text?
    && StuckAfter(TextLoop(segs[i].text, q), passes) && StartOrHardCut(TextLoop(segs[i].text, q), passes)
  }

  /** A message is not packed iff one of its texts blocks so. */
  lemma {:induction false} MessageNeverEndsIffBlocked(segs: seq<Segment>, p: Pack)
    requires Within(p)
    ensures PackAll(segs, p) == None <==> exists i: nat, q, passes: nat :: BlocksAt(segs, p, i, q, passes)
  {
    hide PackAll, PackText, StuckAfter, StartOrHardCut, Within;
    MessageNeverEndsIff(segs, p);
    if PackAll(segs, p) == None {
      var i: nat, q :| LoopsAt(segs, p, i, q);
      PackAllStaysWithin(segs[..i], p);
      var st := TextLoop(segs[i].text, q);
      NeverEndsIffBlocked(st);
      var passes: nat :| StuckAfter(st, passes);
      StuckAtStartOrHardCut(st, passes);
      assert BlocksAt(segs, p, i, q, passes);
    }
    if i: nat, q, passes: nat :| BlocksAt(segs, p, i, q, passes) {
      PackAllStaysWithin(segs[..i], p);
      NeverEndsIffBlocked(TextLoop(segs[i].text, q));
      assert LoopsAt(segs, p, i, q);
    }
  }

  // ---- Limits ----

  ghost predicate ChunkWithin(chunk: seq<Segment>) {
    && chunk != []
    && CountImages(chunk) <= MAX_IMAGE_COUNT
    && CalculateTextLength(chunk) <= MAX_TEXT_LENGTH
    && (forall i | 0 <= i < |chunk| :: IsSingle(chunk[i]) ==> |chunk| == 1)
  }

  ghost predicate Within(p: Pack) {
    && (forall i | 0 <= i < |p.chunks| :: ChunkWithin(p.chunks[i]) && TotalLength(p.chunks[i]) <= MAX_TEXT_LENGTH)
    && (p.current == [] ==> p.textLen == 0 && p.images == 0)
    && CalculateTextLength(p.current) <= TotalLength(p.current) == p.textLen <= MAX_TEXT_LENGTH
    && CountImages(p.current) == p.images <= MAX_IMAGE_COUNT
    && (forall i | 0 <= i < |p.current| :: !IsSingle(p.current[i]))
  }

  lemma FlushStaysWithin(p: Pack)
    requires Within(p)
    ensures Within(Flushed(p)) && Flushed(p).current == []
  {
  }

  lemma {:induction false} AppendStaysWithin(p: Pack, q: Pack, seg: Segment)
    requires Within(p) && !IsSingle(seg)
    requires q == Pack(p.chunks, p.current + [seg], q.textLen, p.images + if seg.Image? then 1 else 0)
    requires p.textLen + PackedLength(seg) == q.textLen <= MAX_TEXT_LENGTH && q.images <= MAX_IMAGE_COUNT
    ensures Within(q)
  {
    assert q.current[..|q.current| - 1] == p.current;
  }

  lemma {:induction false} TextStepStaysWithin(st: TextLoop)
    requires Within(st.pack)
    ensures Within(TextStep(st).pack)
  {
    var text, p := st.text, st.pack;
    var available := MAX_TEXT_LENGTH - p.textLen;
    FlushStaysWithin(p);
    if text == "" || available <= 0 {
    } else if |text| <= available {
      AppendStaysWithin(p, WithText(p, text), Text(text));
    } else {
      var part := SplitOf(text, available);
      AppendStaysWithin(p, WithText(p, part.text), Text(part.text));
      FlushStaysWithin(WithText(p, part.text));
    }
  }

  lemma {:induction false} PackTextStaysWithin(st: TextLoop)
    requires Within(st.pack) && PackText(st).Some?
    ensures Within(PackText(st).value)
    decreases |st.text|, |st.pack.current|
  {
    if st.text != "" {
      TextStepStaysWithin(st);
      PackTextStaysWithin(TextStep(st));
    }
  }

  lemma {:induction false} PackAllStaysWithin(segs: seq<Segment>, p: Pack)
    requires Within(p)
    ensures forall packed | PackAll(segs, p) == Some(packed) :: Within(packed)
  {
    if segs != [] && PackAll(segs, p).Some? {
      var seg := segs[0];
      var q := PackSegment(seg, p).value;
      FlushStaysWithin(p);
      var base := if seg.Image? then (if p.images >= MAX_IMAGE_COUNT then Flushed(p) else p)
                  else if p.textLen + ESTIMATED_AT_LENGTH > MAX_TEXT_LENGTH then Flushed(p) else p;
      if seg.Text? {
        PackTextStaysWithin(TextLoop(seg.text, p));
      } else if !IsSingle(seg) && !seg.Json? {
        AppendStaysWithin(base, q, seg);
      } else if IsSingle(seg) {
        assert [seg][..0] == [];
        assert CountImages([seg]) == CalculateTextLength([seg]) == TotalLength([seg]) == 0;
      }
      PackAllStaysWithin(segs[1..], q);
    }
  }

  /** Every chunk is non-empty, within both budgets by the estimate and by what the packer charges, and a stand-alone
      segment is alone. */
  lemma {:induction false} ChunksRespectLimits(segs: seq<Segment>)
    requires PackMessage(segs).Some?
    ensures forall chunk | chunk in PackMessage(segs).value ::
      ChunkWithin(chunk) && TotalLength(chunk) <= MAX_TEXT_LENGTH
  {
    PackAllStaysWithin(segs, EMPTY_PACK);
    FlushStaysWithin(PackAll(segs, EMPTY_PACK).value);
  }

  /** Texts without two newlines in a row always pack. */
  lemma {:induction false} MessagesWithoutBlankLinesPack(segs: seq<Segment>, p: Pack)
    requires Within(p)
    requires forall i | 0 <= i < |segs| && segs[i].Text? :: NoDoubleNewline(segs[i].text)
    ensures PackAll(segs, p).Some?
  {
    if segs != [] {
      if segs[0].Text? { SingleNewlinesAlwaysPack(TextLoop(segs[0].text, p)); }
      var q := PackSegment(segs[0], p).value;
      assert PackAll(segs[..1], p) == Some(q) by {
        assert segs[..1][0] == segs[0] && segs[..1][1..] == [];
      }
      PackAllStaysWithin(segs[..1], p);
      MessagesWithoutBlankLinesPack(segs[1..], q);
    }
  }
}
