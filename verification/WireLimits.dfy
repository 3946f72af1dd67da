/** The chunk limits over whole runs of the messenger (adapter/messenger.go). */
module WireLimits {
  import Outcomes
  import opened Segments
  import opened Chunker
  import ChunkContent
  import OfflineQueue
  import opened DeliveryRuns
  import DeliverySafety
  import WakeUps

  /** A unit whose segments are a legal chunk. */
  ghost predicate Legal(elements: seq<Element>) {
    ChunkWithin(SegmentsOf(elements))
  }

  /** The chunks are the packer's, turned back into elements. */
  ghost predicate IsPacking(whole: seq<Element>, chunks: seq<seq<Element>>) {
    var packed := PackMessage(SegmentsOf(whole));
    && packed.Some? && |chunks| == |packed.value|
    && forall i | 0 <= i < |chunks| :: chunks[i] == ElementsOf(packed.value[i])
  }

  // ---- A chunk stays legal when it is rebuilt ----

  lemma {:induction false} RewiredSize(chunk: seq<Segment>)
    ensures CountImages(RewiredAll(chunk)) == CountImages(chunk)
    ensures CalculateTextLength(RewiredAll(chunk)) == CalculateTextLength(chunk)
  {
    if chunk != [] {
      var n := |chunk| - 1;
      assert RewiredAll(chunk)[..n] == RewiredAll(chunk[..n]);
      RewiredSize(chunk[..n]);
    }
  }

  lemma PackedChunkIsLegal(whole: seq<Element>, chunks: seq<seq<Element>>, i: nat)
    requires IsPacking(whole, chunks) && i < |chunks|
    ensures Legal(chunks[i])
  {
    hide PackMessage, CalculateTextLength, CountImages;
    var chunk := PackMessage(SegmentsOf(whole)).value[i];
    ChunksRespectLimits(SegmentsOf(whole));
    assert ChunkWithin(chunk);
    ChunkContent.ChunksGoOutAsPacked(whole, i);
    RewiredSize(chunk);
    forall k | 0 <= k < |chunk| && IsSingle(RewiredAll(chunk)[k]) ensures |chunk| == 1 {
      assert IsSingle(chunk[k]);
    }
  }

  // ---- Over a run ----

  /** This send queues its message whole, without packing it. */
  predicate QueuesWhole(s: State, step: Step) {
    step.Send? && s.env.enabled && !s.env.connected
  }

  /** Any other send passes the packer's chunks. */
  ghost predicate PackedStep(s: State, step: Step) {
    step.Send? && !QueuesWhole(s, step) ==> IsPacking(step.whole, step.chunks)
  }

  ghost predicate PackedRun(s: State, steps: seq<Step>)
    requires Possible(s, steps)
    decreases |steps|
  {
    steps == [] || (PackedStep(s, steps[0]) && PackedRun(Next(s, steps[0]), steps[1..]))
  }

  /** The units that the run queues whole. */
  ghost function Wholes(s: State, steps: seq<Step>): set<nat>
    requires Possible(s, steps)
    decreases |steps|
  {
    if steps == [] then {}
    else (if QueuesWhole(s, steps[0]) then {|s.history.bodies|} else {}) + Wholes(Next(s, steps[0]), steps[1..])
  }

  /** Every message queued whole is a legal chunk itself. */
  ghost predicate GoodRun(s: State, steps: seq<Step>)
    requires Possible(s, steps)
    decreases |steps|
  {
    || steps == []
    || ((QueuesWhole(s, steps[0]) ==> Legal(steps[0].whole)) && GoodRun(Next(s, steps[0]), steps[1..]))
  }

  ghost predicate LegalBut(s: State, wholes: set<nat>) {
    forall id | 0 <= id < |s.history.bodies| :: id in wholes || Legal(s.history.bodies[id])
  }

  ghost predicate BodiesLegal(s: State) {
    LegalBut(s, {})
  }

  /** What one step adds to the bodies. */
  lemma BodiesAfter(s: State, step: Step)
    requires Enabled(s, step)
    ensures Next(s, step).history.bodies == s.history.bodies
      + (if QueuesWhole(s, step) then [step.whole] else if step.Send? then step.chunks else [])
  {
    hide RunEffect, UnitsFrom;
    assert s.history.bodies + [] == s.history.bodies;
    if step.Run? {
      BodiesUnchanged(s.env, s.threads[step.thread], s.shared, s.history, step.outcome, step.frames);
    }
  }

  lemma BodiesUnchanged(env: Env, thread: Thread, sh: Shared, h: History, outcome: Outcomes.Outcome, frames: nat)
    ensures RunEffect(env, thread, sh, h, outcome, frames).history.bodies == h.bodies
  {
    hide SegmentsOf, OfflineQueue.Saved;
  }

  lemma StepLegalBut(s: State, step: Step, wholes: set<nat>)
    requires Enabled(s, step) && PackedStep(s, step) && LegalBut(s, wholes)
    ensures LegalBut(Next(s, step), wholes + if QueuesWhole(s, step) then {|s.history.bodies|} else {})
  {
    hide Legal, IsPacking, Next, Enabled;
    BodiesAfter(s, step);
    if step.Send? && !QueuesWhole(s, step) {
      forall i: nat | i < |step.chunks| ensures Legal(step.chunks[i]) {
        PackedChunkIsLegal(step.whole, step.chunks, i);
      }
    }
  }

  /** Only a message queued whole can exceed the limits. */
  lemma {:induction false} RunLegalBut(s: State, steps: seq<Step>, wholes: set<nat>)
    requires Possible(s, steps) && PackedRun(s, steps) && LegalBut(s, wholes)
    ensures LegalBut(After(s, steps), wholes + Wholes(s, steps))
    decreases |steps|
  {
    hide Next, Enabled, LegalBut, PackedStep, QueuesWhole;
    if steps == [] {
      assert wholes + {} == wholes;
    } else {
      var more := if QueuesWhole(s, steps[0]) then {|s.history.bodies|} else {};
      StepLegalBut(s, steps[0], wholes);
      RunLegalBut(Next(s, steps[0]), steps[1..], wholes + more);
      assert wholes + more + Wholes(Next(s, steps[0]), steps[1..]) == wholes + Wholes(s, steps);
    }
  }

  lemma {:induction false} BodiesOnlyGrow(s: State, steps: seq<Step>, id: nat)
    requires Possible(s, steps) && id < |s.history.bodies|
    ensures id < |After(s, steps).history.bodies|
    ensures After(s, steps).history.bodies[id] == s.history.bodies[id]
    decreases |steps|
  {
    hide Next, Enabled;
    if steps != [] {
      BodiesAfter(s, steps[0]);
      BodiesOnlyGrow(Next(s, steps[0]), steps[1..], id);
    }
  }

  /** All units stay legal chunks exactly if every message queued whole is one. */
  lemma {:induction false} LegalIffGoodRun(s: State, steps: seq<Step>)
    requires Possible(s, steps) && PackedRun(s, steps) && BodiesLegal(s)
    ensures BodiesLegal(After(s, steps)) <==> GoodRun(s, steps)
    decreases |steps|
  {
    hide Next, Enabled, PackedStep, Legal, IsPacking;
    if steps != [] {
      BodiesAfter(s, steps[0]);
      StepLegalBut(s, steps[0], {});
      if QueuesWhole(s, steps[0]) && !Legal(steps[0].whole) {
        BodiesOnlyGrow(Next(s, steps[0]), steps[1..], |s.history.bodies|);
      } else {
        LegalIffGoodRun(Next(s, steps[0]), steps[1..]);
      }
    }
  }

  /** In every interleaving an attempt exceeds a limit exactly if its unit was queued whole and is no legal chunk. */
  lemma {:induction false} AttemptExceedsIff(enabled: bool, expire: int, steps: seq<Step>, i: nat)
    requires Possible(Start(enabled, expire), steps) && PackedRun(Start(enabled, expire), steps)
    requires i < |After(Start(enabled, expire), steps).history.log|
    ensures
      var s := After(Start(enabled, expire), steps);
      var a := s.history.log[i];
      && a.id < |s.history.bodies|
      && (!ChunkWithin(a.wire) <==>
           a.id in Wholes(Start(enabled, expire), steps) && !Legal(s.history.bodies[a.id]))
  {
    hide ChunkWithin, After, Possible, Wholes;
    var s0 := Start(enabled, expire);
    RunLegalBut(s0, steps, {});
    var s := After(s0, steps);
    assert DeliverySafety.Reachable(s, enabled, expire);
    DeliverySafety.ReachableInv(enabled, expire);
    assert DeliverySafety.AttemptOk(expire, s.history, s.history.log[i]);
  }

  /** So whatever is attempted, directly or by a flush, is within the limits if every message queued whole is. */
  lemma {:induction false} AttemptsRespectLimits(enabled: bool, expire: int, steps: seq<Step>)
    requires Possible(Start(enabled, expire), steps)
    requires PackedRun(Start(enabled, expire), steps) && GoodRun(Start(enabled, expire), steps)
    ensures forall a | a in After(Start(enabled, expire), steps).history.log :: ChunkWithin(a.wire)
  {
    hide ChunkWithin, After, GoodRun, Possible, Wholes;
    var s := After(Start(enabled, expire), steps);
    LegalIffGoodRun(Start(enabled, expire), steps);
    forall i: nat | i < |s.history.log| ensures ChunkWithin(s.history.log[i].wire) {
      AttemptExceedsIff(enabled, expire, steps, i);
      assert BodiesLegal(s);
    }
  }

  // ---- The offline exception ----

  /** A run from the start whose packed sends pass the packer's chunks ends in s. */
  ghost predicate Reaches(expire: int, s: State) {
    var start := Start(true, expire);
    exists steps: seq<Step> :: Possible(start, steps) && After(start, steps) == s && PackedRun(start, steps)
  }

  lemma {:induction false} PackedSnoc(s: State, steps: seq<Step>, last: Step)
    requires Possible(s, steps) && PackedRun(s, steps)
    requires Enabled(After(s, steps), last) && PackedStep(After(s, steps), last)
    requires Possible(s, steps + [last])
    ensures PackedRun(s, steps + [last])
    decreases |steps|
  {
    hide Next, Enabled, PackedStep;
    if steps == [] {
      assert [last][1..] == [] && steps + [last] == [last];
    } else {
      assert (steps + [last])[1..] == steps[1..] + [last];
      PackedSnoc(Next(s, steps[0]), steps[1..], last);
    }
  }

  lemma Go(expire: int, s: State, step: Step) returns (next: State)
    requires Reaches(expire, s) && Enabled(s, step) && PackedStep(s, step)
    ensures next == Next(s, step) && Reaches(expire, next)
  {
    hide Next, Enabled, PackedStep;
    var start := Start(true, expire);
    var steps: seq<Step> :| Possible(start, steps) && After(start, steps) == s && PackedRun(start, steps);
    WakeUps.AfterSnoc(start, steps, step);
    PackedSnoc(start, steps, step);
    next := Next(s, step);
  }

  ghost predicate QueuedWhole(s: State, whole: seq<Element>, connected: bool, scheduled: bool, armed: nat,
                              locked: bool, threads: seq<Thread>) {
    && s.env.enabled && s.env.connected == connected && s.env.now == 0
    && s.shared == Shared([OfflineQueue.Queued(OfflineQueue.Unit(0, whole), 0)], scheduled, armed, locked)
    && s.threads == threads
  }

  lemma NoSteps(expire: int)
    ensures Reaches(expire, Start(true, expire))
  {
    assert Possible(Start(true, expire), []);
  }

  /** Any message sent while offline can go out in one piece, even one the packer never finishes. */
  lemma {:induction false} OfflineMessageGoesOutWhole(whole: seq<Element>, expire: nat) returns (s: State)
    ensures Reaches(expire, s)
    ensures s.history.log != []
    ensures s.history.log[|s.history.log| - 1].wire == SegmentsOf(whole)
  {
    hide Reaches, SegmentsOf, PackMessage;
    s := Start(true, expire);
    NoSteps(expire);
    s := Go(expire, s, Send(whole, []));
    assert s.threads == [SavingWhole(OfflineQueue.Unit(0, whole))];
    s := Go(expire, s, WakeUps.Idle(0));
    assert QueuedWhole(s, whole, false, false, 0, false, [Scheduling(false)]);
    s := Go(expire, s, WakeUps.Idle(0));
    assert QueuedWhole(s, whole, false, true, 0, false, [Arming(false)]);
    s := Go(expire, s, WakeUps.Idle(0));
    assert QueuedWhole(s, whole, false, true, 1, false, [Finished]);
    s := Go(expire, s, SetConnected(true));
    s := Go(expire, s, Reconnect);
    assert QueuedWhole(s, whole, true, true, 1, false, [Finished, AwaitingMutex(false)]);
    s := Go(expire, s, WakeUps.Idle(1));
    assert QueuedWhole(s, whole, true, true, 1, true, [Finished, RereadingConnection(false)]);
    s := Go(expire, s, WakeUps.Idle(1));
    assert QueuedWhole(s, whole, true, true, 1, true, [Finished, Taking]);
    s := Go(expire, s, WakeUps.Idle(1));
    assert s.threads[1] == Flushing([OfflineQueue.Queued(OfflineQueue.Unit(0, whole), 0)], 0, false);
    s := Go(expire, s, Run(1, Outcomes.Sent, 1));
  }

  function Pictures(n: nat, url: string): seq<Element> {
    seq(n, _ => ImageElement(url, url))
  }

  lemma {:induction false} PicturesSegments(n: nat, url: string)
    ensures |SegmentsOf(Pictures(n, url))| == n
    ensures forall k | 0 <= k < n :: SegmentsOf(Pictures(n, url))[k].Image?
  {
    if n > 0 {
      assert Pictures(n, url)[1..] == Pictures(n - 1, url);
      PicturesSegments(n - 1, url);
    }
  }

  lemma {:induction false} AllImagesCount(segs: seq<Segment>)
    requires forall k | 0 <= k < |segs| :: segs[k].Image?
    ensures CountImages(segs) == |segs|
  {
    if segs != [] { AllImagesCount(segs[..|segs| - 1]); }
  }

  /** For example 21 pictures sent while offline: one attempt carries more than 20. */
  lemma {:induction false} OfflinePicturesExceed(url: string, expire: nat) returns (s: State)
    ensures Reaches(expire, s)
    ensures exists i | 0 <= i < |s.history.log| :: !ChunkWithin(s.history.log[i].wire)
  {
    hide SegmentsOf, Pictures, Reaches, ChunkWithin;
    var whole := Pictures(MAX_IMAGE_COUNT + 1, url);
    var segs := SegmentsOf(whole);
    PicturesSegments(MAX_IMAGE_COUNT + 1, url);
    AllImagesCount(segs);
    TooManyImages(segs);
    s := OfflineMessageGoesOutWhole(whole, expire);
  }

  /** Or two newlines and 4499 letters: one attempt carries 4501 characters that the packer would never finish. */
  lemma {:induction false} OfflineBlankLineExceeds(expire: nat) returns (s: State)
    ensures Reaches(expire, s)
    ensures exists i | 0 <= i < |s.history.log| ::
      PackMessage(s.history.log[i].wire).None? && !ChunkWithin(s.history.log[i].wire)
  {
    hide Reaches, PackAll, ChunkWithin, CalculateTextLength;
    var letters := seq(MAX_TEXT_LENGTH - 1, _ => 'a');
    var text := "\n\n" + letters;
    LeadingNewlinesNeverEnd(letters);
    assert SegmentsOf([TextElement(text)]) == [Text(text)];
    TooLong(text);
    s := OfflineMessageGoesOutWhole([TextElement(text)], expire);
  }

  lemma TooLong(text: string)
    requires |text| > MAX_TEXT_LENGTH
    ensures !ChunkWithin([Text(text)])
  {
  }

  lemma TooManyImages(segs: seq<Segment>)
    requires CountImages(segs) > MAX_IMAGE_COUNT
    ensures !ChunkWithin(segs)
  {
  }
}
