/** The chunks of one message go out in order, whatever runs at the same time (adapter/messenger.go). */
module ChunkOrder {
  import opened Outcomes
  import opened Segments
  import opened OfflineQueue
  import opened DeliveryRuns
  import opened DeliverySafety
  import opened EndingSteps
  import opened Endings
  import FlushOrder

  predicate SentDirectly(a: Attempt, id: nat) {
    a.id == id && a.started.None? && a.outcome.Sent?
  }

  /** One of the first n attempts sent the unit directly. */
  ghost predicate SentBy(log: seq<Attempt>, n: nat, id: nat) {
    exists k :: 0 <= k < n <= |log| && SentDirectly(log[k], id)
  }

  /** One of the first n saves is of the unit. */
  ghost predicate SavedBy(saves: seq<nat>, n: nat, id: nat) {
    exists i :: 0 <= i < n <= |saves| && saves[i] == id
  }

  /** Whatever was tried directly came after every earlier chunk of its send was sent directly. */
  ghost predicate TriedInOrder(log: seq<Attempt>, firsts: seq<nat>) {
    forall k: nat, id: nat | k < |log| && log[k].started.None? && SameSend(firsts, id, log[k].id) :: SentBy(log, k, id)
  }

  /** Whatever was saved came after every earlier chunk of its send was sent directly or saved. */
  ghost predicate SavedInOrder(log: seq<Attempt>, firsts: seq<nat>, saves: seq<nat>) {
    forall i: nat, id: nat | i < |saves| && SameSend(firsts, id, saves[i]) ::
      SentBy(log, |log|, id) || SavedBy(saves, i, id)
  }

  ghost predicate InARow(firsts: seq<nat>, chunks: seq<Unit>) {
    && (forall i | 0 <= i < |chunks| :: chunks[i].id == chunks[0].id + i)
    && (forall i, j | 0 <= i < j < |chunks| :: SameSend(firsts, chunks[i].id, chunks[j].id))
  }

  /** What is left of a send comes after all that is not. */
  ghost predicate ThreadInOrder(log: seq<Attempt>, firsts: seq<nat>, saves: seq<nat>, thread: Thread) {
    match thread
    case Sending(chunks) =>
      chunks != [] ==> forall id: nat | SameSend(firsts, id, chunks[0].id) :: SentBy(log, |log|, id)
    case SavingChunks(chunks) =>
      && InARow(firsts, chunks)
      && (chunks != [] ==>
            forall id: nat | SameSend(firsts, id, chunks[0].id) ::
              SentBy(log, |log|, id) || SavedBy(saves, |saves|, id))
    case SavingWhole(whole) => whole.id < |firsts| && firsts[whole.id] == whole.id
    case _ => true
  }

  ghost predicate ThreadsInOrder(s: State, st: Story) {
    forall t | 0 <= t < |s.threads| :: ThreadInOrder(s.history.log, st.firsts, st.saves, s.threads[t])
  }

  ghost predicate InOrder(s: State, st: Story) {
    && TriedInOrder(s.history.log, st.firsts)
    && SavedInOrder(s.history.log, st.firsts, st.saves)
    && ThreadsInOrder(s, st)
  }

  // ---- One step of a goroutine ----

  lemma SentLater(log: seq<Attempt>, log': seq<Attempt>, n: nat, m: nat, id: nat)
    requires log <= log' && n <= m <= |log'| && SentBy(log, n, id)
    ensures SentBy(log', m, id)
  {
    var k :| 0 <= k < n && SentDirectly(log[k], id);
    assert SentDirectly(log'[k], id);
  }

  lemma SavedLater(saves: seq<nat>, saves': seq<nat>, n: nat, m: nat, id: nat)
    requires saves <= saves' && n <= m <= |saves'| && SavedBy(saves, n, id)
    ensures SavedBy(saves', m, id)
  {
    var i :| 0 <= i < n && saves[i] == id;
    assert saves'[i] == id;
  }

  lemma OthersStayInOrder(log: seq<Attempt>, log': seq<Attempt>, firsts: seq<nat>, saves: seq<nat>, saves': seq<nat>,
                          thread: Thread)
    requires ThreadInOrder(log, firsts, saves, thread) && log <= log' && saves <= saves'
    ensures ThreadInOrder(log', firsts, saves', thread)
  {
    hide SentBy, SavedBy, SameSend, InARow;
    forall id: nat | SentBy(log, |log|, id) ensures SentBy(log', |log'|, id) {
      SentLater(log, log', |log|, |log'|, id);
    }
    forall id: nat | SavedBy(saves, |saves|, id) ensures SavedBy(saves', |saves'|, id) {
      SavedLater(saves, saves', |saves|, |saves'|, id);
    }
  }

  /** A direct attempt follows the attempts of the chunks before it. */
  lemma TriedStays(log: seq<Attempt>, log': seq<Attempt>, firsts: seq<nat>, saves: seq<nat>, thread: Thread)
    requires TriedInOrder(log, firsts) && ThreadInOrder(log, firsts, saves, thread) && log <= log'
    requires |log'| <= |log| + 1
    requires |log'| > |log| && log'[|log|].started.None? ==>
      thread.Sending? && thread.chunks != [] && log'[|log|].id == thread.chunks[0].id
    ensures TriedInOrder(log', firsts)
  {
    hide SentBy, SavedBy, SameSend;
    forall k: nat, id: nat | k < |log'| && log'[k].started.None? && SameSend(firsts, id, log'[k].id)
      ensures SentBy(log', k, id)
    {
      if k < |log| { assert SentBy(log, k, id); }
      SentLater(log, log', k, k, id);
    }
  }

  /** A save follows what its send has done before, or an earlier save of the same unit. */
  lemma SavedStays(log: seq<Attempt>, log': seq<Attempt>, firsts: seq<nat>, saves: seq<nat>, unit: nat)
    requires SavedInOrder(log, firsts, saves) && log <= log'
    requires
      || (exists i :: 0 <= i < |saves| && saves[i] == unit)
      || (forall id: nat | SameSend(firsts, id, unit) :: SentBy(log, |log|, id) || SavedBy(saves, |saves|, id))
    ensures SavedInOrder(log', firsts, saves + [unit])
  {
    hide SentBy, SavedBy, SameSend;
    var saves' := saves + [unit];
    forall i: nat, id: nat | i < |saves'| && SameSend(firsts, id, saves'[i])
      ensures SentBy(log', |log'|, id) || SavedBy(saves', i, id)
    {
      var j: nat := if k: nat :| k < |saves| && k <= i && saves[k] == saves'[i] then k else i;
      if SentBy(log, |log|, id) { SentLater(log, log', |log|, |log'|, id); }
      if SavedBy(saves, j, id) { SavedLater(saves, saves', j, i, id); }
    }
  }

  lemma NothingSavedStays(log: seq<Attempt>, log': seq<Attempt>, firsts: seq<nat>, saves: seq<nat>)
    requires SavedInOrder(log, firsts, saves) && log <= log'
    ensures SavedInOrder(log', firsts, saves)
  {
    hide SentBy, SavedBy, SameSend;
    forall i: nat, id: nat | i < |saves| && SameSend(firsts, id, saves[i])
      ensures SentBy(log', |log'|, id) || SavedBy(saves, i, id)
    {
      if SentBy(log, |log|, id) { SentLater(log, log', |log|, |log'|, id); }
    }
  }

  /** The chunks before the second are those before the first, and the first. */
  lemma BeforeSecond(firsts: seq<nat>, first: nat, id: nat)
    requires SameSend(firsts, first, first + 1) && SameSend(firsts, id, first + 1)
    ensures id == first || SameSend(firsts, id, first)
  {
  }

  /** Where a sender stands after its step, if it still has units. */
  lemma SenderAfter(env: Env, thread: Thread, sh: Shared, h: History, outcome: Outcome, frames: nat)
    ensures
      var e := RunEffect(env, thread, sh, h, outcome, frames);
      && !e.thread.SavingWhole?
      && (e.thread.Sending? ==>
            thread.Sending? && outcome.Sent? && |thread.chunks| > 1 && e.thread.chunks == thread.chunks[1..])
      && (e.thread.SavingChunks? ==>
            || (thread.Sending? && outcome.NotSent? && e.thread.chunks == thread.chunks != [])
            || (thread.SavingChunks? && thread.chunks != [] && e.thread.chunks == thread.chunks[1..]))
  {
    hide SegmentsOf, Saved;
  }

  lemma TailInARow(firsts: seq<nat>, chunks: seq<Unit>)
    requires InARow(firsts, chunks) && chunks != []
    ensures InARow(firsts, chunks[1..])
  {
  }

  /** The sender itself, after its step. */
  lemma OwnInOrder(env: Env, thread: Thread, sh: Shared, h: History, outcome: Outcome, frames: nat, firsts: seq<nat>,
                   saves: seq<nat>, log': seq<Attempt>, saves': seq<nat>)
    requires ThreadInOrder(h.log, firsts, saves, thread) && (thread.Sending? ==> InARow(firsts, thread.chunks))
    requires h.log <= log' && saves <= saves'
    requires thread.Sending? && thread.chunks != [] && outcome.Sent? ==> SentBy(log', |log'|, thread.chunks[0].id)
    requires thread.SavingChunks? && thread.chunks != [] ==> SavedBy(saves', |saves'|, thread.chunks[0].id)
    ensures ThreadInOrder(log', firsts, saves', RunEffect(env, thread, sh, h, outcome, frames).thread)
  {
    SenderAfter(env, thread, sh, h, outcome, frames);
    OthersStayInOrder(h.log, log', firsts, saves, saves', thread);
    hide RunEffect, SentBy, SavedBy, SameSend;
    if (thread.Sending? || thread.SavingChunks?) && thread.chunks != [] {
      TailInARow(firsts, thread.chunks);
      if |thread.chunks| > 1 {
        forall id: nat | SameSend(firsts, id, thread.chunks[1].id)
          ensures id == thread.chunks[0].id || SameSend(firsts, id, thread.chunks[0].id)
        {
          BeforeSecond(firsts, thread.chunks[0].id, id);
        }
      }
    }
  }

  lemma OneSendInARow(firsts: seq<nat>, log: seq<Attempt>, chunks: seq<Unit>)
    requires OneSend(firsts, log, chunks)
    ensures InARow(firsts, chunks)
  {
  }

  /** What is saved next follows what its send has done. */
  lemma SavedNext(s: State, t: nat, outcome: Outcome, st: Story)
    requires StoryOk(s, st) && InOrder(s, st) && t < |s.threads|
    requires FlushOrder.SavedBy(s.env, s.threads[t], outcome).Some?
    ensures
      var unit := FlushOrder.SavedBy(s.env, s.threads[t], outcome).value.unit.id;
      || (exists i :: 0 <= i < |st.saves| && st.saves[i] == unit)
      || (forall id: nat | SameSend(st.firsts, id, unit) ::
            SentBy(s.history.log, |s.history.log|, id) || SavedBy(st.saves, |st.saves|, id))
  {
    hide AllJustified, AnswersEnd, RestsEnd, SavesFit, FullQueueEnds, LateEnds, SavedInOrder, TriedInOrder, SentBy,
      SavedBy;
    var thread := s.threads[t];
    assert ThreadInOrder(s.history.log, st.firsts, st.saves, thread) && ThreadFits(s.history.log, st, thread);
    if thread.Flushing? {
      var last := st.takes[|st.takes| - 1];
      assert st.saves[last.saves - |thread.rest|..last.saves][0] == QueuedIds(thread.rest)[0];
      assert st.saves[last.saves - |thread.rest|] == thread.rest[0].unit.id;
    }
  }

  lemma RunInOrder(s: State, t: nat, outcome: Outcome, frames: nat, st: Story)
    requires Inv(s) && StoryOk(s, st) && InOrder(s, st) && Enabled(s, Run(t, outcome, frames))
    ensures InOrder(Next(s, Run(t, outcome, frames)), Tell(s, Run(t, outcome, frames), st))
  {
    hide RunEffect, Ledger, QueueOk, LogOk, StoryOk, TriedInOrder, SavedInOrder, ThreadInOrder, EndedBy, TakesAfter,
      SentBy, SavedBy, ThreadOk;
    var thread, h := s.threads[t], s.history;
    var e := RunEffect(s.env, thread, s.shared, h, outcome, frames);
    var st' := Tell(s, Run(t, outcome, frames), st);
    var log', saves' := e.history.log, st'.saves;
    EnteringIsFresh(h, thread);
    EffectOnHistory(s.env, thread, s.shared, h, outcome, frames);
    assert ThreadInOrder(h.log, st.firsts, st.saves, thread);
    TriedStays(h.log, log', st.firsts, st.saves, thread);
    match FlushOrder.SavedBy(s.env, thread, outcome) {
      case None =>
        assert saves' == st.saves;
        NothingSavedStays(h.log, log', st.firsts, st.saves);
      case Some(msg) =>
        SavedNext(s, t, outcome, st);
        SavedStays(h.log, log', st.firsts, st.saves, msg.unit.id);
    }
    SenderInARow(s, t, st);
    SaysWhatItDid(s, t, outcome, frames, st);
    OwnInOrder(s.env, thread, s.shared, h, outcome, frames, st.firsts, st.saves, log', saves');
    forall u | 0 <= u < |s.threads| && u != t ensures ThreadInOrder(log', st.firsts, saves', s.threads[u]) {
      OthersStayInOrder(h.log, log', st.firsts, st.saves, saves', s.threads[u]);
    }
  }

  lemma SenderInARow(s: State, t: nat, st: Story)
    requires StoryOk(s, st) && t < |s.threads|
    ensures s.threads[t].Sending? ==> InARow(st.firsts, s.threads[t].chunks)
  {
    hide AllJustified, AnswersEnd, RestsEnd, SavesFit, FullQueueEnds, LateEnds, OneSend, InARow;
    assert ThreadFits(s.history.log, st, s.threads[t]);
    if s.threads[t].Sending? { OneSendInARow(st.firsts, s.history.log, s.threads[t].chunks); }
  }

  lemma SaysWhatItDid(s: State, t: nat, outcome: Outcome, frames: nat, st: Story)
    requires t < |s.threads| && ThreadOk(s.history, s.threads[t])
    ensures
      var thread := s.threads[t];
      var log' := RunEffect(s.env, thread, s.shared, s.history, outcome, frames).history.log;
      var saves' := st.saves + SavedIds(s.env, thread, outcome);
      && (thread.Sending? && thread.chunks != [] && outcome.Sent? ==> SentBy(log', |log'|, thread.chunks[0].id))
      && (thread.SavingChunks? && thread.chunks != [] ==> SavedBy(saves', |saves'|, thread.chunks[0].id))
  {
    hide RunEffect;
    var thread, h := s.threads[t], s.history;
    EnteringIsFresh(h, thread);
    EffectOnHistory(s.env, thread, s.shared, h, outcome, frames);
    var log' := RunEffect(s.env, thread, s.shared, h, outcome, frames).history.log;
    var saves' := st.saves + SavedIds(s.env, thread, outcome);
    if thread.Sending? && thread.chunks != [] && outcome.Sent? {
      assert SentDirectly(log'[|h.log|], thread.chunks[0].id);
    }
    if thread.SavingChunks? && thread.chunks != [] { assert saves'[|st.saves|] == thread.chunks[0].id; }
  }

  // ---- The other steps ----

  /** A new send is nobody's earlier or later chunk but its own. */
  lemma SendsApart(firsts: seq<nat>, firsts': seq<nat>, id: nat, later: nat)
    requires FirstsFit(firsts, |firsts|) && FirstsGrow(firsts, firsts') && SameSend(firsts', id, later)
    ensures later < |firsts| ==> SameSend(firsts, id, later)
    ensures later >= |firsts| ==> later > |firsts|
  {
  }

  lemma OldStaysInOrder(log: seq<Attempt>, firsts: seq<nat>, firsts': seq<nat>, saves: seq<nat>)
    requires TriedInOrder(log, firsts) && SavedInOrder(log, firsts, saves)
    requires FirstsFit(firsts, |firsts|) && FirstsGrow(firsts, firsts')
    requires forall k | 0 <= k < |log| :: log[k].id < |firsts|
    requires forall i | 0 <= i < |saves| :: saves[i] < |firsts|
    ensures TriedInOrder(log, firsts') && SavedInOrder(log, firsts', saves)
  {
    hide SentBy, SavedBy, SameSend, FirstsFit, FirstsGrow;
    forall id: nat, later: nat | SameSend(firsts', id, later) && later < |firsts|
      ensures SameSend(firsts, id, later)
    {
      SendsApart(firsts, firsts', id, later);
    }
  }

  lemma OldThreadStays(h: History, firsts: seq<nat>, firsts': seq<nat>, saves: seq<nat>, thread: Thread)
    requires ThreadInOrder(h.log, firsts, saves, thread) && ThreadOk(h, thread) && |firsts| == |h.bodies|
    requires FirstsFit(firsts, |firsts|) && FirstsGrow(firsts, firsts')
    ensures ThreadInOrder(h.log, firsts', saves, thread)
  {
    hide SentBy, SavedBy;
    forall id: nat, later: nat | SameSend(firsts', id, later) && later < |firsts|
      ensures SameSend(firsts, id, later)
    {
      SendsApart(firsts, firsts', id, later);
    }
  }

  lemma AllIdsExist(s: State, st: Story)
    requires Inv(s) && StoryOk(s, st)
    ensures |st.firsts| == |s.history.bodies|
    ensures forall k | 0 <= k < |s.history.log| :: s.history.log[k].id < |st.firsts|
    ensures forall i | 0 <= i < |st.saves| :: st.saves[i] < |st.firsts|
  {
    hide Ledger, AllJustified, AnswersEnd, RestsEnd, SavesFit, FullQueueEnds, LateEnds, ThreadFits, ThreadOk;
    forall k | 0 <= k < |s.history.log| ensures s.history.log[k].id < |st.firsts| {
      assert AttemptOk(s.env.expire, s.history, s.history.log[k]);
    }
  }

  lemma NewSendInOrder(s: State, whole: seq<Element>, chunks: seq<seq<Element>>, st: Story)
    requires FirstsFit(st.firsts, |s.history.bodies|)
    ensures
      var firsts' := Tell(s, Send(whole, chunks), st).firsts;
      && FirstsGrow(st.firsts, firsts')
      && ThreadInOrder(s.history.log, firsts', st.saves, SendEffect(s, whole, chunks).thread)
  {
    hide SentBy, SavedBy;
    var firsts' := Tell(s, Send(whole, chunks), st).firsts;
    forall id: nat | SameSend(firsts', id, |st.firsts|) ensures false {
      SendsApart(st.firsts, firsts', id, |st.firsts|);
    }
  }

  lemma OtherStepInOrder(s: State, step: Step, st: Story)
    requires Inv(s) && StoryOk(s, st) && InOrder(s, st) && Enabled(s, step) && !step.Run?
    ensures InOrder(Next(s, step), Tell(s, step, st))
  {
    AllIdsExist(s, st);
    FirstsAreOk(s, st);
    hide Ledger, StoryOk, TriedInOrder, SavedInOrder, ThreadInOrder, ThreadOk, QueueOk, LogOk, FirstsFit, FirstsGrow,
      SegmentsOf;
    if step.Send? {
      var st' := Tell(s, step, st);
      NewSendInOrder(s, step.whole, step.chunks, st);
      OldStaysInOrder(s.history.log, st.firsts, st'.firsts, st.saves);
      forall t | 0 <= t < |s.threads| ensures ThreadInOrder(s.history.log, st'.firsts, st.saves, s.threads[t]) {
        OldThreadStays(s.history, st.firsts, st'.firsts, st.saves, s.threads[t]);
      }
    } else {
      SpawnsNoSender(s, step, st);
    }
  }

  lemma FirstsAreOk(s: State, st: Story)
    requires StoryOk(s, st)
    ensures FirstsFit(st.firsts, |st.firsts|)
    ensures FirstsFit(st.firsts, |s.history.bodies|)
  {
  }

  lemma SpawnsNoSender(s: State, step: Step, st: Story)
    requires Enabled(s, step) && !step.Run? && !step.Send?
    ensures Tell(s, step, st) == st && Next(s, step).history == s.history && s.threads <= Next(s, step).threads
    ensures forall t | |s.threads| <= t < |Next(s, step).threads| ::
      ThreadInOrder(s.history.log, st.firsts, st.saves, Next(s, step).threads[t])
  {
  }

  // ---- Every run ----

  lemma {:induction false} StaysInOrder(s: State, steps: seq<Step>, st: Story)
    requires Inv(s) && StoryOk(s, st) && InOrder(s, st) && Possible(s, steps)
    ensures InOrder(After(s, steps), Told(s, steps, st))
    decreases |steps|
  {
    hide Inv, StoryOk, InOrder, RunEffect;
    if steps != [] {
      var step := steps[0];
      var next, st' := Next(s, step), Tell(s, step, st);
      if step.Run? {
        RunInOrder(s, step.thread, step.outcome, step.frames, st);
        RunKeepsStory(s, step.thread, step.outcome, step.frames, st);
      } else {
        OtherStepInOrder(s, step, st);
        OtherStepKeepsStory(s, step, st);
      }
      hide Next, Enabled, Tell;
      assert [step][1..] == [] && Possible(next, []) && After(next, []) == next;
      assert Possible(s, [step]) && After(s, [step]) == After(next, []);
      AfterInv(s, [step]);
      StaysInOrder(next, steps[1..], st');
    }
  }

  /** Over every run, a chunk is tried directly only after all chunks before it in its message were sent directly, and
      queued only after each of them was sent directly or queued. */
  lemma {:induction false} ChunksGoInOrder(enabled: bool, expire: int, steps: seq<Step>, s: State, st: Story)
    requires ToldRun(enabled, expire, steps, s, st)
    ensures forall k: nat, id: nat |
      k < |s.history.log| && s.history.log[k].started.None? && SameSend(st.firsts, id, s.history.log[k].id) ::
        SentBy(s.history.log, k, id)
    ensures forall i: nat, id: nat | i < |st.saves| && SameSend(st.firsts, id, st.saves[i]) ::
      SentBy(s.history.log, |s.history.log|, id) || SavedBy(st.saves, i, id)
  {
    hide Inv, StoryOk, SentBy, SavedBy, SameSend, Possible, After, Told;
    StartInv(enabled, expire);
    StartStory(enabled, expire);
    StaysInOrder(Start(enabled, expire), steps, UNTOLD);
  }
}
