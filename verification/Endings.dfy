/** Why units end, over every run of the messenger (adapter/messenger.go). */
module Endings {
  import opened Outcomes
  import opened Segments
  import opened OfflineQueue
  import opened DeliveryRuns
  import opened DeliverySafety
  import opened EndingSteps

  lemma RunNoRetry(s: State, t: nat, outcome: Outcome, frames: nat)
    requires Ledger(s) && t < |s.threads| && ThreadOk(s.history, s.threads[t])
    ensures
      var h' := RunEffect(s.env, s.threads[t], s.shared, s.history, outcome, frames).history;
      NoRetry(s.history.log, h'.log, s.history.ended)
  {
    hide RunEffect, SegmentsOf, Ledger, Weight, Target;
    var thread := s.threads[t];
    EnteringIsFresh(s.history, thread);
    EffectOnHistory(s.env, thread, s.shared, s.history, outcome, frames);
    if Target(s.env, thread).Some? {
      TargetIsHeld(s.env, thread);
      HeldIsNotEnded(s, t, Target(s.env, thread).value.id);
    }
  }

  lemma RunJustified(s: State, t: nat, outcome: Outcome, frames: nat, st: Story)
    requires Inv(s) && StoryOk(s, st) && Enabled(s, Run(t, outcome, frames))
    ensures
      var s' := Next(s, Run(t, outcome, frames));
      AllJustified(s'.env, s'.history, Tell(s, Run(t, outcome, frames), st))
  {
    hide RunEffect, Ledger, LogOk, QueueOk, SavesFit, EndedBy, Justified, AnswersEnd, RestsEnd, LateEnds, FullQueueEnds,
         ThreadOk, ThreadFits;
    var thread := s.threads[t];
    var h' := RunEffect(s.env, thread, s.shared, s.history, outcome, frames).history;
    var st' := Tell(s, Run(t, outcome, frames), st);
    EffectTries(s.env, thread, s.shared, s.history, outcome, frames);
    RunNoRetry(s, t, outcome, frames);
    AllStayJustified(s.env, s.history, st, s.env, h', st');
    forall i | 0 <= i < |st'.endings| ensures Justified(s.env, h', st', st'.endings[i]) {
      if i >= |st.endings| { NewJustified(s, t, outcome, frames, st, st'.endings[i]); }
    }
  }

  lemma NamedConcat(a: seq<Ending>, b: seq<Ending>)
    ensures Named(a + b) == Named(a) + Named(b)
  {
  }

  /** Whatever is saved has been born. */
  lemma SavedStayBorn(env: Env, thread: Thread, sh: Shared, h: History, outcome: Outcome, frames: nat, saves: seq<nat>)
    requires ThreadOk(h, thread) && SavedAreBorn(h, saves)
    ensures SavedAreBorn(RunEffect(env, thread, sh, h, outcome, frames).history,
                         saves + SavedIds(env, thread, outcome))
  {
    hide RunEffect, SegmentsOf, AllFresh;
    EnteringIsFresh(h, thread);
    EffectOnHistory(env, thread, sh, h, outcome, frames);
    if thread.Flushing? && thread.rest != [] { assert QueuedOk(h, thread.rest[0]); }
  }

  lemma RunKeepsStory(s: State, t: nat, outcome: Outcome, frames: nat, st: Story)
    requires Inv(s) && StoryOk(s, st) && Enabled(s, Run(t, outcome, frames))
    ensures StoryOk(Next(s, Run(t, outcome, frames)), Tell(s, Run(t, outcome, frames), st))
  {
    hide RunEffect, Ledger, LogOk, QueueOk, SavesFit, EndedBy, AllJustified, AnswersEnd, RestsEnd, FullQueueEnds,
         LateEnds, ThreadFits, ThreadOk, SavedIds, TakesAfter, Named, SavedAreBorn, TriesTarget;
    var thread := s.threads[t];
    var s', st' := Next(s, Run(t, outcome, frames)), Tell(s, Run(t, outcome, frames), st);
    EnteringIsFresh(s.history, thread);
    EffectOnHistory(s.env, thread, s.shared, s.history, outcome, frames);
    EffectTries(s.env, thread, s.shared, s.history, outcome, frames);
    EffectOnEnded(s.env, thread, s.shared, s.history, outcome, frames, st);
    EffectOnAppended(s.env, thread, s.shared, s.history, outcome, frames);
    RunJustified(s, t, outcome, frames, st);
    AnswersStillEnd(s.env, thread, s.shared, s.history, outcome, s'.history, st);
    RestsStillEnd(s.env, thread, s.shared, s.history, outcome, s'.history, st);
    FullQueueStillEnds(s, t, outcome, frames, st);
    LateStillEnds(s, t, outcome, frames, st);
    SavesStayFit(s.env, thread, outcome, s.history.appended, st);
    SavedStayBorn(s.env, thread, s.shared, s.history, outcome, frames, st.saves);
    NamedConcat(st.endings, EndedBy(s.env, thread, s.shared, s.history, outcome, st));
    OwnThreadFits(s, t, outcome, frames, st);
    OtherThreadsFit(s, t, st, st', s'.history.log);
    assert forall u | 0 <= u < |s'.threads| && u != t :: s'.threads[u] == s.threads[u];
  }

  /** New units belong to no earlier send. */
  lemma OldSend(firsts: seq<nat>, firsts': seq<nat>, id: nat, later: nat)
    requires firsts <= firsts' && FirstsFit(firsts, |firsts|) && id < |firsts|
    requires forall i | |firsts| <= i < |firsts'| :: firsts'[i] == |firsts|
    requires SameSend(firsts', id, later)
    ensures SameSend(firsts, id, later)
  {
  }

  ghost predicate FirstsGrow(firsts: seq<nat>, firsts': seq<nat>) {
    firsts <= firsts' && forall i | |firsts| <= i < |firsts'| :: firsts'[i] == |firsts|
  }

  lemma RestsStay(s: State, s': State, firsts: seq<nat>, firsts': seq<nat>, endings: seq<Ending>)
    requires RestsEnd(s.env, s.history.log, firsts, endings) && FirstsFit(firsts, |s.history.bodies|)
    requires AllAttempts(s.env.expire, s.history) && FirstsGrow(firsts, firsts')
    requires s'.history.log == s.history.log && s'.env.enabled == s.env.enabled
    ensures RestsEnd(s'.env, s'.history.log, firsts', endings)
  {
    var log := s.history.log;
    forall k, id: nat | 0 <= k < |log| && GaveUpRest(s'.env, log[k]) && SameSend(firsts', log[k].id, id)
      ensures Ending(id, Behind(k)) in endings
    {
      assert AttemptOk(s.env.expire, s.history, log[k]);
      OldSend(firsts, firsts', log[k].id, id);
    }
  }

  lemma LateStays(s: State, s': State, st: Story, st': Story)
    requires LateEnds(s, st) && st' == st.(firsts := st'.firsts)
    requires s'.history.born == s.history.born && s'.env.expire == s.env.expire
    requires |s.threads| <= |s'.threads| && forall t | 0 <= t < |s.threads| :: s'.threads[t] == s.threads[t]
    ensures LateEnds(s', st')
  {
    hide TakenBy, ToVisit;
    forall save: nat, k: nat | TakenBy(st.takes, save, k) && Late(s'.env, s'.history, st', save, k)
      ensures TooOldAt(st', save, k) || exists t | 0 <= t < |s'.threads| :: ToVisit(st.takes, s'.threads[t], save, k)
    {
      assert Late(s.env, s.history, st, save, k);
      if !TooOldAt(st, save, k) {
        var t :| 0 <= t < |s.threads| && ToVisit(st.takes, s.threads[t], save, k);
        assert ToVisit(st.takes, s'.threads[t], save, k);
      }
    }
  }

  lemma ThreadStaysFit(log: seq<Attempt>, st: Story, st': Story, thread: Thread, h: History)
    requires ThreadFits(log, st, thread) && FirstsFit(st.firsts, |h.bodies|) && ThreadOk(h, thread)
    requires FirstsGrow(st.firsts, st'.firsts) && st' == st.(firsts := st'.firsts)
    ensures ThreadFits(log, st', thread)
  {
    if thread.Sending? && thread.chunks != [] {
      var chunks := thread.chunks;
      assert FreshOk(h, chunks[0]);
      forall id: nat | SameSend(st'.firsts, chunks[0].id, id) ensures id < chunks[0].id + |chunks| {
        OldSend(st.firsts, st'.firsts, chunks[0].id, id);
      }
      forall i, j | 0 <= i < j < |chunks| ensures SameSend(st'.firsts, chunks[i].id, chunks[j].id) {
        assert SameSend(st.firsts, chunks[i].id, chunks[j].id);
      }
    }
  }

  /** A step that is no goroutine's: time, connectivity, a new send, a reconnect, a timer. */
  lemma StoryStays(s: State, s': State, st: Story, st': Story)
    requires Inv(s) && StoryOk(s, st) && Later(s.env, s.history, st, s'.env, s'.history, st')
    requires s'.history == s.history.(bodies := s'.history.bodies) && FirstsFit(st'.firsts, |s'.history.bodies|)
    requires st' == st.(firsts := st'.firsts) && FirstsGrow(st.firsts, st'.firsts)
    requires |s.threads| <= |s'.threads| && forall t | 0 <= t < |s.threads| :: s'.threads[t] == s.threads[t]
    requires forall t | |s.threads| <= t < |s'.threads| :: ThreadFits(s'.history.log, st', s'.threads[t])
    ensures StoryOk(s', st')
  {
    hide Justified, SavesFit, ThreadFits, LateEnds, RestsEnd, Ledger, QueueOk, FirstsFit, FirstsGrow, ThreadOk;
    AllStayJustified(s.env, s.history, st, s'.env, s'.history, st');
    RestsStay(s, s', st.firsts, st'.firsts, st.endings);
    LateStays(s, s', st, st');
    forall t | 0 <= t < |s'.threads| ensures ThreadFits(s'.history.log, st', s'.threads[t]) {
      if t < |s.threads| {
        ThreadStaysFit(s.history.log, st, st', s.threads[t], s.history);
      }
    }
  }

  lemma NewSendFits(s: State, whole: seq<Element>, chunks: seq<seq<Element>>, st: Story)
    requires AllAttempts(s.env.expire, s.history) && FirstsFit(st.firsts, |s.history.bodies|)
    ensures
      var e := SendEffect(s, whole, chunks);
      var st' := Tell(s, Send(whole, chunks), st);
      && FirstsFit(st'.firsts, |e.history.bodies|)
      && FirstsGrow(st.firsts, st'.firsts)
      && st' == st.(firsts := st'.firsts)
      && ThreadFits(s.history.log, st', e.thread)
  {
    hide SegmentsOf;
    var units := UnitsFrom(|s.history.bodies|, chunks);
    forall i | 0 <= i < |units| ensures Untried(s.history.log, units[i].id) {
      forall k | 0 <= k < |s.history.log| ensures s.history.log[k].id != units[i].id {
        assert AttemptOk(s.env.expire, s.history, s.history.log[k]);
      }
    }
  }

  lemma {:induction false} ToldOk(s: State, steps: seq<Step>, st: Story)
    requires Inv(s) && StoryOk(s, st) && Possible(s, steps)
    ensures StoryOk(After(s, steps), Told(s, steps, st))
    decreases |steps|
  {
    hide Inv, StoryOk, RunEffect, UnitsFrom;
    if steps != [] {
      var step := steps[0];
      var next, st' := Next(s, step), Tell(s, step, st);
      if step.Run? {
        RunKeepsStory(s, step.thread, step.outcome, step.frames, st);
      } else {
        OtherStepKeepsStory(s, step, st);
      }
      hide Next, Enabled, Tell;
      assert [step][1..] == [] && Possible(next, []) && After(next, []) == next;
      assert Possible(s, [step]) && After(s, [step]) == After(next, []);
      AfterInv(s, [step]);
      ToldOk(next, steps[1..], st');
    }
  }

  lemma OtherStepKeepsStory(s: State, step: Step, st: Story)
    requires Inv(s) && StoryOk(s, st) && Enabled(s, step) && !step.Run?
    ensures StoryOk(Next(s, step), Tell(s, step, st))
  {
    hide Ledger, QueueOk, ThreadOk, AllJustified, AnswersEnd, RestsEnd, LateEnds, SavesFit, FullQueueEnds, RunEffect,
         AllAttempts, SendEffect, FirstsFit, OneFlush, OneSend;
    if step.Send? {
      NewSendFits(s, step.whole, step.chunks, st);
      SendEffectExtends(s, step.whole, step.chunks);
    }
    StoryStays(s, Next(s, step), st, Tell(s, step, st));
  }

  lemma StartStory(enabled: bool, expire: int)
    ensures StoryOk(Start(enabled, expire), UNTOLD)
  {
    assert Named([]) == [] && QueuedIds([]) == [];
  }

  lemma EndedOnce(s: State, i: nat, j: nat)
    requires Ledger(s) && i < j < |s.history.ended|
    ensures s.history.ended[i] != s.history.ended[j]
  {
    var ended, x := s.history.ended, UnitToken(s.history.ended[i]);
    assert LedgerAt(s, x);
    assert ended == ended[..j] + ended[j..] && ended[..j][i] == x.id;
    UnitCountConcat(ended[..j], ended[j..], x);
    assert ended[j..][0] == ended[j];
  }

  ghost predicate ToldRun(enabled: bool, expire: int, steps: seq<Step>, s: State, st: Story) {
    var start := Start(enabled, expire);
    Possible(start, steps) && s == After(start, steps) && st == Told(start, steps, UNTOLD)
  }

  /** Over every run each ended unit has exactly one recorded reason, and the reason is justified. The other three
      clauses name the reasons that are always recorded. */
  lemma {:induction false} EveryEndHasOneReason(enabled: bool, expire: int, steps: seq<Step>, s: State, st: Story)
    requires ToldRun(enabled, expire, steps, s, st)
    ensures Named(st.endings) == s.history.ended
    ensures forall i, j | 0 <= i < j < |st.endings| :: st.endings[i].id != st.endings[j].id
    ensures AllJustified(s.env, s.history, st)
    ensures AnswersEnd(s.env, s.history.log, st.endings)
    ensures RestsEnd(s.env, s.history.log, st.firsts, st.endings)
    ensures FullQueueEnds(st)
  {
    hide ToldRun, Ledger, QueueOk, LogOk, ThreadOk, AllJustified, AnswersEnd, RestsEnd, FullQueueEnds;
    ToldRunsAreOk(enabled, expire);
    forall i, j | 0 <= i < j < |st.endings| ensures st.endings[i].id != st.endings[j].id {
      assert s.history.ended[i] == Named(st.endings)[i] && s.history.ended[j] == Named(st.endings)[j];
      EndedOnce(s, i, j);
    }
  }

  lemma ToldRunsAreOk(enabled: bool, expire: int)
    ensures forall steps, s, st | ToldRun(enabled, expire, steps, s, st) :: Inv(s) && StoryOk(s, st)
  {
    hide Inv, StoryOk;
    var start := Start(enabled, expire);
    StartInv(enabled, expire);
    StartStory(enabled, expire);
    forall steps, s, st | ToldRun(enabled, expire, steps, s, st) ensures Inv(s) && StoryOk(s, st) {
      AfterInv(start, steps);
      ToldOk(start, steps, UNTOLD);
    }
  }

  /** An attempt is its unit's end exactly if it gives the unit up. */
  lemma {:induction false} AnswerEndsIff(enabled: bool, expire: int, steps: seq<Step>, s: State, st: Story, i: nat)
    requires ToldRun(enabled, expire, steps, s, st) && i < |s.history.log|
    ensures Ending(s.history.log[i].id, Answered(i)) in st.endings <==> GaveUp(s.env, s.history.log[i])
  {
    hide ToldRun;
    EveryEndHasOneReason(enabled, expire, steps, s, st);
  }

  /** A unit ends behind an attempt exactly if the attempt gave up its own unit and the rest of its send, and the unit
      is a later one of that send. */
  lemma {:induction false} BehindIff(enabled: bool, expire: int, steps: seq<Step>, s: State, st: Story, k: nat, id: nat)
    requires ToldRun(enabled, expire, steps, s, st) && k < |s.history.log|
    ensures Ending(id, Behind(k)) in st.endings
       <==> GaveUpRest(s.env, s.history.log[k]) && SameSend(st.firsts, s.history.log[k].id, id)
  {
    hide ToldRun;
    EveryEndHasOneReason(enabled, expire, steps, s, st);
  }

  /** A unit ends too old by a take exactly if that take took this save of it too late and no goroutine holds it any
      more. */
  lemma {:induction false} TooOldIff(enabled: bool, expire: int, steps: seq<Step>, s: State, st: Story, save: nat,
                                     k: nat)
    requires ToldRun(enabled, expire, steps, s, st) && save < |st.saves|
    ensures Ending(st.saves[save], TooOld(save, k)) in st.endings
       <==> && TakenBy(st.takes, save, k) && Late(s.env, s.history, st, save, k)
            && Held(s.threads, UnitToken(st.saves[save])) == 0
  {
    hide ToldRun, LogOk, QueueOk, ThreadOk, TakenBy, Late, ToVisit, FullQueueEnds, AnswersEnd, RestsEnd, SavesFit;
    ToldRunsAreOk(enabled, expire);
    var x := UnitToken(st.saves[save]);
    if e :| e in st.endings && e == Ending(st.saves[save], TooOld(save, k)) {
      EndedIsUnheld(s, st, e);
    } else if TakenBy(st.takes, save, k) && Late(s.env, s.history, st, save, k) {
      var t :| 0 <= t < |s.threads| && ToVisit(st.takes, s.threads[t], save, k);
      ToVisitIsHeld(s, st, t, save, k);
      HeldBy(s.threads, t, x);
    }
  }

  lemma EndedIsUnheld(s: State, st: Story, e: Ending)
    requires Ledger(s) && Named(st.endings) == s.history.ended && e in st.endings
    ensures Held(s.threads, UnitToken(e.id)) == 0
  {
    assert LedgerAt(s, UnitToken(e.id));
    var i :| 0 <= i < |st.endings| && st.endings[i] == e;
    assert Named(st.endings)[i] == e.id;
  }

  lemma ToVisitIsHeld(s: State, st: Story, t: nat, save: nat, k: nat)
    requires t < |s.threads| && ThreadFits(s.history.log, st, s.threads[t])
    requires ToVisit(st.takes, s.threads[t], save, k) && TakenBy(st.takes, save, k) && save < |st.saves|
    ensures Weight(s.threads[t], UnitToken(st.saves[save])) > 0
  {
    var rest, last := s.threads[t].rest, st.takes[k].saves;
    var i := save - (last - |rest|);
    assert st.saves[last - |rest|..last][i] == st.saves[save];
    assert QueuedIds(rest)[i] == st.saves[save];
  }

  /** A unit that ended unanswered was never written: each of its attempts was "not sent". */
  lemma {:induction false} UnansweredIsUnwritten(enabled: bool, expire: int, steps: seq<Step>, s: State, st: Story,
                                                 k: nat, i: nat)
    requires ToldRun(enabled, expire, steps, s, st) && k < |st.endings| && i < |s.history.log|
    requires !st.endings[k].reason.Answered? && s.history.log[i].id == st.endings[k].id
    ensures s.history.log[i].outcome.NotSent?
    ensures s.history.log[i].frames == 0
  {
    hide Ledger, QueueOk, ThreadOk, Possible, After, Told;
    assert Reachable(s, enabled, expire);
    ReachableInv(enabled, expire);
    EveryEndHasOneReason(enabled, expire, steps, s, st);
    AnswerEndsIff(enabled, expire, steps, s, st, i);
    assert AttemptOk(s.env.expire, s.history, s.history.log[i]);
    forall j | 0 <= j < |st.endings| ensures st.endings[j] != Ending(s.history.log[i].id, Answered(i)) {
      assert j == k || st.endings[j].id != st.endings[k].id;
    }
  }

  /** A save is pushed out exactly if a hundred more come before a flush takes the queue. */
  lemma {:induction false} PushedOutIff(enabled: bool, expire: int, steps: seq<Step>, s: State, st: Story, save: nat)
    requires ToldRun(enabled, expire, steps, s, st) && save < |st.saves|
    ensures Ending(st.saves[save], PushedOut(save)) in st.endings
       <==> save + OFFLINE_QUEUE_MAX_SIZE < |st.saves| && Untaken(st.takes, save)
  {
    hide ToldRun, Untaken;
    EveryEndHasOneReason(enabled, expire, steps, s, st);
    if save + OFFLINE_QUEUE_MAX_SIZE < |st.saves| && Untaken(st.takes, save) {
      assert PushedOutAt(st, save);
    }
  }
}
