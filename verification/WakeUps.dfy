/** No lost wake-up: when the offline queue is not empty, something will look at it. */
module WakeUps {
  import opened Outcomes
  import Segments
  import OfflineQueue
  import opened DeliveryRuns
  import opened DeliverySafety

  /** A goroutine that will still schedule or perform a flush, unless the connection drops between
      the two reads of a timer firing. */
  predicate Responsible(thread: Thread) {
    match thread
    case SavingWhole(_) => true
    case SavingChunks(_) => true
    case Scheduling(_) => true
    case Arming(_) => true
    case TimerFired => true
    case CheckingStop => true
    case ReadingConnection => true
    case CheckingQueue => true
    case AwaitingMutex(byTimer) => byTimer
    case RereadingConnection(byTimer) => byTimer
    case Taking => true
    case Flushing(_, _, anyNotSent) => anyNotSent
    case _ => false
  }

  ghost predicate SomeResponsible(threads: seq<Thread>) {
    exists t | 0 <= t < |threads| :: Responsible(threads[t])
  }

  predicate Waiting(s: State) {
    s.env.enabled && !s.env.stopped && s.shared.queue != []
  }

  /** A waiting queue has an armed timer or a responsible goroutine. */
  ghost predicate Covered(s: State) {
    Waiting(s) ==> s.shared.armed > 0 || SomeResponsible(s.threads)
  }

  /** The timer callback read "connected" before waiting for the mutex and reads "not connected" now. */
  predicate ReadsDisagree(s: State, step: Step) {
    step.Run? && step.thread < |s.threads| && s.threads[step.thread] == RereadingConnection(true) && !s.env.connected
  }

  /** The callback gives up and nothing else will look at the queue. */
  ghost predicate Strands(s: State, step: Step) {
    && ReadsDisagree(s, step) && Waiting(s) && s.shared.armed == 0
    && forall u | 0 <= u < |s.threads| && u != step.thread :: !Responsible(s.threads[u])
  }

  /** A goroutine stops being responsible only when the queue is empty, a timer is armed, a flush is
      already scheduled, nothing needs to be sent any more, or the two reads disagree. */
  lemma ResponsibilityIsHandedOn(env: Env, thread: Thread, sh: Shared, h: History, outcome: Outcome, frames: nat)
    ensures var e := RunEffect(env, thread, sh, h, outcome, frames);
            && e.shared.armed >= sh.armed
            && (sh.queue == [] && e.shared.queue != [] ==> Responsible(e.thread))
            && (Responsible(thread) && !Responsible(e.thread) && env.enabled && !env.stopped && e.shared.queue != [] ==>
                  || e.shared.armed > 0
                  || (thread.Scheduling? && sh.scheduled)
                  || (thread == RereadingConnection(true) && !env.connected))
            && (thread.RereadingConnection? && !env.connected ==> !Responsible(e.thread) && e.shared == sh)
  {
    hide Segments.SegmentsOf;
  }

  lemma ScheduledIsCovered(s: State)
    requires Ledger(s) && s.shared.scheduled
    ensures s.shared.armed > 0 ||
            exists u | 0 <= u < |s.threads| :: Responsible(s.threads[u]) && Weight(s.threads[u], TimerToken) > 0
  {
    assert LedgerAt(s, TimerToken);
    if s.shared.armed == 0 {
      var u := Holder(s.threads, TimerToken);
    }
  }

  lemma RunStaysCovered(s: State, t: nat, outcome: Outcome, frames: nat)
    requires Ledger(s) && Covered(s) && Enabled(s, Run(t, outcome, frames))
    requires !Strands(s, Run(t, outcome, frames))
    ensures Covered(Next(s, Run(t, outcome, frames)))
  {
    hide RunEffect;
    var thread := s.threads[t];
    var s' := Next(s, Run(t, outcome, frames));
    ResponsibilityIsHandedOn(s.env, thread, s.shared, s.history, outcome, frames);
    if Waiting(s') && s'.shared.armed == 0 && !Responsible(s'.threads[t]) {
      if thread.Scheduling? && s.shared.scheduled {
        ScheduledIsCovered(s);
        var u :| 0 <= u < |s.threads| && Responsible(s.threads[u]) && Weight(s.threads[u], TimerToken) > 0;
        assert s'.threads[u] == s.threads[u];
      } else {
        var u :| 0 <= u < |s.threads| && u != t && Responsible(s.threads[u]);
        assert s'.threads[u] == s.threads[u];
      }
    }
  }

  lemma StrandingUncovers(s: State, step: Step)
    requires Enabled(s, step) && Strands(s, step)
    ensures !Covered(Next(s, step))
  {
    var t := step.thread;
    var s' := Next(s, step);
    ResponsibilityIsHandedOn(s.env, s.threads[t], s.shared, s.history, step.outcome, step.frames);
    hide RunEffect;
    forall u | 0 <= u < |s'.threads| ensures !Responsible(s'.threads[u]) {
      if u != t { assert s'.threads[u] == s.threads[u]; }
    }
  }

  lemma EnvironmentStaysCovered(s: State, step: Step)
    requires Covered(s) && Enabled(s, step) && !step.Run?
    ensures Covered(Next(s, step))
  {
    hide RunEffect, UnitsFrom;
    var s' := Next(s, step);
    if SomeResponsible(s.threads) {
      var t :| 0 <= t < |s.threads| && Responsible(s.threads[t]);
      assert s'.threads[t] == s.threads[t];
    }
    if step.Fire? {
      assert Responsible(s'.threads[|s.threads|]);
    }
  }

  /** The exact condition: one step loses the wake-up iff it is a timer callback whose second
      connectivity read disagrees with its first while nothing else covers a waiting queue. */
  lemma {:induction false} WakeUpIsLostIffStranded(s: State, step: Step, enabled: bool, expire: int)
    requires Reachable(s, enabled, expire) && Covered(s) && Enabled(s, step)
    ensures Covered(Next(s, step)) <==> !Strands(s, step)
  {
    hide Next;
    ReachableInv(enabled, expire);
    if Strands(s, step) {
      StrandingUncovers(s, step);
    } else if step.Run? {
      RunStaysCovered(s, step.thread, step.outcome, step.frames);
    } else {
      EnvironmentStaysCovered(s, step);
    }
  }

  /** No timer firing in the run sees its two connectivity reads disagree. */
  ghost predicate ReadsAgree(s: State, steps: seq<Step>)
    requires Possible(s, steps)
    decreases |steps|
  {
    steps == [] || (!ReadsDisagree(s, steps[0]) && ReadsAgree(Next(s, steps[0]), steps[1..]))
  }

  lemma {:induction false} AgreeingRunStaysCovered(s: State, steps: seq<Step>, enabled: bool, expire: int)
    requires Reachable(s, enabled, expire) && Covered(s)
    requires Possible(s, steps) && ReadsAgree(s, steps)
    ensures Covered(After(s, steps))
    decreases |steps|
  {
    hide Next, Covered, Reachable;
    if steps != [] {
      WakeUpIsLostIffStranded(s, steps[0], enabled, expire);
      var next := Follow(s, steps[0], enabled, expire);
      AgreeingRunStaysCovered(next, steps[1..], enabled, expire);
    }
  }

  /** No lost wake-up over whole runs. */
  lemma {:induction false} NoLostWakeUp(steps: seq<Step>, enabled: bool, expire: int)
    requires Possible(Start(enabled, expire), steps) && ReadsAgree(Start(enabled, expire), steps)
    ensures Covered(After(Start(enabled, expire), steps))
  {
    var s := Start(enabled, expire);
    assert Possible(s, []) && After(s, []) == s;
    AgreeingRunStaysCovered(s, steps, enabled, expire);
  }

  lemma {:induction false} AfterSnoc(s: State, steps: seq<Step>, step: Step)
    requires Possible(s, steps) && Enabled(After(s, steps), step)
    ensures Possible(s, steps + [step])
    ensures After(s, steps + [step]) == Next(After(s, steps), step)
    decreases |steps|
  {
    hide Next, Enabled;
    if steps == [] {
      assert [] + [step] == [step] && [step][1..] == [];
    } else {
      assert (steps + [step])[1..] == steps[1..] + [step];
      AfterSnoc(Next(s, steps[0]), steps[1..], step);
    }
  }

  /** One more step of a reachable state. */
  lemma Follow(s: State, step: Step, enabled: bool, expire: int) returns (next: State)
    requires Reachable(s, enabled, expire) && Enabled(s, step)
    ensures next == Next(s, step) && Reachable(next, enabled, expire)
  {
    hide Next, Enabled;
    var steps: seq<Step> :| Possible(Start(enabled, expire), steps) && After(Start(enabled, expire), steps) == s;
    AfterSnoc(Start(enabled, expire), steps, step);
    next := Next(s, step);
  }

  // ---- A run that strands a message ----

  /** Nothing is going on although the queue is not empty. */
  ghost predicate Stranded(s: State) {
    && s.shared.queue != [] && s.shared.armed == 0
    && forall t | 0 <= t < |s.threads| :: s.threads[t].Finished?
  }

  function Idle(t: nat): Step {
    Run(t, OtherError, 0)
  }

  /** One message is queued, with the state of a single timer firing. */
  ghost predicate OneQueued(s: State, connected: bool, scheduled: bool, armed: nat, threads: seq<Thread>) {
    var queue := [OfflineQueue.Queued(OfflineQueue.Unit(0, []), 0)];
    s == State(Env(true, s.env.expire, 0, connected, false), Shared(queue, scheduled, armed, false), s.history, threads)
  }

  lemma QueueOne(expire: int) returns (s: State)
    ensures Reachable(s, true, expire)
    ensures OneQueued(s, false, true, 1, [Finished])
  {
    s := Start(true, expire);
    assert Possible(s, []) && After(s, []) == s;
    s := Follow(s, Send([], []), true, expire);
    assert s.threads == [SavingWhole(OfflineQueue.Unit(0, []))];
    s := Follow(s, Idle(0), true, expire);
    assert OneQueued(s, false, false, 0, [Scheduling(false)]);
    s := Follow(s, Idle(0), true, expire);
    assert OneQueued(s, false, true, 0, [Arming(false)]);
    s := Follow(s, Idle(0), true, expire);
  }

  /** A timer fires while the connection flickers; afterwards the connection is up and the queued
      message has nobody to send it. */
  lemma {:induction false} FlickerStrands(expire: int) returns (s: State)
    ensures Reachable(s, true, expire)
    ensures Stranded(s)
    ensures Waiting(s)
    ensures s.env.connected
  {
    hide Reachable;
    s := QueueOne(expire);
    s := Follow(s, Fire, true, expire);
    assert OneQueued(s, false, true, 0, [Finished, TimerFired]);
    s := Follow(s, Idle(1), true, expire);
    assert OneQueued(s, false, false, 0, [Finished, CheckingStop]);
    s := Follow(s, Idle(1), true, expire);
    assert OneQueued(s, false, false, 0, [Finished, ReadingConnection]);
    s := Follow(s, SetConnected(true), true, expire);
    assert OneQueued(s, true, false, 0, [Finished, ReadingConnection]);
    s := Follow(s, Idle(1), true, expire);
    assert OneQueued(s, true, false, 0, [Finished, AwaitingMutex(true)]);
    s := Follow(s, Idle(1), true, expire);
    s := Follow(s, SetConnected(false), true, expire);
    assert s.threads == [Finished, RereadingConnection(true)];
    s := Follow(s, Idle(1), true, expire);
    s := Follow(s, Idle(1), true, expire);
    assert OneQueued(s, false, false, 0, [Finished, Finished]);
    s := Follow(s, SetConnected(true), true, expire);
  }

  /** From a stranded state, time, connectivity changes and goroutines achieve nothing: only a new
      send or an offline-to-online event can move the queued messages again. */
  lemma {:induction false} StrandedUntilNextEvent(s: State, steps: seq<Step>)
    requires Stranded(s) && Possible(s, steps)
    requires forall i | 0 <= i < |steps| :: !steps[i].Send? && !steps[i].Reconnect?
    ensures Stranded(After(s, steps))
    ensures After(s, steps).shared.queue == s.shared.queue
    ensures After(s, steps).history.log == s.history.log
    decreases |steps|
  {
    if steps != [] {
      StrandedStep(s, steps[0]);
      hide Next, Enabled, Stranded;
      StrandedUntilNextEvent(Next(s, steps[0]), steps[1..]);
    }
  }

  lemma StrandedStep(s: State, step: Step)
    requires Stranded(s) && Enabled(s, step) && !step.Send? && !step.Reconnect?
    ensures var s' := Next(s, step);
            && Stranded(s')
            && s'.shared.queue == s.shared.queue
            && s'.history.log == s.history.log
  {
    hide SendChunk, FlushOne, Enter;
  }
}
