/** What the clock, the connection and Stop do to the offline queue (adapter/messenger.go). */
module OutsideEvents {
  import opened Outcomes
  import Segments
  import OfflineQueue
  import opened DeliveryRuns
  import opened DeliverySafety
  import opened WakeUps

  // ---- The connection ----

  /** A timer callback that found the connection up at its first read. */
  predicate BetweenReads(thread: Thread) {
    thread == AwaitingMutex(true) || thread == RereadingConnection(true)
  }

  ghost predicate NobodyBetween(s: State) {
    forall t | 0 <= t < |s.threads| :: !BetweenReads(s.threads[t])
  }

  /** The connection never drops while a callback is between its two reads. */
  ghost predicate QuietRun(s: State, steps: seq<Step>)
    requires Possible(s, steps)
    decreases |steps|
  {
    || steps == []
    || ((steps[0] == SetConnected(false) ==> NobodyBetween(s)) && QuietRun(Next(s, steps[0]), steps[1..]))
  }

  lemma ReadComesFirst(env: Env, thread: Thread, sh: Shared, h: History, outcome: Outcome, frames: nat)
    requires !env.connected && !BetweenReads(thread)
    ensures !BetweenReads(RunEffect(env, thread, sh, h, outcome, frames).thread)
  {
    hide Segments.SegmentsOf, OfflineQueue.Saved;
  }

  lemma QuietStep(s: State, step: Step)
    requires Enabled(s, step) && (!s.env.connected ==> NobodyBetween(s))
    requires step == SetConnected(false) ==> NobodyBetween(s)
    ensures !ReadsDisagree(s, step)
    ensures !Next(s, step).env.connected ==> NobodyBetween(Next(s, step))
  {
    hide RunEffect;
    if step.Run? && !s.env.connected {
      ReadComesFirst(s.env, s.threads[step.thread], s.shared, s.history, step.outcome, step.frames);
    }
  }

  lemma {:induction false} QuietReadsAgree(s: State, steps: seq<Step>)
    requires Possible(s, steps) && QuietRun(s, steps) && (!s.env.connected ==> NobodyBetween(s))
    ensures ReadsAgree(s, steps)
    decreases |steps|
  {
    hide Next, Enabled, NobodyBetween, ReadsDisagree;
    if steps != [] {
      QuietStep(s, steps[0]);
      QuietReadsAgree(Next(s, steps[0]), steps[1..]);
    }
  }

  /** No wake-up is lost in any run whose connection never drops between a callback's reads: in particular offline
      callbacks keep waiting for the connection. */
  lemma {:induction false} QuietRunsLoseNothing(steps: seq<Step>, enabled: bool, expire: int)
    requires Possible(Start(enabled, expire), steps) && QuietRun(Start(enabled, expire), steps)
    ensures Covered(After(Start(enabled, expire), steps))
  {
    hide Next, Enabled, Covered, ReadsAgree, QuietRun, Possible, After;
    QuietReadsAgree(Start(enabled, expire), steps);
    NoLostWakeUp(steps, enabled, expire);
  }

  // ---- Stop ----

  predicate EndsQuietly(thread: Thread) {
    thread.TimerFired? || thread.CheckingStop? || thread.Finished?
  }

  /** Stop lasts, and a timer that fires after it does nothing: its goroutine only ends. */
  lemma {:induction false} StopEndsTimers(s: State, steps: seq<Step>, t: nat)
    requires s.env.stopped && Possible(s, steps) && t < |s.threads| && EndsQuietly(s.threads[t])
    ensures After(s, steps).env.stopped
    ensures t < |After(s, steps).threads|
    ensures EndsQuietly(After(s, steps).threads[t])
    decreases |steps|
  {
    if steps != [] {
      StoppedStep(s, steps[0], t);
      hide Next, Enabled;
      StopEndsTimers(Next(s, steps[0]), steps[1..], t);
    }
  }

  lemma StoppedStep(s: State, step: Step, t: nat)
    requires s.env.stopped && Enabled(s, step) && t < |s.threads| && EndsQuietly(s.threads[t])
    ensures Next(s, step).env.stopped
    ensures t < |Next(s, step).threads|
    ensures EndsQuietly(Next(s, step).threads[t])
  {
    hide SendChunk, FlushOne, Enter, UnitsFrom;
  }

  /** After Stop, whenever a timer fires, now or later, its goroutine has nothing to do but end. */
  lemma {:induction false} NothingFlushesAfterStop(s: State, before: seq<Step>, after: seq<Step>)
    requires Possible(Next(s, Stop), before) && Enabled(After(Next(s, Stop), before), Fire)
    requires Possible(Next(After(Next(s, Stop), before), Fire), after)
    ensures
      var t := |After(Next(s, Stop), before).threads|;
      var end := After(Next(After(Next(s, Stop), before), Fire), after);
      t < |end.threads| && EndsQuietly(end.threads[t])
  {
    hide After, Possible;
    StaysStopped(Next(s, Stop), before);
    var stopped := After(Next(s, Stop), before);
    StopEndsTimers(Next(stopped, Fire), after, |stopped.threads|);
  }

  lemma {:induction false} StaysStopped(s: State, steps: seq<Step>)
    requires s.env.stopped && Possible(s, steps)
    ensures After(s, steps).env.stopped
    decreases |steps|
  {
    hide RunEffect, Enabled, UnitsFrom;
    if steps != [] { StaysStopped(Next(s, steps[0]), steps[1..]); }
  }

  // ---- The clock ----

  /** One message queued whole at time 0, its timer armed, its sender done. */
  function OneWaits(whole: seq<Segments.Element>, expire: int): State {
    var queue := [OfflineQueue.Queued(OfflineQueue.Unit(0, whole), 0)];
    State(Env(true, expire, 0, false, false), Shared(queue, true, 1, false),
          History([whole], map[0 := 0], queue, [], []), [Finished])
  }

  lemma OneWaitsIsReachable(whole: seq<Segments.Element>, expire: int)
    ensures Reachable(OneWaits(whole, expire), true, expire)
  {
    hide Reachable;
    var s := StartIsReachable(expire);
    var unit := OfflineQueue.Unit(0, whole);
    s := Follow(s, Send(whole, []), true, expire);
    assert s.threads == [SavingWhole(unit)] && s.history == History([whole], map[], [], [], []);
    s := Follow(s, Idle(0), true, expire);
    assert s.threads == [Scheduling(false)] && s.history == OneWaits(whole, expire).history;
    s := Follow(s, Idle(0), true, expire);
    assert s.threads == [Arming(false)];
    s := Follow(s, Idle(0), true, expire);
    assert s == OneWaits(whole, expire);
  }

  /** A message queued while offline, left there for a while, and found by the flush after a reconnect: it is attempted
      once if it has not expired by then, and never if it has. */
  lemma {:induction false} AttemptedIffNotExpired(whole: seq<Segments.Element>, elapsed: nat, expire: int)
    returns (s: State)
    ensures Reachable(s, true, expire)
    ensures s.history.ended == [0] && s.env.now == elapsed
    ensures |s.history.log| == if elapsed <= expire then 1 else 0
  {
    hide Reachable, Segments.SegmentsOf;
    OneWaitsIsReachable(whole, expire);
    var queue := OneWaits(whole, expire).shared.queue;
    s := Follow(OneWaits(whole, expire), Tick(elapsed), true, expire);
    s := Follow(s, SetConnected(true), true, expire);
    s := Follow(s, Reconnect, true, expire);
    assert s.threads == [Finished, AwaitingMutex(false)] && s.env == Env(true, expire, elapsed, true, false);
    s := Follow(s, Idle(1), true, expire);
    assert s.threads == [Finished, RereadingConnection(false)] && s.shared == Shared(queue, true, 1, true);
    s := Follow(s, Idle(1), true, expire);
    assert s.threads == [Finished, Taking];
    s := Follow(s, Idle(1), true, expire);
    assert s.threads == [Finished, Flushing(queue, elapsed, false)] && s.history.ended == [] && s.history.log == [];
    LastVisit(s, queue, elapsed);
    s := Follow(s, Run(1, Sent, 1), true, expire);
  }

  lemma LastVisit(s: State, queue: seq<OfflineQueue.Queued>, started: int)
    requires |s.threads| == 2 && s.threads[1] == Flushing(queue, started, false) && queue != []
    requires s.history.ended == [] && s.history.log == []
    ensures
      var s' := Next(s, Run(1, Sent, 1));
      && s'.history.ended == [queue[0].unit.id] && s'.env == s.env
      && |s'.history.log| == if started - queue[0].createdAt <= s.env.expire then 1 else 0
  {
  }

  lemma StartIsReachable(expire: int) returns (s: State)
    ensures s == Start(true, expire) && Reachable(s, true, expire)
  {
    s := Start(true, expire);
    assert Possible(s, []) && After(s, []) == s;
  }
}
