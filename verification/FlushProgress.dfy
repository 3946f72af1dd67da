/** Whoever is to look at the offline queue gets to it (adapter/messenger.go). */
module FlushProgress {
  import opened Outcomes
  import Segments
  import opened DeliveryRuns
  import opened DeliverySafety
  import opened WakeUps

  /** A step of the program itself: a timer fires, or a goroutine that has not finished goes on. */
  predicate Moves(s: State, step: Step) {
    && Enabled(s, step)
    && (step.Fire? || (step.Run? && !s.threads[step.thread].Finished?))
  }

  ghost predicate CanMove(s: State) {
    exists step :: Moves(s, step)
  }

  predicate Takes(s: State, step: Step) {
    step.Run? && step.thread < |s.threads| && s.threads[step.thread].Taking? && s.shared.queue != []
  }

  /** Only such steps, in any order and with any answers of the adapter, none of which takes a waiting queue. */
  ghost predicate Idles(s: State, steps: seq<Step>)
    requires Possible(s, steps)
    decreases |steps|
  {
    steps == [] || (Moves(s, steps[0]) && !Takes(s, steps[0]) && Idles(Next(s, steps[0]), steps[1..]))
  }

  /** The connection is up and the queue is to be flushed. */
  predicate Ready(s: State) {
    Waiting(s) && s.env.connected
  }

  // ---- Who will take the queue ----

  /** Responsible, or in a flush that has not yet taken the queue. */
  predicate Attends(thread: Thread) {
    Responsible(thread) || thread.AwaitingMutex? || thread.RereadingConnection?
  }

  ghost predicate Attended(s: State) {
    s.shared.armed > 0 || exists t | 0 <= t < |s.threads| :: Attends(s.threads[t])
  }

  /** How many steps are left, at most, until the goroutine has finished or takes the queue. */
  function StepsLeft(thread: Thread): nat {
    match thread
    case Finished => 0
    case Unlocking => 1
    case Taking => 2
    case RereadingConnection(_) => 3
    case AwaitingMutex(_) => 4
    case ReadingConnection => 5
    case CheckingStop => 6
    case TimerFired => 7
    case Arming(_) => 10
    case Scheduling(_) => 11
    case CheckingQueue => 12
    case SavingWhole(_) => 12
    case SavingChunks(chunks) => 12 + |chunks|
    case Sending(chunks) => 13 + 2 * |chunks|
    case Flushing(rest, _, _) => 12 + |rest|
  }

  function AllStepsLeft(threads: seq<Thread>): nat {
    if threads == [] then 0 else AllStepsLeft(threads[..|threads| - 1]) + StepsLeft(threads[|threads| - 1])
  }

  /** An armed timer counts one more than the goroutine it starts. */
  function Rank(s: State): nat {
    AllStepsLeft(s.threads) + 8 * s.shared.armed
  }

  lemma {:induction false} StepsLeftUpdate(threads: seq<Thread>, t: nat, thread: Thread)
    requires t < |threads|
    ensures AllStepsLeft(threads[t := thread]) + StepsLeft(threads[t]) == AllStepsLeft(threads) + StepsLeft(thread)
  {
    hide StepsLeft;
    var n := |threads| - 1;
    var updated := threads[t := thread];
    if t == n {
      assert updated[..n] == threads[..n];
    } else {
      assert updated[..n] == threads[..n][t := thread];
      StepsLeftUpdate(threads[..n], t, thread);
    }
  }

  // ---- One step ----

  lemma EffectCounts(env: Env, thread: Thread, sh: Shared, h: History, outcome: Outcome, frames: nat)
    requires env.enabled && !env.stopped && env.connected && sh.queue != [] && !thread.Finished? && !thread.Taking?
    ensures
      var e := RunEffect(env, thread, sh, h, outcome, frames);
      && StepsLeft(e.thread) + 8 * e.shared.armed < StepsLeft(thread) + 8 * sh.armed
      && e.shared.queue != []
      && (Attends(thread) ==>
            Attends(e.thread) || e.shared.armed > 0 || (thread.Scheduling? && sh.scheduled))
      && e.shared.armed >= sh.armed
  {
    hide Segments.SegmentsOf;
  }

  lemma RunCounts(s: State, t: nat, outcome: Outcome, frames: nat)
    requires Ready(s) && Moves(s, Run(t, outcome, frames)) && !Takes(s, Run(t, outcome, frames))
    ensures
      var s' := Next(s, Run(t, outcome, frames));
      Ready(s') && Rank(s') < Rank(s)
  {
    hide RunEffect, StepsLeft;
    EffectCounts(s.env, s.threads[t], s.shared, s.history, outcome, frames);
    StepsLeftUpdate(s.threads, t, RunEffect(s.env, s.threads[t], s.shared, s.history, outcome, frames).thread);
  }

  lemma RunStaysAttended(s: State, t: nat, outcome: Outcome, frames: nat)
    requires Ledger(s) && Attended(s)
    requires Ready(s) && Moves(s, Run(t, outcome, frames)) && !Takes(s, Run(t, outcome, frames))
    ensures Attended(Next(s, Run(t, outcome, frames)))
  {
    hide RunEffect, Ledger, Attends;
    var s' := Next(s, Run(t, outcome, frames));
    EffectCounts(s.env, s.threads[t], s.shared, s.history, outcome, frames);
    if s'.shared.armed == 0 {
      var u :| 0 <= u < |s.threads| && Attends(s.threads[u]);
      if u != t {
        assert s'.threads[u] == s.threads[u];
      } else if s.threads[t].Scheduling? && s.shared.scheduled {
        ScheduledIsAttended(s, t);
        var v :| 0 <= v < |s.threads| && v != t && Attends(s.threads[v]);
        assert s'.threads[v] == s.threads[v];
      } else {
        assert Attends(s'.threads[t]);
      }
    }
  }

  lemma ScheduledIsAttended(s: State, t: nat)
    requires Ledger(s) && s.shared.scheduled && s.shared.armed == 0 && t < |s.threads| && s.threads[t].Scheduling?
    ensures exists v | 0 <= v < |s.threads| && v != t :: Attends(s.threads[v])
  {
    hide Ledger;
    ScheduledIsCovered(s);
    var v :| 0 <= v < |s.threads| && Responsible(s.threads[v]) && Weight(s.threads[v], TimerToken) > 0;
    assert v != t;
  }

  /** While somebody attends, somebody can go on. */
  lemma SomebodyMoves(s: State)
    requires Ledger(s) && Attended(s)
    ensures CanMove(s)
  {
    hide Weight;
    if s.shared.armed > 0 {
      assert Moves(s, Fire);
    } else {
      var t :| 0 <= t < |s.threads| && Attends(s.threads[t]);
      if s.threads[t].AwaitingMutex? && s.shared.locked {
        assert LedgerAt(s, MutexToken);
        var u := Holder(s.threads, MutexToken);
        HoldersRun(s.threads[u]);
        assert Moves(s, Run(u, OtherError, 0));
      } else {
        assert Moves(s, Run(t, OtherError, 0));
      }
    }
  }

  lemma HoldersRun(thread: Thread)
    requires Weight(thread, MutexToken) > 0
    ensures !thread.Finished? && !thread.AwaitingMutex?
  {
  }

  // ---- Every schedule ----

  /** However the goroutines are scheduled and the adapter answers, an attended queue is taken after at most as many
      steps as are left, and until then somebody can always go on. */
  lemma {:induction false} EveryScheduleTakes(s: State, steps: seq<Step>, enabled: bool, expire: int)
    requires Reachable(s, enabled, expire) && Ready(s) && Attended(s)
    requires Possible(s, steps) && Idles(s, steps)
    ensures |steps| <= Rank(s)
    ensures CanMove(After(s, steps))
    decreases |steps|
  {
    hide Reachable, Next, Enabled, Attended, Ledger, Moves, Rank, Ready, CanMove;
    ReachableInv(enabled, expire);
    if steps == [] {
      SomebodyMoves(s);
    } else {
      StepStays(s, steps[0]);
      var next := Follow(s, steps[0], enabled, expire);
      EveryScheduleTakes(next, steps[1..], enabled, expire);
      assert After(s, steps) == After(next, steps[1..]);
    }
  }

  lemma StepStays(s: State, step: Step)
    requires Ledger(s) && Ready(s) && Attended(s) && Moves(s, step) && !Takes(s, step)
    ensures Enabled(s, step)
    ensures Ready(Next(s, step))
    ensures Attended(Next(s, step))
    ensures Rank(Next(s, step)) < Rank(s)
  {
    if step.Fire? {
      assert Attends(Next(s, step).threads[|s.threads|]);
    } else {
      hide RunEffect, Ledger, Attended, Rank, Attends;
      RunCounts(s, step.thread, step.outcome, step.frames);
      RunStaysAttended(s, step.thread, step.outcome, step.frames);
    }
  }

  /** A schedule of timers and goroutines alone, within the bound, ends with the queue being taken. */
  ghost predicate CanBeTaken(s: State) {
    exists steps: seq<Step>, take: Step :: EndsInTake(s, steps, take)
  }

  ghost predicate EndsInTake(s: State, steps: seq<Step>, take: Step) {
    && Possible(s, steps) && Idles(s, steps) && |steps| <= Rank(s)
    && Moves(After(s, steps), take) && Takes(After(s, steps), take)
  }

  /** So a waiting queue that a timer or a responsible goroutine covers can be taken by them alone. */
  lemma {:induction false} CoveredQueueIsTaken(s: State, enabled: bool, expire: int)
    requires Reachable(s, enabled, expire) && Ready(s) && Covered(s)
    ensures CanBeTaken(s)
  {
    hide Reachable, Next, Enabled, Ledger, Moves, Rank, CanMove, Takes, Attends, CanBeTaken;
    if SomeResponsible(s.threads) { ResponsibleAttends(s.threads); }
    AttendedQueueIsTaken(s, enabled, expire);
  }

  lemma ResponsibleAttends(threads: seq<Thread>)
    requires SomeResponsible(threads)
    ensures exists t | 0 <= t < |threads| :: Attends(threads[t])
  {
    var t :| 0 <= t < |threads| && Responsible(threads[t]);
    assert Attends(threads[t]);
  }

  lemma {:induction false} AttendedQueueIsTaken(s: State, enabled: bool, expire: int)
    requires Reachable(s, enabled, expire) && Ready(s) && Attended(s)
    ensures CanBeTaken(s)
    decreases Rank(s)
  {
    hide Reachable, Next, Enabled, Attended, Ledger, Moves, Rank, Ready, Takes;
    ReachableInv(enabled, expire);
    SomebodyMoves(s);
    var step :| Moves(s, step);
    if Takes(s, step) {
      assert After(s, []) == s && EndsInTake(s, [], step);
    } else {
      StepStays(s, step);
      var next := Follow(s, step, enabled, expire);
      AttendedQueueIsTaken(next, enabled, expire);
      var rest, take :| EndsInTake(next, rest, take);
      var steps := [step] + rest;
      assert steps[1..] == rest && After(s, steps) == After(next, rest);
      assert EndsInTake(s, steps, take);
    }
  }

  // ---- A queue that nobody attends ----

  /** With nobody attending, a goroutine that goes on touches neither queue nor timer, unless an answer sends its own
      chunks to the queue. */
  lemma UnattendedGoesOn(env: Env, thread: Thread, sh: Shared, h: History)
    requires !Attends(thread) && !thread.Finished?
    ensures
      var e := RunEffect(env, thread, sh, h, OtherError, 0);
      && !Attends(e.thread)
      && StepsLeft(e.thread) < StepsLeft(thread)
      && e.shared.queue == sh.queue && e.shared.armed == sh.armed
  {
    hide Segments.SegmentsOf;
  }

  /** Otherwise there is a schedule that takes nothing and after which everybody has finished. */
  ghost predicate CanStrand(s: State) {
    exists steps: seq<Step> :: Possible(s, steps) && Idles(s, steps) && Stranded(After(s, steps))
  }

  lemma {:induction false} UnattendedCanStrand(s: State)
    requires Ready(s) && !Attended(s)
    ensures CanStrand(s)
    decreases Rank(s)
  {
    hide RunEffect, Attends, StepsLeft;
    if t: nat :| t < |s.threads| && !s.threads[t].Finished? {
      var step := Run(t, OtherError, 0);
      AwaitingAttends(s.threads[t]);
      UnattendedGoesOn(s.env, s.threads[t], s.shared, s.history);
      StepsLeftUpdate(s.threads, t, RunEffect(s.env, s.threads[t], s.shared, s.history, OtherError, 0).thread);
      var next := Next(s, step);
      forall u | 0 <= u < |next.threads| ensures !Attends(next.threads[u]) { }
      UnattendedCanStrand(next);
      var rest: seq<Step> :| Possible(next, rest) && Idles(next, rest) && Stranded(After(next, rest));
      var steps := [step] + rest;
      assert steps[1..] == rest && After(s, steps) == After(next, rest);
    } else {
      assert Possible(s, []) && After(s, []) == s;
    }
  }

  lemma AwaitingAttends(thread: Thread)
    ensures thread.AwaitingMutex? || thread.Taking? ==> Attends(thread)
  {
  }

  /** The exact condition: a queue ready to be flushed is attended iff no schedule gets stuck before it is taken. */
  lemma {:induction false} AttendedIff(s: State, enabled: bool, expire: int)
    requires Reachable(s, enabled, expire) && Ready(s)
    ensures Attended(s) <==>
      forall steps: seq<Step> | Possible(s, steps) && Idles(s, steps) :: CanMove(After(s, steps))
  {
    hide Reachable, Next, Enabled, Attended, Moves, Rank, Ready, CanMove, Idles, Possible, After;
    if Attended(s) {
      forall steps: seq<Step> | Possible(s, steps) && Idles(s, steps) ensures CanMove(After(s, steps)) {
        EveryScheduleTakes(s, steps, enabled, expire);
      }
    } else {
      UnattendedCanStrand(s);
      var steps: seq<Step> :| Possible(s, steps) && Idles(s, steps) && Stranded(After(s, steps));
      StrandedCannotMove(After(s, steps));
    }
  }

  lemma StrandedCannotMove(s: State)
    requires Stranded(s)
    ensures !CanMove(s)
  {
  }

  // ---- What moves a stranded queue ----

  /** A reconnect always brings a goroutine to the queue, so the queue can be taken, stranded or not. */
  lemma {:induction false} ReconnectRecovers(s: State, enabled: bool, expire: int)
    requires Reachable(s, enabled, expire) && Ready(s)
    ensures Attended(Next(s, Reconnect))
    ensures CanBeTaken(Next(s, Reconnect))
  {
    hide Reachable, CanBeTaken;
    var next := Follow(s, Reconnect, enabled, expire);
    assert Attends(next.threads[|s.threads|]);
    AttendedQueueIsTaken(next, enabled, expire);
  }

  lemma OneMoreStep(s: State, step: Step)
    requires Ready(s) && step.Run? && Moves(s, step) && !Takes(s, step) && CanBeTaken(Next(s, step))
    ensures CanBeTaken(s)
  {
    hide Ready, Rank, Takes, Next, Enabled;
    RunCounts(s, step.thread, step.outcome, step.frames);
    var rest, take :| EndsInTake(Next(s, step), rest, take);
    var steps := [step] + rest;
    assert steps[1..] == rest;
    assert After(s, steps) == After(Next(s, step), rest);
    assert EndsInTake(s, steps, take);
  }

  /** A new direct send comes to see to the queue if its first chunk is not sent. */
  lemma SendCanRecover(s: State, whole: seq<Segments.Element>, chunks: seq<seq<Segments.Element>>, enabled: bool,
                       expire: int)
    requires Reachable(s, enabled, expire) && Ready(s) && chunks != []
    ensures CanBeTaken(Next(s, Send(whole, chunks)))
  {
    hide Reachable, Segments.SegmentsOf, CanBeTaken, Rank;
    var sent := Follow(s, Send(whole, chunks), enabled, expire);
    var step := Run(|s.threads|, NotSent, 0);
    assert sent.threads[|s.threads|].Sending? && Ready(sent) && Moves(sent, step);
    var next := Follow(sent, step, enabled, expire);
    assert Attends(next.threads[|s.threads|]) && Ready(next);
    AttendedQueueIsTaken(next, enabled, expire);
    OneMoreStep(sent, step);
  }

  lemma StrandedIsNotTaken(s: State)
    requires Stranded(s)
    ensures !CanBeTaken(s)
  {
    StrandedCannotMove(s);
    forall steps: seq<Step>, take ensures !EndsInTake(s, steps, take) {
      assert !Moves(s, take) && (steps != [] ==> !Moves(s, steps[0]));
    }
  }

  /** The exact condition: one step gives a stranded queue a way to be taken iff it is a reconnect or a new message. */
  lemma {:induction false} RecoversIff(s: State, step: Step, enabled: bool, expire: int)
    requires Reachable(s, enabled, expire) && Ready(s) && Stranded(s) && Enabled(s, step)
    ensures CanBeTaken(Next(s, step)) <==> step.Reconnect? || (step.Send? && step.chunks != [])
  {
    hide Reachable, CanBeTaken, RunEffect, Enabled;
    if step.Reconnect? {
      ReconnectRecovers(s, enabled, expire);
    } else if step.Send? {
      if step.chunks != [] {
        SendCanRecover(s, step.whole, step.chunks, enabled, expire);
      } else {
        assert Stranded(Next(s, step));
        StrandedIsNotTaken(Next(s, step));
      }
    } else {
      StrandedStep(s, step);
      StrandedIsNotTaken(Next(s, step));
    }
  }
}
