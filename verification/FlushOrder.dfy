/** Flushes attempt what was saved in the order it was saved (adapter/messenger.go). */
module FlushOrder {
  import opened Common
  import opened Outcomes
  import Segments
  import opened OfflineQueue
  import opened DeliveryRuns
  import opened DeliverySafety

  /** Every save of a run in order, numbered by place; the numbers of the queued entries, of the entries the running
      flush still has to visit, and of the entries flushes have attempted. */
  datatype Order = Order(saves: seq<Queued>, queue: seq<nat>, rest: seq<nat>, tried: seq<nat>)

  const NOTHING := Order([], [], [], [])

  /** What the next step of a goroutine saves: a sender's unit for the first time, or a unit a flush puts back. */
  function SavedBy(env: Env, thread: Thread, outcome: Outcome): Option<Queued> {
    match thread
    case SavingWhole(whole) => Some(Queued(whole, env.now))
    case SavingChunks(chunks) => if chunks == [] then None else Some(Queued(chunks[0], env.now))
    case Flushing(rest, _, _) =>
      if Attempts(env, thread) && outcome.NotSent? then Some(rest[0]) else None
    case _ => None
  }

  /** The next step of this flush attempts an entry. */
  predicate Attempts(env: Env, thread: Thread) {
    thread.Flushing? && thread.rest != [] && !Expired(thread.rest[0], thread.started, env.expire)
  }

  function AfterSave(o: Order, msg: Queued): Order {
    var kept := if |o.queue| >= OFFLINE_QUEUE_MAX_SIZE then o.queue[1..] else o.queue;
    o.(saves := o.saves + [msg], queue := kept + [|o.saves|])
  }

  function AfterVisit(env: Env, thread: Thread, o: Order): Order {
    match thread
    case Taking => o.(rest := o.queue, queue := [])
    case Flushing(rest, _, _) =>
      if rest == [] || o.rest == [] then o
      else o.(rest := o.rest[1..], tried := if Attempts(env, thread) then o.tried + [o.rest[0]] else o.tried)
    case _ => o
  }

  function Track(s: State, step: Step, o: Order): Order {
    if !step.Run? || step.thread >= |s.threads| then o else
    var thread := s.threads[step.thread];
    var visited := AfterVisit(s.env, thread, o);
    match SavedBy(s.env, thread, step.outcome)
    case None => visited
    case Some(msg) => AfterSave(visited, msg)
  }

  ghost function Tracked(s: State, steps: seq<Step>, o: Order): Order
    requires Possible(s, steps)
    decreases |steps|
  {
    if steps == [] then o else Tracked(Next(s, steps[0]), steps[1..], Track(s, steps[0], o))
  }

  // ---- The numbers fit the machine ----

  ghost predicate Increasing(numbers: seq<nat>) {
    forall i, j | 0 <= i < j < |numbers| :: numbers[i] < numbers[j]
  }

  ghost predicate Below(numbers: seq<nat>, n: nat) {
    forall i | 0 <= i < |numbers| :: numbers[i] < n
  }

  ghost predicate Numbers(saves: seq<Queued>, numbers: seq<nat>, msgs: seq<Queued>) {
    |numbers| == |msgs| && forall i | 0 <= i < |msgs| :: numbers[i] < |saves| && saves[numbers[i]] == msgs[i]
  }

  function All(o: Order): seq<nat> {
    o.tried + o.rest + o.queue
  }

  ghost predicate Ordered(o: Order) {
    Increasing(All(o)) && Below(All(o), |o.saves|)
  }

  ghost predicate ThreadsFit(threads: seq<Thread>, o: Order) {
    && (forall t | 0 <= t < |threads| && threads[t].Flushing? :: Numbers(o.saves, o.rest, threads[t].rest))
    && ((forall t | 0 <= t < |threads| :: !threads[t].Flushing?) ==> o.rest == [])
  }

  /** The units of the flush attempts, in order. */
  function FlushIds(log: seq<Attempt>): seq<nat> {
    if log == [] then [] else
    FlushIds(log[..|log| - 1]) + if log[|log| - 1].started.Some? then [log[|log| - 1].id] else []
  }

  function IdsOf(saves: seq<Queued>, numbers: seq<nat>): (ids: seq<nat>)
    ensures |ids| == |numbers|
  {
    seq(|numbers|, i requires 0 <= i < |numbers| => if numbers[i] < |saves| then saves[numbers[i]].unit.id else 0)
  }

  ghost predicate OrderOk(s: State, o: Order) {
    && Ordered(o)
    && Numbers(o.saves, o.queue, s.shared.queue)
    && ThreadsFit(s.threads, o)
    && FlushIds(s.history.log) == IdsOf(o.saves, o.tried)
  }

  // ---- What one step does ----

  lemma EffectOnMessages(env: Env, thread: Thread, sh: Shared, h: History, outcome: Outcome, frames: nat)
    ensures
      var e := RunEffect(env, thread, sh, h, outcome, frames);
      && e.shared.queue == (match SavedBy(env, thread, outcome)
           case Some(msg) => Saved(sh.queue, msg)
           case None => if thread.Taking? then [] else sh.queue)
      && (e.thread.Flushing? <==> (thread.Flushing? && thread.rest != []) || (thread.Taking? && sh.queue != []))
      && (e.thread.Flushing? ==> e.thread.rest == if thread.Taking? then sh.queue else thread.rest[1..])
  {
    hide Segments.SegmentsOf, Saved;
  }

  lemma EffectOnFlushIds(env: Env, thread: Thread, sh: Shared, h: History, outcome: Outcome, frames: nat)
    requires Entering(thread).Some? ==> Entering(thread).value.id !in h.born
    ensures FlushIds(RunEffect(env, thread, sh, h, outcome, frames).history.log)
         == FlushIds(h.log) + if Attempts(env, thread) then [thread.rest[0].unit.id] else []
  {
    hide RunEffect, Segments.SegmentsOf;
    EffectOnHistory(env, thread, sh, h, outcome, frames);
    assert FlushIds(h.log) + [] == FlushIds(h.log);
  }

  // ---- Keeping the order ----

  lemma RemoveKeepsOrder(numbers: seq<nat>, k: nat, n: nat)
    requires Increasing(numbers) && Below(numbers, n) && k < |numbers|
    ensures Increasing(numbers[..k] + numbers[k + 1..])
    ensures Below(numbers[..k] + numbers[k + 1..], n)
  {
  }

  lemma AppendKeepsOrder(numbers: seq<nat>, n: nat)
    requires Increasing(numbers) && Below(numbers, n)
    ensures Increasing(numbers + [n]) && Below(numbers + [n], n + 1)
  {
  }

  lemma SaveOrdered(o: Order, msg: Queued)
    requires Ordered(o)
    ensures Ordered(AfterSave(o, msg))
  {
    hide Increasing, Below;
    var before := o.tried + o.rest;
    if |o.queue| >= OFFLINE_QUEUE_MAX_SIZE {
      RemoveKeepsOrder(All(o), |before|, |o.saves|);
      assert All(o)[..|before|] + All(o)[|before| + 1..] == before + o.queue[1..];
      AppendKeepsOrder(before + o.queue[1..], |o.saves|);
      ConcatAssociates(before, o.queue[1..], [|o.saves|]);
    } else {
      AppendKeepsOrder(All(o), |o.saves|);
      ConcatAssociates(before, o.queue, [|o.saves|]);
    }
  }

  lemma VisitOrdered(env: Env, thread: Thread, o: Order)
    requires Ordered(o) && (thread.Taking? ==> o.rest == [])
    ensures Ordered(AfterVisit(env, thread, o))
  {
    hide Increasing, Below;
    match thread {
      case Taking =>
        assert o.tried + o.queue + [] == o.tried + [] + o.queue;
      case Flushing(rest, _, _) =>
        if rest != [] && o.rest != [] {
          var k := |o.tried|;
          if Attempts(env, thread) {
            assert o.tried + [o.rest[0]] + o.rest[1..] == o.tried + o.rest;
          } else {
            RemoveKeepsOrder(All(o), k, |o.saves|);
            assert All(o)[..k] + All(o)[k + 1..] == o.tried + o.rest[1..] + o.queue;
          }
        }
      case _ =>
    }
  }

  lemma SaveNumbers(o: Order, queue: seq<Queued>, msg: Queued)
    requires Numbers(o.saves, o.queue, queue)
    ensures Numbers(AfterSave(o, msg).saves, AfterSave(o, msg).queue, Saved(queue, msg))
  {
  }

  lemma MoreSaves(saves: seq<Queued>, numbers: seq<nat>, msgs: seq<Queued>, msg: Queued)
    ensures Numbers(saves, numbers, msgs) ==> Numbers(saves + [msg], numbers, msgs)
    ensures Below(numbers, |saves|) ==> IdsOf(saves + [msg], numbers) == IdsOf(saves, numbers)
  {
  }

  lemma BelowParts(o: Order)
    requires Ordered(o)
    ensures Below(o.tried, |o.saves|)
  {
    forall i | 0 <= i < |o.tried| ensures o.tried[i] < |o.saves| { assert All(o)[i] == o.tried[i]; }
  }

  /** While one goroutine flushes or is about to take the queue, no other flushes. */
  lemma OnlyFlush(s: State, t: nat, u: nat)
    requires Ledger(s) && t < |s.threads| && u < |s.threads| && t != u
    requires s.threads[t].Flushing? || s.threads[t].Taking?
    ensures !s.threads[u].Flushing?
  {
    assert LedgerAt(s, MutexToken);
    if t < u { HeldByTwo(s.threads, t, u, MutexToken); } else { HeldByTwo(s.threads, u, t, MutexToken); }
  }

  /** The order after the goroutine's visit, before what it saves. */
  lemma VisitFits(s: State, t: nat, outcome: Outcome, frames: nat, o: Order)
    requires Ledger(s) && OrderOk(s, o) && t < |s.threads|
    requires Entering(s.threads[t]).Some? ==> Entering(s.threads[t]).value.id !in s.history.born
    ensures
      var thread := s.threads[t];
      var e := RunEffect(s.env, thread, s.shared, s.history, outcome, frames);
      var o' := AfterVisit(s.env, thread, o);
      && Ordered(o') && o'.saves == o.saves
      && Numbers(o.saves, o'.queue, if thread.Taking? then [] else s.shared.queue)
      && ThreadsFit(s.threads[t := e.thread], o')
      && FlushIds(e.history.log) == IdsOf(o.saves, o'.tried)
  {
    hide RunEffect, Ledger, Ordered, FlushIds, Weight;
    var thread := s.threads[t];
    var e := RunEffect(s.env, thread, s.shared, s.history, outcome, frames);
    EffectOnMessages(s.env, thread, s.shared, s.history, outcome, frames);
    EffectOnFlushIds(s.env, thread, s.shared, s.history, outcome, frames);
    if thread.Flushing? || thread.Taking? {
      forall u | 0 <= u < |s.threads| && u != t ensures !s.threads[u].Flushing? { OnlyFlush(s, t, u); }
    }
    VisitOrdered(s.env, thread, o);
    VisitThreads(s.threads, t, e.thread, s.env, s.shared.queue, o);
  }

  lemma VisitThreads(threads: seq<Thread>, t: nat, next: Thread, env: Env, queue: seq<Queued>, o: Order)
    requires t < |threads| && ThreadsFit(threads, o) && Numbers(o.saves, o.queue, queue)
    requires threads[t].Flushing? || threads[t].Taking? ==>
      forall u | 0 <= u < |threads| && u != t :: !threads[u].Flushing?
    requires next.Flushing? <==>
      (threads[t].Flushing? && threads[t].rest != []) || (threads[t].Taking? && queue != [])
    requires next.Flushing? ==> next.rest == if threads[t].Taking? then queue else threads[t].rest[1..]
    ensures ThreadsFit(threads[t := next], AfterVisit(env, threads[t], o))
  {
    var threads', o' := threads[t := next], AfterVisit(env, threads[t], o);
    forall u | 0 <= u < |threads'| && threads'[u].Flushing? ensures Numbers(o'.saves, o'.rest, threads'[u].rest) {
      if u != t { assert threads[u].Flushing?; }
    }
    if forall u | 0 <= u < |threads'| :: !threads'[u].Flushing? {
      assert !threads'[t].Flushing?;
      if threads[t].Flushing? {
        assert Numbers(o.saves, o.rest, threads[t].rest);
      } else {
        forall u | 0 <= u < |threads| ensures !threads[u].Flushing? { if u != t { assert !threads'[u].Flushing?; } }
      }
    }
  }

  lemma SaveFits(threads: seq<Thread>, o: Order, msg: Queued)
    requires ThreadsFit(threads, o)
    ensures ThreadsFit(threads, AfterSave(o, msg))
  {
    hide Numbers;
    forall t | 0 <= t < |threads| && threads[t].Flushing?
      ensures Numbers(AfterSave(o, msg).saves, o.rest, threads[t].rest)
    {
      MoreSaves(o.saves, o.rest, threads[t].rest, msg);
    }
  }

  lemma RunKeepsOrder(s: State, t: nat, outcome: Outcome, frames: nat, o: Order)
    requires Inv(s) && OrderOk(s, o) && Enabled(s, Run(t, outcome, frames))
    ensures OrderOk(Next(s, Run(t, outcome, frames)), Track(s, Run(t, outcome, frames), o))
  {
    hide RunEffect, Ledger, Ordered, ThreadsFit, FlushIds, IdsOf, Numbers, QueueOk, LogOk, AfterVisit;
    var thread := s.threads[t];
    EnteringIsFresh(s.history, thread);
    VisitFits(s, t, outcome, frames, o);
    EffectOnMessages(s.env, thread, s.shared, s.history, outcome, frames);
    var visited := AfterVisit(s.env, thread, o);
    match SavedBy(s.env, thread, outcome) {
      case None =>
      case Some(msg) =>
        var e := RunEffect(s.env, thread, s.shared, s.history, outcome, frames);
        SaveOrdered(visited, msg);
        SaveNumbers(visited, s.shared.queue, msg);
        SaveFits(s.threads[t := e.thread], visited, msg);
        BelowParts(visited);
        MoreSaves(visited.saves, visited.tried, [], msg);
    }
  }

  lemma SpawnKeepsOrder(s: State, e: Effect, o: Order)
    requires OrderOk(s, o) && !e.thread.Flushing?
    requires e.shared.queue == s.shared.queue && e.history.log == s.history.log
    ensures OrderOk(Spawn(s, e), o)
  {
    hide Ordered, Numbers, FlushIds;
    var threads := s.threads + [e.thread];
    if forall t | 0 <= t < |threads| :: !threads[t].Flushing? {
      forall t | 0 <= t < |s.threads| ensures !s.threads[t].Flushing? { assert threads[t] == s.threads[t]; }
    }
  }

  lemma EnvironmentKeepsOrder(s: State, step: Step, o: Order)
    requires OrderOk(s, o) && (step.Tick? || step.SetConnected? || step.Stop?)
    ensures OrderOk(Next(s, step), o)
  {
    hide Ordered, Numbers, ThreadsFit, FlushIds, RunEffect;
  }

  lemma {:induction false} TrackedOk(s: State, steps: seq<Step>, o: Order)
    requires Inv(s) && OrderOk(s, o) && Possible(s, steps)
    ensures OrderOk(After(s, steps), Tracked(s, steps, o))
    decreases |steps|
  {
    hide Inv, OrderOk, RunEffect, UnitsFrom;
    if steps != [] {
      match steps[0] {
        case Run(t, outcome, frames) => RunKeepsOrder(s, t, outcome, frames, o);
        case Send(whole, chunks) => SpawnKeepsOrder(s, SendEffect(s, whole, chunks), o);
        case Reconnect =>
          if s.env.enabled { SpawnKeepsOrder(s, Effect(AwaitingMutex(false), s.shared, s.history), o); }
        case Fire =>
          SpawnKeepsOrder(s, Effect(TimerFired, s.shared.(armed := s.shared.armed - 1), s.history), o);
        case _ => EnvironmentKeepsOrder(s, steps[0], o);
      }
      hide Next, Enabled, Track;
      var next := Next(s, steps[0]);
      assert [steps[0]][1..] == [] && Possible(next, []) && After(next, []) == next;
      assert Possible(s, [steps[0]]) && After(s, [steps[0]]) == After(next, []);
      AfterInv(s, [steps[0]]);
      TrackedOk(Next(s, steps[0]), steps[1..], Track(s, steps[0], o));
    }
  }

  /** Over every run, flushes attempt entries strictly in the order they were saved, each save at most once. */
  lemma {:induction false} FlushesKeepOrder(enabled: bool, expire: int, steps: seq<Step>)
    requires Possible(Start(enabled, expire), steps)
    ensures
      var s := After(Start(enabled, expire), steps);
      var o := Tracked(Start(enabled, expire), steps, NOTHING);
      && Increasing(o.tried) && Below(o.tried, |o.saves|)
      && FlushIds(s.history.log) == IdsOf(o.saves, o.tried)
      && Numbers(o.saves, o.queue, s.shared.queue) && Increasing(o.queue)
  {
    hide Inv, Possible, After, Tracked, ThreadsFit, Numbers, FlushIds, IdsOf;
    var s := Start(enabled, expire);
    StartInv(enabled, expire);
    StartOrdered(enabled, expire);
    TrackedOk(s, steps, NOTHING);
    var o := Tracked(s, steps, NOTHING);
    forall i, j | 0 <= i < j < |o.tried| ensures o.tried[i] < o.tried[j] {
      assert All(o)[i] == o.tried[i] && All(o)[j] == o.tried[j];
    }
    BelowParts(o);
    var n := |o.tried + o.rest|;
    forall i, j | 0 <= i < j < |o.queue| ensures o.queue[i] < o.queue[j] {
      assert All(o)[n + i] == o.queue[i] && All(o)[n + j] == o.queue[j];
    }
  }

  lemma StartOrdered(enabled: bool, expire: int)
    ensures OrderOk(Start(enabled, expire), NOTHING)
  {
  }
}
