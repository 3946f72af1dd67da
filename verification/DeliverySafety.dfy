/** What every run of the delivery machine keeps. */
module DeliverySafety {
  import opened Common
  import opened Outcomes
  import opened Segments
  import opened OfflineQueue
  import opened DeliveryRuns

  // ---- One conservation law for units, the timer flag and the flush mutex ----

  datatype Token = UnitToken(id: nat) | TimerToken | MutexToken

  function One(x: Token, y: Token): nat {
    if x == y then 1 else 0
  }

  function UnitCount(ids: seq<nat>, x: Token): nat {
    if x.UnitToken? then multiset(ids)[x.id] else 0
  }

  function QueuedIds(msgs: seq<Queued>): (ids: seq<nat>)
    ensures |ids| == |msgs| && forall i | 0 <= i < |msgs| :: ids[i] == msgs[i].unit.id
  {
    seq(|msgs|, i requires 0 <= i < |msgs| => msgs[i].unit.id)
  }

  /** How many copies of token x a thread is responsible for. */
  function Weight(thread: Thread, x: Token): nat {
    match thread
    case Sending(chunks) => UnitCount(Ids(chunks), x)
    case SavingWhole(whole) => One(x, UnitToken(whole.id))
    case SavingChunks(chunks) => UnitCount(Ids(chunks), x)
    case Scheduling(inFlush) => if inFlush then One(x, MutexToken) else 0
    case Arming(inFlush) => One(x, TimerToken) + if inFlush then One(x, MutexToken) else 0
    case TimerFired => One(x, TimerToken)
    case RereadingConnection(_) => One(x, MutexToken)
    case Taking => One(x, MutexToken)
    case Flushing(rest, _, _) => One(x, MutexToken) + UnitCount(QueuedIds(rest), x)
    case Unlocking => One(x, MutexToken)
    case _ => 0
  }

  function Held(threads: seq<Thread>, x: Token): nat {
    if threads == [] then 0 else Held(threads[..|threads| - 1], x) + Weight(threads[|threads| - 1], x)
  }

  /** Copies of x outside the threads: queued and ended units, armed timers. */
  function Free(sh: Shared, h: History, x: Token): nat {
    UnitCount(QueuedIds(sh.queue), x) + UnitCount(h.ended, x) + if x == TimerToken then sh.armed else 0
  }

  /** Each created unit exists once, the timer iff a flush is scheduled, the mutex iff it is locked. */
  function Supply(sh: Shared, h: History, x: Token): nat {
    match x
    case UnitToken(id) => if id < |h.bodies| then 1 else 0
    case TimerToken => if sh.scheduled then 1 else 0
    case MutexToken => if sh.locked then 1 else 0
  }

  ghost predicate LedgerAt(s: State, x: Token) {
    Held(s.threads, x) + Free(s.shared, s.history, x) == Supply(s.shared, s.history, x)
  }

  ghost predicate Ledger(s: State) {
    forall x: Token :: LedgerAt(s, x)
  }

  /** A step that trades tokens between the thread and the rest without creating or losing any. */
  ghost predicate Balanced(thread: Thread, sh: Shared, h: History, e: Effect, x: Token) {
    Weight(thread, x) + Free(sh, h, x) + Supply(e.shared, e.history, x)
      == Weight(e.thread, x) + Free(e.shared, e.history, x) + Supply(sh, h, x)
  }

  lemma {:induction false} HeldUpdate(threads: seq<Thread>, t: nat, thread: Thread, x: Token)
    requires t < |threads|
    ensures Held(threads[t := thread], x) + Weight(threads[t], x) == Held(threads, x) + Weight(thread, x)
  {
    hide Weight;
    var n := |threads| - 1;
    var updated := threads[t := thread];
    if t == n {
      assert updated[..n] == threads[..n];
    } else {
      assert updated[..n] == threads[..n][t := thread];
      HeldUpdate(threads[..n], t, thread, x);
    }
  }

  lemma {:induction false} HeldBy(threads: seq<Thread>, t: nat, x: Token)
    requires t < |threads|
    ensures Weight(threads[t], x) <= Held(threads, x)
  {
    hide Weight;
    if t < |threads| - 1 { HeldBy(threads[..|threads| - 1], t, x); }
  }

  lemma {:induction false} HeldByTwo(threads: seq<Thread>, t: nat, u: nat, x: Token)
    requires t < u < |threads|
    ensures Weight(threads[t], x) + Weight(threads[u], x) <= Held(threads, x)
  {
    hide Weight;
    var n := |threads| - 1;
    if u < n { HeldByTwo(threads[..n], t, u, x); } else { HeldBy(threads[..n], t, x); }
  }

  lemma {:induction false} Holder(threads: seq<Thread>, x: Token) returns (t: nat)
    requires Held(threads, x) > 0
    ensures t < |threads| && Weight(threads[t], x) > 0
  {
    hide Weight;
    var n := |threads| - 1;
    if Weight(threads[n], x) > 0 { t := n; } else { t := Holder(threads[..n], x); }
  }

  lemma UnitCountHead(ids: seq<nat>, x: Token)
    requires ids != []
    ensures UnitCount(ids, x) == One(x, UnitToken(ids[0])) + UnitCount(ids[1..], x)
  {
    assert ids == [ids[0]] + ids[1..];
  }

  lemma UnitCountConcat(a: seq<nat>, b: seq<nat>, x: Token)
    ensures UnitCount(a + b, x) == UnitCount(a, x) + UnitCount(b, x)
  {
  }

  lemma UnitCountAppend(ids: seq<nat>, id: nat, x: Token)
    ensures UnitCount(ids + [id], x) == UnitCount(ids, x) + One(x, UnitToken(id))
  {
  }

  lemma {:induction false} NewUnitsCount(first: nat, bodies: seq<seq<Element>>, x: Token)
    ensures UnitCount(Ids(UnitsFrom(first, bodies)), x) ==
            if x.UnitToken? && first <= x.id < first + |bodies| then 1 else 0
    decreases |bodies|
  {
    var ids := Ids(UnitsFrom(first, bodies));
    if bodies == [] {
      assert ids == [];
    } else {
      UnitCountHead(ids, x);
      assert ids[1..] == Ids(UnitsFrom(first + 1, bodies[1..]));
      NewUnitsCount(first + 1, bodies[1..], x);
    }
  }

  lemma SaveIsBalanced(thread: Thread, sh: Shared, h: History, msg: Queued, x: Token)
    ensures var e := Save(thread, sh, h, msg);
            Free(e.shared, e.history, x) == Free(sh, h, x) + One(x, UnitToken(msg.unit.id))
  {
    var ids := QueuedIds(sh.queue);
    var full := |sh.queue| >= OFFLINE_QUEUE_MAX_SIZE;
    assert QueuedIds(Saved(sh.queue, msg)) == (if full then ids[1..] else ids) + [msg.unit.id];
    UnitCountAppend(if full then ids[1..] else ids, msg.unit.id, x);
    hide UnitCount, Saved, QueuedIds;
    if full {
      UnitCountHead(ids, x);
      UnitCountAppend(h.ended, ids[0], x);
    } else {
      assert h.ended + [] == h.ended;
    }
  }

  lemma SendChunkIsBalanced(env: Env, chunks: seq<Unit>, sh: Shared, h: History, outcome: Outcome, frames: nat,
                            x: Token)
    requires chunks != []
    ensures Balanced(Sending(chunks), sh, h, SendChunk(env, chunks, sh, h, outcome, frames), x)
  {
    hide UnitCount, SegmentsOf;
    UnitCountHead(Ids(chunks), x);
    assert Ids(chunks)[1..] == Ids(chunks[1..]);
    UnitCountAppend(h.ended, chunks[0].id, x);
    UnitCountConcat(h.ended, Ids(chunks), x);
    if chunks[1..] == [] {
      assert Ids(chunks[1..]) == [];
      NoUnits(x);
    }
  }

  lemma FlushOneIsBalanced(env: Env, rest: seq<Queued>, started: int, anyNotSent: bool, sh: Shared, h: History,
                           outcome: Outcome, frames: nat, x: Token)
    requires rest != []
    ensures Balanced(Flushing(rest, started, anyNotSent), sh, h,
                     FlushOne(env, rest, started, anyNotSent, sh, h, outcome, frames), x)
  {
    hide UnitCount, Saved, SegmentsOf;
    UnitCountHead(QueuedIds(rest), x);
    assert QueuedIds(rest)[1..] == QueuedIds(rest[1..]);
    UnitCountAppend(h.ended, rest[0].unit.id, x);
    var tried := Logged(h, rest[0].unit, outcome, frames, Some(started));
    SaveIsBalanced(Flushing(rest[1..], started, true), sh, tried, rest[0], x);
  }

  lemma EnterIsBalanced(thread: Thread, env: Env, sh: Shared, h: History, u: Unit, x: Token)
    ensures var e := Enter(thread, env, sh, h, u);
            && e.thread == thread
            && Free(e.shared, e.history, x) == Free(sh, h, x) + One(x, UnitToken(u.id))
            && Supply(e.shared, e.history, x) == Supply(sh, h, x)
  {
    SaveIsBalanced(thread, sh, h.(born := h.born[u.id := env.now]), Queued(u, env.now), x);
  }

  lemma NoUnits(x: Token)
    ensures UnitCount([], x) == 0
  {
  }

  lemma ControlIsBalanced(env: Env, thread: Thread, sh: Shared, h: History, outcome: Outcome, frames: nat, x: Token)
    requires !thread.Sending? && !thread.SavingWhole? && !thread.SavingChunks? && !thread.Flushing? && !thread.Taking?
    requires thread.TimerFired? ==> sh.scheduled
    requires thread.Unlocking? ==> sh.locked
    requires thread.AwaitingMutex? && env.enabled ==> !sh.locked
    ensures Balanced(thread, sh, h, RunEffect(env, thread, sh, h, outcome, frames), x)
  {
    hide UnitCount, QueuedIds, Enter, SendChunk, FlushOne;
  }

  lemma TakingIsBalanced(env: Env, sh: Shared, h: History, outcome: Outcome, frames: nat, x: Token)
    ensures Balanced(Taking, sh, h, RunEffect(env, Taking, sh, h, outcome, frames), x)
  {
    assert QueuedIds([]) == [];
    NoUnits(x);
    hide UnitCount, Enter, SendChunk, FlushOne;
  }

  lemma SavingIsBalanced(env: Env, thread: Thread, sh: Shared, h: History, outcome: Outcome, frames: nat, x: Token)
    requires thread.SavingWhole? || thread.SavingChunks?
    ensures Balanced(thread, sh, h, RunEffect(env, thread, sh, h, outcome, frames), x)
  {
    hide UnitCount, Free, Supply, Enter;
    if thread.SavingWhole? {
      EnterIsBalanced(Scheduling(false), env, sh, h, thread.whole, x);
    } else if thread.chunks == [] {
      NoUnits(x);
      assert Ids(thread.chunks) == [];
    } else {
      var chunks := thread.chunks;
      EnterIsBalanced(SavingChunks(chunks[1..]), env, sh, h, chunks[0], x);
      UnitCountHead(Ids(chunks), x);
      assert Ids(chunks)[1..] == Ids(chunks[1..]);
    }
  }

  /** Every step of a goroutine is balanced, provided the flag or mutex it gives back was taken. */
  lemma RunIsBalanced(env: Env, thread: Thread, sh: Shared, h: History, outcome: Outcome, frames: nat, x: Token)
    requires thread.TimerFired? ==> sh.scheduled
    requires thread.Unlocking? ==> sh.locked
    requires thread.AwaitingMutex? && env.enabled ==> !sh.locked
    ensures Balanced(thread, sh, h, RunEffect(env, thread, sh, h, outcome, frames), x)
  {
    NoUnits(x);
    match thread
    case Sending(chunks) =>
      if chunks != [] { SendChunkIsBalanced(env, chunks, sh, h, outcome, frames, x); }
    case SavingWhole(_) => SavingIsBalanced(env, thread, sh, h, outcome, frames, x);
    case SavingChunks(_) => SavingIsBalanced(env, thread, sh, h, outcome, frames, x);
    case Flushing(rest, started, anyNotSent) =>
      if rest == [] { assert QueuedIds(rest) == []; }
      else { FlushOneIsBalanced(env, rest, started, anyNotSent, sh, h, outcome, frames, x); }
    case Taking => TakingIsBalanced(env, sh, h, outcome, frames, x);
    case _ => ControlIsBalanced(env, thread, sh, h, outcome, frames, x);
  }

  lemma NextLedger(s: State, step: Step)
    requires Ledger(s) && Enabled(s, step)
    ensures Ledger(Next(s, step))
  {
    forall x: Token ensures LedgerAt(Next(s, step), x) {
      assert LedgerAt(s, x);
      match step {
        case Run(t, outcome, frames) => RunLedger(s, t, outcome, frames, x);
        case Send(whole, chunks) => SendIsBalanced(s, whole, chunks, x);
        case _ =>
      }
    }
  }

  lemma RunLedger(s: State, t: nat, outcome: Outcome, frames: nat, x: Token)
    requires Ledger(s) && Enabled(s, Run(t, outcome, frames))
    ensures LedgerAt(Next(s, Run(t, outcome, frames)), x)
  {
    assert LedgerAt(s, x) && LedgerAt(s, TimerToken) && LedgerAt(s, MutexToken);
    HeldBy(s.threads, t, TimerToken);
    HeldBy(s.threads, t, MutexToken);
    RunIsBalanced(s.env, s.threads[t], s.shared, s.history, outcome, frames, x);
    hide Weight, Free, Supply, RunEffect;
    HeldUpdate(s.threads, t, RunEffect(s.env, s.threads[t], s.shared, s.history, outcome, frames).thread, x);
  }

  lemma SendIsBalanced(s: State, whole: seq<Element>, chunks: seq<seq<Element>>, x: Token)
    ensures var e := SendEffect(s, whole, chunks);
            Free(s.shared, s.history, x) + Supply(e.shared, e.history, x)
            == Weight(e.thread, x) + Free(e.shared, e.history, x) + Supply(s.shared, s.history, x)
  {
    hide UnitCount;
    var units := UnitsFrom(|s.history.bodies|, chunks);
    NewUnitsCount(|s.history.bodies|, chunks, x);
    if units == [] {
      assert Ids(units) == [];
      NoUnits(x);
    }
  }

  // ---- The invariant ----

  ghost predicate UnitOk(h: History, u: Unit) {
    u.id < |h.bodies| && u.elements == h.bodies[u.id]
  }

  /** Still with its sender: never queued yet. */
  ghost predicate FreshOk(h: History, u: Unit) {
    UnitOk(h, u) && u.id !in h.born
  }

  ghost predicate QueuedOk(h: History, msg: Queued) {
    UnitOk(h, msg.unit) && msg.unit.id in h.born && h.born[msg.unit.id] == msg.createdAt
  }

  ghost predicate AllFresh(h: History, units: seq<Unit>) {
    forall i | 0 <= i < |units| :: FreshOk(h, units[i])
  }

  ghost predicate AllQueued(h: History, msgs: seq<Queued>) {
    forall i | 0 <= i < |msgs| :: QueuedOk(h, msgs[i])
  }

  ghost predicate ThreadOk(h: History, thread: Thread) {
    match thread
    case Sending(chunks) => AllFresh(h, chunks)
    case SavingWhole(whole) => FreshOk(h, whole)
    case SavingChunks(chunks) => AllFresh(h, chunks)
    case Flushing(rest, _, _) => AllQueued(h, rest)
    case _ => true
  }

  /** An attempt repeats the unit's own message; a flush attempts it only within the expiry time
      of its first entry into the queue; unless it was not sent, the unit is ended. */
  ghost predicate AttemptOk(expire: int, h: History, a: Attempt) {
    && a.id < |h.bodies| && a.wire == SegmentsOf(h.bodies[a.id]) && FramesFit(a.outcome, a.frames)
    && (!a.outcome.NotSent? ==> a.id in h.ended)
    && (a.started.Some? ==> a.id in h.born && a.started.value - h.born[a.id] <= expire)
  }

  ghost predicate AllAttempts(expire: int, h: History) {
    forall i | 0 <= i < |h.log| :: AttemptOk(expire, h, h.log[i])
  }

  /** A unit is attempted again only if every earlier attempt was not sent. */
  ghost predicate RetriesFollowNotSent(log: seq<Attempt>) {
    forall i, j | 0 <= i < j < |log| && log[i].id == log[j].id :: log[i].outcome.NotSent?
  }

  ghost predicate LogOk(expire: int, h: History) {
    AllAttempts(expire, h) && RetriesFollowNotSent(h.log)
  }

  ghost predicate BornExist(h: History) {
    forall id | id in h.born :: id < |h.bodies|
  }

  ghost predicate QueueOk(sh: Shared, h: History) {
    sh.queue == Newest(h.appended) && AllQueued(h, sh.queue) && BornExist(h)
  }

  ghost predicate Inv(s: State) {
    && Ledger(s)
    && QueueOk(s.shared, s.history)
    && LogOk(s.env.expire, s.history)
    && (forall t | 0 <= t < |s.threads| :: ThreadOk(s.history, s.threads[t]))
  }

  /** Histories only grow. */
  ghost predicate Extends(h: History, h': History) {
    && |h.bodies| <= |h'.bodies| && (forall i | 0 <= i < |h.bodies| :: h'.bodies[i] == h.bodies[i])
    && (forall id | id in h.born :: id in h'.born && h'.born[id] == h.born[id])
    && (forall id | id in h.ended :: id in h'.ended)
  }

  lemma UnheldStaysFresh(units: seq<Unit>, h: History, h': History, id: nat)
    requires AllFresh(h, units) && UnitCount(Ids(units), UnitToken(id)) == 0
    requires Extends(h, h') && h'.born.Keys == h.born.Keys + {id}
    ensures AllFresh(h', units)
  {
    forall i | 0 <= i < |units| ensures FreshOk(h', units[i]) {
      assert FreshOk(h, units[i]) && Ids(units)[i] == units[i].id;
    }
  }

  lemma UnheldThreadStaysOk(thread: Thread, h: History, h': History, id: nat)
    requires ThreadOk(h, thread) && Weight(thread, UnitToken(id)) == 0
    requires Extends(h, h') && h'.born.Keys == h.born.Keys + {id}
    ensures ThreadOk(h', thread)
  {
    hide AllFresh, AllQueued, UnitCount, Extends;
    match thread
    case Sending(chunks) => UnheldStaysFresh(chunks, h, h', id);
    case SavingWhole(whole) => OneUnheldStaysFresh(whole, h, h', id);
    case SavingChunks(chunks) => UnheldStaysFresh(chunks, h, h', id);
    case Flushing(rest, _, _) => QueuedStay(rest, h, h');
    case _ =>
  }

  lemma OneUnheldStaysFresh(u: Unit, h: History, h': History, id: nat)
    requires FreshOk(h, u) && One(UnitToken(id), UnitToken(u.id)) == 0
    requires Extends(h, h') && h'.born.Keys == h.born.Keys + {id}
    ensures FreshOk(h', u)
  {
  }

  lemma QueuedStay(msgs: seq<Queued>, h: History, h': History)
    requires AllQueued(h, msgs) && Extends(h, h')
    ensures AllQueued(h', msgs)
  {
    forall i | 0 <= i < |msgs| ensures QueuedOk(h', msgs[i]) { assert QueuedOk(h, msgs[i]); }
  }

  lemma AttemptsStay(expire: int, h: History, h': History)
    requires AllAttempts(expire, h) && Extends(h, h') && h'.log == h.log
    ensures AllAttempts(expire, h')
  {
    forall i | 0 <= i < |h.log| ensures AttemptOk(expire, h', h'.log[i]) { assert AttemptOk(expire, h, h.log[i]); }
  }

  lemma ThreadStaysOk(thread: Thread, h: History, h': History)
    requires ThreadOk(h, thread) && Extends(h, h') && h'.born == h.born
    ensures ThreadOk(h', thread)
  {
    match thread
    case Flushing(rest, _, _) => QueuedStay(rest, h, h');
    case _ =>
  }

  /** A queued unit is held by no thread. */
  lemma QueuedIsUnheld(s: State, i: nat, t: nat)
    requires Ledger(s) && i < |s.shared.queue| && t < |s.threads|
    ensures Weight(s.threads[t], UnitToken(s.shared.queue[i].unit.id)) == 0
  {
    var x := UnitToken(s.shared.queue[i].unit.id);
    assert LedgerAt(s, x);
    assert QueuedIds(s.shared.queue)[i] == x.id;
    HeldBy(s.threads, t, x);
  }

  /** A held unit has not ended. */
  lemma HeldIsNotEnded(s: State, t: nat, id: nat)
    requires Ledger(s) && t < |s.threads| && Weight(s.threads[t], UnitToken(id)) > 0
    ensures id !in s.history.ended
  {
    var x := UnitToken(id);
    assert LedgerAt(s, x);
    HeldBy(s.threads, t, x);
  }

  /** The unit a step attempts to send, if it attempts one. */
  function Target(env: Env, thread: Thread): Option<Unit> {
    match thread
    case Sending(chunks) => if chunks == [] then None else Some(chunks[0])
    case Flushing(rest, started, _) =>
      if rest == [] || Expired(rest[0], started, env.expire) then None else Some(rest[0].unit)
    case _ => None
  }

  /** The unit a step moves from its sender into the queue, if any. */
  function Entering(thread: Thread): Option<Unit> {
    match thread
    case SavingWhole(whole) => Some(whole)
    case SavingChunks(chunks) => if chunks == [] then None else Some(chunks[0])
    case _ => None
  }

  /** What a step does to the log and to the birth times. */
  lemma EffectOnHistory(env: Env, thread: Thread, sh: Shared, h: History, outcome: Outcome, frames: nat)
    requires Entering(thread).Some? ==> Entering(thread).value.id !in h.born
    ensures var e := RunEffect(env, thread, sh, h, outcome, frames);
            && Extends(h, e.history) && e.history.bodies == h.bodies
            && e.history.born == (match Entering(thread) case None => h.born case Some(u) => h.born[u.id := env.now])
            && e.history.log == (match Target(env, thread)
                 case None => h.log
                 case Some(u) => h.log + [Attempt(u.id, SegmentsOf(u.elements), outcome, frames,
                                                  if thread.Flushing? then Some(thread.started) else None)])
            && (Target(env, thread).Some? && !outcome.NotSent? ==> Target(env, thread).value.id in e.history.ended)
  {
    hide SegmentsOf, Saved;
    if thread.Sending? && thread.chunks != [] {
      assert Ids(thread.chunks)[0] == thread.chunks[0].id;
    }
  }

  lemma SavedAreQueued(queue: seq<Queued>, h: History, msg: Queued)
    requires AllQueued(h, queue) && QueuedOk(h, msg)
    ensures AllQueued(h, Saved(queue, msg))
  {
  }

  lemma SaveOnQueue(thread: Thread, sh: Shared, h: History, msg: Queued)
    ensures var e := Save(thread, sh, h, msg);
            && e.shared.queue == Saved(sh.queue, msg)
            && Extends(h, e.history)
            && e.history.appended == h.appended + [msg] && (BornExist(h) ==> BornExist(e.history))
  {
  }

  lemma SavedLast(queue: seq<Queued>, msg: Queued)
    ensures Saved(queue, msg) != []
    ensures Saved(queue, msg)[|Saved(queue, msg)| - 1] == msg
  {
  }

  lemma FirstStamp(h: History, u: Unit, now: int)
    requires FreshOk(h, u)
    ensures var h' := h.(born := h.born[u.id := now]);
            && Extends(h, h')
            && QueuedOk(h', Queued(u, now))
            && (BornExist(h) ==> BornExist(h'))
  {
  }

  lemma EnterKeepsQueueOk(thread: Thread, env: Env, sh: Shared, h: History, u: Unit)
    requires QueueOk(sh, h) && FreshOk(h, u)
    ensures var e := Enter(thread, env, sh, h, u);
            && QueueOk(e.shared, e.history)
            && e.shared.queue != []
            && e.shared.queue[|e.shared.queue| - 1].unit == u
  {
    hide Newest, Save, AllQueued, Saved, FreshOk, QueuedOk, Extends, BornExist;
    var h' := h.(born := h.born[u.id := env.now]);
    var msg := Queued(u, env.now);
    FirstStamp(h, u, env.now);
    QueuedStay(sh.queue, h, h');
    SaveOnQueue(thread, sh, h', msg);
    SavedIsNewest(h.appended, msg);
    SavedAreQueued(sh.queue, h', msg);
    QueuedStay(Saved(sh.queue, msg), h', Enter(thread, env, sh, h, u).history);
    SavedLast(sh.queue, msg);
  }

  lemma FlushOneKeepsQueueOk(env: Env, rest: seq<Queued>, started: int, anyNotSent: bool, sh: Shared, h: History,
                             outcome: Outcome, frames: nat)
    requires rest != [] && QueueOk(sh, h) && AllQueued(h, rest)
    ensures var e := FlushOne(env, rest, started, anyNotSent, sh, h, outcome, frames);
            QueueOk(e.shared, e.history)
  {
    assert QueuedOk(h, rest[0]);
    hide SegmentsOf, Newest, Save, AllQueued, Saved;
    var e := FlushOne(env, rest, started, anyNotSent, sh, h, outcome, frames);
    var tried := Logged(h, rest[0].unit, outcome, frames, Some(started));
    QueuedStay(sh.queue, h, tried);
    if !Expired(rest[0], started, env.expire) && outcome.NotSent? {
      SaveOnQueue(Flushing(rest[1..], started, true), sh, tried, rest[0]);
      SavedIsNewest(h.appended, rest[0]);
      SavedAreQueued(sh.queue, tried, rest[0]);
      QueuedStay(Saved(sh.queue, rest[0]), tried, e.history);
    } else {
      assert Extends(h, e.history);
      QueuedStay(sh.queue, h, e.history);
    }
  }

  lemma SendChunkKeepsQueueOk(env: Env, chunks: seq<Unit>, sh: Shared, h: History, outcome: Outcome, frames: nat)
    requires chunks != [] && QueueOk(sh, h)
    ensures var e := SendChunk(env, chunks, sh, h, outcome, frames);
            QueueOk(e.shared, e.history)
  {
    hide SegmentsOf, Newest, AllQueued;
    var e := SendChunk(env, chunks, sh, h, outcome, frames);
    assert Extends(h, e.history);
    QueuedStay(sh.queue, h, e.history);
  }

  lemma EffectOnQueue(env: Env, thread: Thread, sh: Shared, h: History, outcome: Outcome, frames: nat)
    requires QueueOk(sh, h) && ThreadOk(h, thread)
    ensures var e := RunEffect(env, thread, sh, h, outcome, frames);
            && QueueOk(e.shared, e.history)
            && (Entering(thread).Some? ==>
                  e.shared.queue != [] && e.shared.queue[|e.shared.queue| - 1].unit == Entering(thread).value)
  {
    hide Newest, Enter, SendChunk, FlushOne;
    match thread
    case Sending(chunks) => if chunks != [] { SendChunkKeepsQueueOk(env, chunks, sh, h, outcome, frames); }
    case SavingWhole(whole) => EnterKeepsQueueOk(Scheduling(false), env, sh, h, whole);
    case SavingChunks(chunks) =>
      if chunks != [] { EnterKeepsQueueOk(SavingChunks(chunks[1..]), env, sh, h, chunks[0]); }
    case Flushing(rest, started, anyNotSent) =>
      if rest != [] { FlushOneKeepsQueueOk(env, rest, started, anyNotSent, sh, h, outcome, frames); }
    case Taking => NothingSaved();
    case _ =>
  }

  lemma ThreadOfEffect(env: Env, thread: Thread, sh: Shared, h: History, outcome: Outcome, frames: nat)
    ensures var e := RunEffect(env, thread, sh, h, outcome, frames);
            match e.thread
            case Sending(chunks) => thread.Sending? && thread.chunks != [] && chunks == thread.chunks[1..]
            case SavingWhole(_) => false
            case SavingChunks(chunks) =>
              || (thread.Sending? && chunks == thread.chunks)
              || (thread.SavingChunks? && thread.chunks != [] && chunks == thread.chunks[1..])
            case Flushing(rest, _, _) =>
              || (thread.Taking? && rest == sh.queue)
              || (thread.Flushing? && thread.rest != [] && rest == thread.rest[1..])
            case _ => true
  {
    hide SegmentsOf, Saved;
  }

  lemma EffectOnThread(env: Env, thread: Thread, sh: Shared, h: History, outcome: Outcome, frames: nat)
    requires QueueOk(sh, h) && ThreadOk(h, thread)
    ensures ThreadOk(h, RunEffect(env, thread, sh, h, outcome, frames).thread)
  {
    hide RunEffect, Newest, FreshOk, QueuedOk;
    ThreadOfEffect(env, thread, sh, h, outcome, frames);
  }

  lemma LogStaysOk(s: State, t: nat, outcome: Outcome, frames: nat)
    requires Ledger(s) && LogOk(s.env.expire, s.history) && t < |s.threads| && ThreadOk(s.history, s.threads[t])
    requires FramesFit(outcome, frames)
    ensures LogOk(s.env.expire, RunEffect(s.env, s.threads[t], s.shared, s.history, outcome, frames).history)
  {
    hide RunEffect, SegmentsOf, Ledger;
    var thread, h := s.threads[t], s.history;
    var h' := RunEffect(s.env, thread, s.shared, h, outcome, frames).history;
    EffectOnHistory(s.env, thread, s.shared, h, outcome, frames);
    if Target(s.env, thread).Some? {
      var u := Target(s.env, thread).value;
      assert Weight(thread, UnitToken(u.id)) > 0 by {
        if thread.Sending? { assert Ids(thread.chunks)[0] == u.id; } else { assert QueuedIds(thread.rest)[0] == u.id; }
      }
      HeldIsNotEnded(s, t, u.id);
      assert AttemptOk(s.env.expire, h', h'.log[|h.log|]);
    }
    forall i | 0 <= i < |h.log| ensures AttemptOk(s.env.expire, h', h'.log[i]) {
      assert AttemptOk(s.env.expire, h, h.log[i]);
    }
  }

  lemma ThreadsStayOk(s: State, t: nat, outcome: Outcome, frames: nat)
    requires Inv(s) && Enabled(s, Run(t, outcome, frames))
    ensures var s' := Next(s, Run(t, outcome, frames));
            forall i | 0 <= i < |s'.threads| :: ThreadOk(s'.history, s'.threads[i])
  {
    hide RunEffect, SegmentsOf, Weight, ThreadOk;
    var s' := Next(s, Run(t, outcome, frames));
    var thread := s.threads[t];
    EnteringIsFresh(s.history, thread);
    EffectOnHistory(s.env, thread, s.shared, s.history, outcome, frames);
    EffectOnQueue(s.env, thread, s.shared, s.history, outcome, frames);
    NextLedger(s, Run(t, outcome, frames));
    EffectOnThread(s.env, thread, s.shared, s.history, outcome, frames);
    forall i | 0 <= i < |s'.threads| ensures ThreadOk(s'.history, s'.threads[i]) {
      assert ThreadOk(s.history, s'.threads[i]);
      if Entering(thread).Some? {
        var last := |s'.shared.queue| - 1;
        QueuedIsUnheld(s', last, i);
        assert s'.history.born.Keys == s.history.born.Keys + {Entering(thread).value.id};
        UnheldThreadStaysOk(s'.threads[i], s.history, s'.history, Entering(thread).value.id);
      } else {
        ThreadStaysOk(s'.threads[i], s.history, s'.history);
      }
    }
  }

  lemma EnteringIsFresh(h: History, thread: Thread)
    requires ThreadOk(h, thread)
    ensures Entering(thread).Some? ==> Entering(thread).value.id !in h.born
  {
  }

  /** The invariant apart from the conservation law. */
  ghost predicate ContentOk(s: State) {
    && QueueOk(s.shared, s.history)
    && LogOk(s.env.expire, s.history)
    && (forall t | 0 <= t < |s.threads| :: ThreadOk(s.history, s.threads[t]))
  }

  lemma SpawnKeepsContent(s: State, e: Effect)
    requires ContentOk(s) && ThreadOk(e.history, e.thread)
    requires e.history == s.history && e.shared == s.shared.(armed := e.shared.armed)
    ensures ContentOk(Spawn(s, e))
  {
    hide LogOk, AllQueued, AllFresh;
  }

  lemma SendInv(s: State, whole: seq<Element>, chunks: seq<seq<Element>>)
    requires Inv(s)
    ensures var s' := Next(s, Send(whole, chunks));
            && QueueOk(s'.shared, s'.history)
            && LogOk(s'.env.expire, s'.history)
            && forall t | 0 <= t < |s'.threads| :: ThreadOk(s'.history, s'.threads[t])
  {
    hide Ledger, ThreadOk, AllQueued, AllAttempts, RetriesFollowNotSent, Newest, UnitsFrom, SegmentsOf;
    var e := SendEffect(s, whole, chunks);
    SendEffectExtends(s, whole, chunks);
    SendThreadOk(s, whole, chunks);
    hide SendEffect;
    forall t | 0 <= t < |s.threads| ensures ThreadOk(e.history, s.threads[t]) {
      ThreadStaysOk(s.threads[t], s.history, e.history);
    }
    AttemptsStay(s.env.expire, s.history, e.history);
    QueuedStay(s.shared.queue, s.history, e.history);
  }

  lemma SendEffectExtends(s: State, whole: seq<Element>, chunks: seq<seq<Element>>)
    ensures var e := SendEffect(s, whole, chunks);
            && Extends(s.history, e.history) && e.shared == s.shared
            && e.history == s.history.(bodies := e.history.bodies)
  {
  }

  lemma SendThreadOk(s: State, whole: seq<Element>, chunks: seq<seq<Element>>)
    requires BornExist(s.history)
    ensures var e := SendEffect(s, whole, chunks); ThreadOk(e.history, e.thread)
  {
    var n := |s.history.bodies|;
    assert UnitsFrom(n, [whole])[0] == Unit(n, whole);
    hide UnitsFrom, FreshOk;
    assert FreshOk(s.history.(bodies := s.history.bodies + [whole]), Unit(n, whole));
    hide AllFresh;
  }

  // ---- Every run ----

  lemma StartInv(enabled: bool, expire: int)
    ensures Inv(Start(enabled, expire))
  {
    var s := Start(enabled, expire);
    forall x: Token ensures LedgerAt(s, x) { assert QueuedIds([]) == []; NoUnits(x); }
  }

  lemma {:induction false} AfterInv(s: State, steps: seq<Step>)
    requires Inv(s) && Possible(s, steps)
    ensures Inv(After(s, steps))
    ensures After(s, steps).env.expire == s.env.expire
    decreases |steps|
  {
    hide Ledger, QueueOk, LogOk, ThreadOk, RunEffect, SendEffect;
    if steps != [] {
      NextLedger(s, steps[0]);
      match steps[0] {
        case Run(t, outcome, frames) =>
          LogStaysOk(s, t, outcome, frames);
          ThreadsStayOk(s, t, outcome, frames);
          EffectOnQueue(s.env, s.threads[t], s.shared, s.history, outcome, frames);
        case Send(whole, chunks) => SendInv(s, whole, chunks);
        case Reconnect =>
          WaitingIsOk(s.history, AwaitingMutex(false));
          SpawnKeepsContent(s, Effect(AwaitingMutex(false), s.shared, s.history));
        case Fire =>
          WaitingIsOk(s.history, TimerFired);
          SpawnKeepsContent(s, Effect(TimerFired, s.shared.(armed := s.shared.armed - 1), s.history));
        case _ =>
      }
      hide Next, Enabled;
      AfterInv(Next(s, steps[0]), steps[1..]);
    }
  }

  lemma WaitingIsOk(h: History, thread: Thread)
    requires thread.AwaitingMutex? || thread.TimerFired?
    ensures ThreadOk(h, thread)
  {
  }

  ghost predicate Reachable(s: State, enabled: bool, expire: int) {
    exists steps: seq<Step> :: Possible(Start(enabled, expire), steps) && After(Start(enabled, expire), steps) == s
  }

  lemma {:induction false} ReachableInv(enabled: bool, expire: int)
    ensures forall s | Reachable(s, enabled, expire) :: Inv(s) && s.env.expire == expire
  {
    hide Inv;
    var start := Start(enabled, expire);
    forall s | Reachable(s, enabled, expire) ensures Inv(s) && s.env.expire == expire {
      var steps: seq<Step> :| Possible(start, steps) && After(start, steps) == s;
      StartInv(enabled, expire);
      AfterInv(start, steps);
    }
  }

  /** At most one attempt of a unit puts a frame on the socket, whatever the interleaving, and all
      its attempts say the same thing. After anything but "not sent" there is no further attempt. */
  lemma {:induction false} AtMostOnce(s: State, enabled: bool, expire: int, i: nat, j: nat)
    requires Reachable(s, enabled, expire)
    requires i < j < |s.history.log| && s.history.log[i].id == s.history.log[j].id
    ensures s.history.log[i].outcome.NotSent?
    ensures s.history.log[i].frames == 0
    ensures s.history.log[j].frames <= 1
    ensures s.history.log[i].wire == s.history.log[j].wire
  {
    ReachableInv(enabled, expire);
    assert AttemptOk(expire, s.history, s.history.log[i]) && AttemptOk(expire, s.history, s.history.log[j]);
  }

  /** A flush that attempts a unit started no later than the expiry time after the unit first
      entered the queue, however often the unit was put back in between. */
  lemma {:induction false} ExpiredUnitsAreNotAttempted(s: State, enabled: bool, expire: int, i: nat)
    requires Reachable(s, enabled, expire)
    requires i < |s.history.log| && s.history.log[i].started.Some?
    ensures var a := s.history.log[i];
            a.id in s.history.born && a.started.value - s.history.born[a.id] <= expire
  {
    ReachableInv(enabled, expire);
    assert AttemptOk(expire, s.history, s.history.log[i]);
  }

  /** The queue is always the newest entries, at most 100, of those saved since it was last taken. */
  lemma {:induction false} QueueHoldsNewest(s: State, enabled: bool, expire: int)
    requires Reachable(s, enabled, expire)
    ensures s.shared.queue == Newest(s.history.appended)
    ensures |s.shared.queue| <= OFFLINE_QUEUE_MAX_SIZE
  {
    ReachableInv(enabled, expire);
  }

  /** Every unit ever created is, exactly once, with a thread, in the queue, or ended. */
  lemma {:induction false} EveryUnitIsSomewhereOnce(s: State, enabled: bool, expire: int, id: nat)
    requires Reachable(s, enabled, expire) && id < |s.history.bodies|
    ensures Held(s.threads, UnitToken(id)) + multiset(QueuedIds(s.shared.queue))[id]
      + multiset(s.history.ended)[id] == 1
  {
    ReachableInv(enabled, expire);
    assert LedgerAt(s, UnitToken(id));
  }

  /** No two goroutines are inside the flush at the same time. */
  lemma {:induction false} FlushesExclude(s: State, enabled: bool, expire: int, t: nat, u: nat)
    requires Reachable(s, enabled, expire) && t < u < |s.threads|
    ensures Weight(s.threads[t], MutexToken) + Weight(s.threads[u], MutexToken) <= 1
  {
    ReachableInv(enabled, expire);
    assert LedgerAt(s, MutexToken);
    HeldByTwo(s.threads, t, u, MutexToken);
  }

  /** At most one timer is armed, and only while a flush is marked as scheduled. */
  lemma {:induction false} OneTimer(s: State, enabled: bool, expire: int)
    requires Reachable(s, enabled, expire)
    ensures s.shared.armed <= if s.shared.scheduled then 1 else 0
  {
    ReachableInv(enabled, expire);
    assert LedgerAt(s, TimerToken);
  }
}
