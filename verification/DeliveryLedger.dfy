/** The delivery hook: durable rows begun before a send and ended by its result (admin/server.go). */
module DeliveryLedger {
  import opened Common

  datatype Status = Planned | Sending | MigrationHeld | Queued | Sent | Partial | NotSent | Unknown | Rejected
                  | Expired | AbandonedRestart | SkippedEmpty | Other

  /** The repository's rule for rewriting a row. */
  predicate ValidTransition(from: Status, to: Status) {
    to != Other && (from == to || match from
      case Planned => to in {Sending, MigrationHeld, Queued, SkippedEmpty, NotSent, Rejected, Unknown, Expired}
      case MigrationHeld => to in {Planned, Sending, Queued, NotSent, Rejected, Unknown, AbandonedRestart}
      case Queued => to in {Sending, NotSent, Rejected, Unknown, Expired}
      case Sending => to in {Sent, Partial, NotSent, Unknown, Rejected, AbandonedRestart, Queued}
      case _ => false)
  }

  type Route = string

  /** One call of the hook; createOk and moveOk say whether the store carries out the two writes. */
  datatype Call = Call(observed: bool, route: Route, status: Status, createOk: bool, moveOk: bool)

  datatype Ledger = Ledger(rows: map<nat, Status>, nextID: nat, active: map<Route, seq<nat>>)

  const EMPTY := Ledger(map[], 0, map[])

  function Lookup<T>(m: map<Route, seq<T>>, route: Route): seq<T> {
    if route in m then m[route] else []
  }

  predicate MoveTaken(rows: map<nat, Status>, id: nat, to: Status, ok: bool) {
    ok && id in rows && ValidTransition(rows[id], to)
  }

  function Moved(rows: map<nat, Status>, id: nat, to: Status, ok: bool): map<nat, Status> {
    if MoveTaken(rows, id, to, ok) then rows[id := to] else rows
  }

  predicate Opens(c: Call) {
    c.observed && c.status == Sending
  }

  predicate Skips(c: Call) {
    c.observed && c.status == SkippedEmpty
  }

  predicate Closes(c: Call) {
    c.observed && c.status != Sending && c.status != SkippedEmpty
  }

  function Popped(active: map<Route, seq<nat>>, route: Route): map<Route, seq<nat>>
    requires Lookup(active, route) != []
  {
    if |active[route]| == 1 then active - {route} else active[route := active[route][1..]]
  }

  function AfterCall(l: Ledger, c: Call): Ledger {
    if Opens(c) || Skips(c) then
      if !c.createOk then l else
      var rows := Moved(l.rows[l.nextID := Planned], l.nextID, c.status, c.moveOk);
      var active :=
        if Opens(c) && c.moveOk then l.active[c.route := Lookup(l.active, c.route) + [l.nextID]] else l.active;
      Ledger(rows, l.nextID + 1, active)
    else if Closes(c) && Lookup(l.active, c.route) != [] then
      Ledger(Moved(l.rows, l.active[c.route][0], c.status, c.moveOk), l.nextID, Popped(l.active, c.route))
    else l
  }

  class DeliveryHook {
    var rows: map<nat, Status>
    var nextID: nat
    var activeDeliveries: map<Route, seq<nat>>

    ghost function State(): Ledger
      reads this
    {
      Ledger(rows, nextID, activeDeliveries)
    }

    constructor ()
      ensures State() == EMPTY
    {
      rows, nextID, activeDeliveries := map[], 0, map[];
    }

    method CreateDeliveryRecord(ok: bool) returns (created: Option<nat>)
      modifies this`rows, this`nextID
      ensures created == if ok then Some(old(nextID)) else None
      ensures ok ==> rows == old(rows)[old(nextID) := Planned] && nextID == old(nextID) + 1
      ensures !ok ==> rows == old(rows) && nextID == old(nextID)
    {
      if !ok {
        return None;
      }
      created := Some(nextID);
      rows := rows[nextID := Planned];
      nextID := nextID + 1;
    }

    method TransitionDelivery(id: nat, status: Status, ok: bool) returns (taken: bool)
      modifies this`rows
      ensures rows == Moved(old(rows), id, status, ok) && taken == MoveTaken(old(rows), id, status, ok)
    {
      taken := ok && id in rows && ValidTransition(rows[id], status);
      if taken {
        rows := rows[id := status];
      }
    }

    method OnDelivery(c: Call)
      modifies this
      ensures State() == AfterCall(old(State()), c)
    {
      if !c.observed {
        return;
      }
      if c.status == Sending || c.status == SkippedEmpty {
        var created := CreateDeliveryRecord(c.createOk);
        if created.Some? {
          var taken := TransitionDelivery(created.value, c.status, c.moveOk);
          if c.status == Sending && taken {
            activeDeliveries := activeDeliveries[c.route := Lookup(activeDeliveries, c.route) + [created.value]];
          }
        }
        return;
      }
      var ids := Lookup(activeDeliveries, c.route);
      if |ids| > 0 {
        if |ids| == 1 {
          activeDeliveries := activeDeliveries - {c.route};
        } else {
          activeDeliveries := activeDeliveries[c.route := ids[1..]];
        }
        var _ := TransitionDelivery(ids[0], c.status, c.moveOk);
      }
    }
  }

  // ---- Which statuses may follow which ----

  /** A result, and the end of a row's history. */
  predicate Final(status: Status) {
    status in {Sent, Partial, NotSent, Unknown, Rejected, Expired, AbandonedRestart, SkippedEmpty}
  }

  predicate OpenStatus(status: Status) {
    status in {Planned, MigrationHeld, Queued, Sending}
  }

  /** A result is never rewritten, every open row can still fail, and only a row in sending can have been sent. */
  lemma WhatMayFollow(from: Status, to: Status)
    requires from != to
    ensures Final(from) || from == Other || to == Other ==> !ValidTransition(from, to)
    ensures to in {NotSent, Unknown, Rejected} ==> (ValidTransition(from, to) <==> OpenStatus(from))
    ensures to in {Sent, Partial} ==> (ValidTransition(from, to) <==> from == Sending)
    ensures to == Expired ==> (ValidTransition(from, to) <==> from in {Planned, Queued})
    ensures to == AbandonedRestart ==> (ValidTransition(from, to) <==> from in {MigrationHeld, Sending})
    ensures to in {Queued, Sending} ==> (ValidTransition(from, to) <==> OpenStatus(from))
    ensures to in {SkippedEmpty, MigrationHeld} ==> (ValidTransition(from, to) <==> from == Planned)
    ensures to == Planned ==> (ValidTransition(from, to) <==> from == MigrationHeld)
  {
  }

  // ---- Runs, with what was begun and ended on each route ----

  /** The ids begun on each route and the status each ended row ended in, both in order. */
  datatype History = History(begun: map<Route, seq<nat>>, ended: map<Route, seq<Status>>)

  /** What a closing call leaves behind: the given status, or sending when the store refuses. */
  function ClosingStatus(c: Call): Status {
    if c.moveOk && ValidTransition(Sending, c.status) then c.status else Sending
  }

  function Noted(l: Ledger, h: History, c: Call): History {
    if Opens(c) && c.createOk && c.moveOk then h.(begun := h.begun[c.route := Lookup(h.begun, c.route) + [l.nextID]])
    else if Closes(c) && Lookup(l.active, c.route) != [] then
      h.(ended := h.ended[c.route := Lookup(h.ended, c.route) + [ClosingStatus(c)]])
    else h
  }

  function Run(calls: seq<Call>): (Ledger, History) {
    if calls == [] then (EMPTY, History(map[], map[]))
    else
      var (l, h) := Run(calls[..|calls| - 1]);
      var c := calls[|calls| - 1];
      (AfterCall(l, c), Noted(l, h, c))
  }

  /** The ended rows come first, in the order they were begun; the rest wait in the queue. */
  ghost predicate QueueOk(rows: map<nat, Status>, waiting: seq<nat>, begun: seq<nat>, ended: seq<Status>) {
    && |ended| <= |begun|
    && waiting == begun[|ended|..]
    && (forall k | 0 <= k < |begun| ::
          begun[k] in rows && rows[begun[k]] == if k < |ended| then ended[k] else Sending)
  }

  ghost predicate RouteOk(l: Ledger, h: History, route: Route) {
    QueueOk(l.rows, Lookup(l.active, route), Lookup(h.begun, route), Lookup(h.ended, route))
  }

  /** A row begun at place k of a route. */
  predicate BegunAt(h: History, route: Route, k: nat, id: nat) {
    k < |Lookup(h.begun, route)| && Lookup(h.begun, route)[k] == id
  }

  ghost predicate BegunOnce(l: Ledger, h: History) {
    && (forall r, s, i: nat, j: nat, id: nat | BegunAt(h, r, i, id) && BegunAt(h, s, j, id) :: r == s && i == j)
    && (forall r, i: nat, id: nat | BegunAt(h, r, i, id) :: id < l.nextID)
    && (forall id | id in l.rows :: id < l.nextID)
  }

  ghost predicate SendingWasBegun(l: Ledger, h: History) {
    forall id | id in l.rows && l.rows[id] == Sending :: exists r, k: nat :: BegunAt(h, r, k, id)
  }

  ghost predicate LedgerOk(l: Ledger, h: History) {
    && (forall route :: RouteOk(l, h, route))
    && BegunOnce(l, h)
    && SendingWasBegun(l, h)
  }

  predicate OpensOn(c: Call, route: Route) {
    Opens(c) && c.createOk && c.moveOk && c.route == route
  }

  predicate ClosesOn(c: Call, route: Route) {
    Closes(c) && c.route == route
  }

  lemma OpenEffect(l: Ledger, h: History, c: Call, route: Route)
    requires Opens(c) || Skips(c)
    ensures
      var l', h' := AfterCall(l, c), Noted(l, h, c);
      var more := if OpensOn(c, route) then [l.nextID] else [];
      && Lookup(l'.active, route) == Lookup(l.active, route) + more
      && Lookup(h'.begun, route) == Lookup(h.begun, route) + more
      && h'.ended == h.ended
      && (forall id | id in l.rows && id != l.nextID :: id in l'.rows && l'.rows[id] == l.rows[id])
      && (OpensOn(c, route) ==> l.nextID in l'.rows && l'.rows[l.nextID] == Sending)
  {
  }

  lemma OpenKeepsRoutes(l: Ledger, h: History, c: Call)
    requires LedgerOk(l, h) && (Opens(c) || Skips(c))
    ensures forall route :: RouteOk(AfterCall(l, c), Noted(l, h, c), route)
  {
    hide BegunAt, SendingWasBegun, AfterCall, Noted, Lookup;
    forall route ensures RouteOk(AfterCall(l, c), Noted(l, h, c), route) {
      assert RouteOk(l, h, route);
      var begun := Lookup(h.begun, route);
      forall k: nat | k < |begun| ensures begun[k] < l.nextID {
        BegunBelow(l, h, route, k);
      }
      OpenEffect(l, h, c, route);
    }
  }

  lemma BegunBelow(l: Ledger, h: History, route: Route, k: nat)
    requires BegunOnce(l, h) && k < |Lookup(h.begun, route)|
    ensures Lookup(h.begun, route)[k] < l.nextID
  {
    assert BegunAt(h, route, k, Lookup(h.begun, route)[k]);
  }

  lemma OpenNotes(l: Ledger, h: History, c: Call, r: Route, i: nat, id: nat)
    requires Opens(c) || Skips(c)
    ensures BegunAt(Noted(l, h, c), r, i, id) <==>
      || BegunAt(h, r, i, id)
      || (Opens(c) && c.createOk && c.moveOk && id == l.nextID && r == c.route && i == |Lookup(h.begun, r)|)
  {
  }

  lemma OpenKeepsBegun(l: Ledger, h: History, c: Call)
    requires LedgerOk(l, h) && (Opens(c) || Skips(c))
    ensures BegunOnce(AfterCall(l, c), Noted(l, h, c))
    ensures SendingWasBegun(AfterCall(l, c), Noted(l, h, c))
  {
    hide BegunAt, RouteOk, Noted;
    var l', h' := AfterCall(l, c), Noted(l, h, c);
    forall r, i: nat, id ensures BegunAt(h', r, i, id) <==>
      || BegunAt(h, r, i, id)
      || (Opens(c) && c.createOk && c.moveOk && id == l.nextID && r == c.route && i == |Lookup(h.begun, r)|)
    {
      OpenNotes(l, h, c, r, i, id);
    }
    assert BegunOnce(l', h');
    forall id | id in l'.rows && l'.rows[id] == Sending ensures exists r, k: nat :: BegunAt(h', r, k, id) {
      if id == l.nextID {
        assert BegunAt(h', c.route, |Lookup(h.begun, c.route)|, id);
      } else {
        var r, k: nat :| BegunAt(h, r, k, id);
        assert BegunAt(h', r, k, id);
      }
    }
  }

  /** A closing call takes the oldest waiting row of its route. */
  lemma ClosedRow(l: Ledger, h: History, c: Call)
    requires LedgerOk(l, h) && Closes(c) && Lookup(l.active, c.route) != []
    ensures var id := Lookup(l.active, c.route)[0];
            && id in l.rows
            && BegunAt(h, c.route, |Lookup(h.ended, c.route)|, id)
            && AfterCall(l, c).rows == l.rows[id := ClosingStatus(c)]
            && Lookup(AfterCall(l, c).active, c.route) == Lookup(l.active, c.route)[1..]
  {
    hide BegunOnce, SendingWasBegun;
    assert RouteOk(l, h, c.route);
    var id := Lookup(h.begun, c.route)[|Lookup(h.ended, c.route)|];
    assert l.active[c.route][0] == id;
    assert l.rows[id] == Sending;
  }

  lemma CloseKeepsRoutes(l: Ledger, h: History, c: Call, id: nat)
    requires LedgerOk(l, h) && Closes(c) && Lookup(l.active, c.route) != []
    requires BegunAt(h, c.route, |Lookup(h.ended, c.route)|, id)
    requires AfterCall(l, c).rows == l.rows[id := ClosingStatus(c)] && id in l.rows
    ensures forall route :: RouteOk(AfterCall(l, c), Noted(l, h, c), route)
  {
    hide SendingWasBegun, ClosingStatus, Moved;
    forall route ensures RouteOk(AfterCall(l, c), Noted(l, h, c), route) {
      assert RouteOk(l, h, route);
      forall k | 0 <= k < |Lookup(h.begun, route)| && Lookup(h.begun, route)[k] == id
        ensures route == c.route && k == |Lookup(h.ended, c.route)|
      {
        assert BegunAt(h, route, k, id);
      }
    }
  }

  lemma SameBegun(l: Ledger, h: History, c: Call, id: nat)
    requires LedgerOk(l, h) && Closes(c) && Lookup(l.active, c.route) != []
    requires BegunAt(h, c.route, |Lookup(h.ended, c.route)|, id)
    requires AfterCall(l, c).rows == l.rows[id := ClosingStatus(c)] && id in l.rows
    ensures BegunOnce(AfterCall(l, c), Noted(l, h, c))
    ensures SendingWasBegun(AfterCall(l, c), Noted(l, h, c))
  {
    hide RouteOk, Popped, ClosingStatus;
    var l', h' := AfterCall(l, c), Noted(l, h, c);
    forall r, i: nat, x ensures BegunAt(h', r, i, x) <==> BegunAt(h, r, i, x) {}
    hide BegunAt;
    assert l'.nextID == l.nextID;
    forall x | x in l'.rows && l'.rows[x] == Sending ensures exists r, k: nat :: BegunAt(h', r, k, x) {
      if x == id {
        assert BegunAt(h', c.route, |Lookup(h.ended, c.route)|, x);
      } else {
        var r, k: nat :| BegunAt(h, r, k, x);
        assert BegunAt(h', r, k, x);
      }
    }
  }

  /** Every run keeps the books: rows are ended in the order they were begun, each exactly once. */
  lemma {:induction false} BooksAreKept(calls: seq<Call>)
    ensures LedgerOk(Run(calls).0, Run(calls).1)
  {
    hide RouteOk, BegunOnce, SendingWasBegun, AfterCall, Noted;
    if calls == [] {
      EmptyOk();
    } else {
      var (l, h) := Run(calls[..|calls| - 1]);
      var c := calls[|calls| - 1];
      BooksAreKept(calls[..|calls| - 1]);
      if Opens(c) || Skips(c) {
        OpenKeepsBegun(l, h, c);
        OpenKeepsRoutes(l, h, c);
      } else if Closes(c) && Lookup(l.active, c.route) != [] {
        var id := Lookup(l.active, c.route)[0];
        ClosedRow(l, h, c);
        CloseKeepsRoutes(l, h, c, id);
        SameBegun(l, h, c, id);
      } else {
        NothingNoted(l, h, c);
      }
    }
  }

  lemma NothingNoted(l: Ledger, h: History, c: Call)
    requires !Opens(c) && !Skips(c) && !(Closes(c) && Lookup(l.active, c.route) != [])
    ensures AfterCall(l, c) == l && Noted(l, h, c) == h
  {
  }

  lemma EmptyOk()
    ensures LedgerOk(EMPTY, History(map[], map[]))
  {
  }

  // ---- What stays ----

  lemma OtherRowStays(l: Ledger, h: History, c: Call, id: nat)
    requires LedgerOk(l, h) && id in l.rows && l.rows[id] != Sending
    ensures id in AfterCall(l, c).rows && AfterCall(l, c).rows[id] == l.rows[id]
  {
    assert RouteOk(l, h, c.route);
    if Closes(c) && Lookup(l.active, c.route) != [] {
      assert Lookup(l.active, c.route)[0] == Lookup(h.begun, c.route)[|Lookup(h.ended, c.route)|];
    }
  }

  /** Only a row in sending ever changes: a row with a result, and one that was never brought to sending, keeps its
      status whatever is called afterwards. */
  lemma {:induction false} OnlySendingRowsChange(calls: seq<Call>, more: seq<Call>, id: nat)
    requires id in Run(calls).0.rows && Run(calls).0.rows[id] != Sending
    ensures id in Run(calls + more).0.rows && Run(calls + more).0.rows[id] == Run(calls).0.rows[id]
    decreases |more|
  {
    hide AfterCall, Noted, LedgerOk;
    if more == [] {
      assert calls + more == calls;
    } else {
      var before := more[..|more| - 1];
      assert (calls + more)[..|calls + more| - 1] == calls + before;
      OnlySendingRowsChange(calls, before, id);
      BooksAreKept(calls + before);
      OtherRowStays(Run(calls + before).0, Run(calls + before).1, more[|more| - 1], id);
    }
  }

  /** The calls that create a row. */
  function Creations(calls: seq<Call>): nat {
    if calls == [] then 0 else
    var c := calls[|calls| - 1];
    Creations(calls[..|calls| - 1]) + if (Opens(c) || Skips(c)) && c.createOk then 1 else 0
  }

  /** Every row is some call's, numbered in order. */
  lemma {:induction false} EveryRowHasItsCall(calls: seq<Call>)
    ensures Run(calls).0.nextID == Creations(calls)
    ensures forall id: nat :: id in Run(calls).0.rows <==> id < Creations(calls)
  {
    hide Noted, LedgerOk;
    if calls != [] {
      var before, c := calls[..|calls| - 1], calls[|calls| - 1];
      EveryRowHasItsCall(before);
      if Closes(c) && Lookup(Run(before).0.active, c.route) != [] {
        BooksAreKept(before);
        FirstWaitingIsRow(Run(before).0, Run(before).1, c.route);
      }
    }
  }

  lemma FirstWaitingIsRow(l: Ledger, h: History, route: Route)
    requires LedgerOk(l, h) && Lookup(l.active, route) != []
    ensures Lookup(l.active, route)[0] in l.rows
  {
    assert RouteOk(l, h, route);
    assert Lookup(l.active, route)[0] == Lookup(h.begun, route)[|Lookup(h.ended, route)|];
  }

  /** A skipped message leaves a row that says so for ever; a row whose second write fails stays planned for ever; and
      neither waits for a closing. */
  lemma {:induction false} UnqueuedRowStays(calls: seq<Call>, c: Call, more: seq<Call>)
    requires c.createOk && (Skips(c) || (Opens(c) && !c.moveOk))
    ensures Creations(calls) in Run(calls + [c] + more).0.rows
    ensures Run(calls + [c] + more).0.rows[Creations(calls)] == if c.moveOk then SkippedEmpty else Planned
    ensures Run(calls + [c]).0.active == Run(calls).0.active
  {
    assert (calls + [c])[..|calls + [c]| - 1] == calls;
    EveryRowHasItsCall(calls);
    OnlySendingRowsChange(calls + [c], more, Creations(calls));
  }

  /** No empty queue is kept for a route. */
  lemma {:induction false} NoEmptyQueues(calls: seq<Call>, route: Route)
    ensures route in Run(calls).0.active ==> Run(calls).0.active[route] != []
  {
    hide Noted, Moved;
    if calls != [] { NoEmptyQueues(calls[..|calls| - 1], route); }
  }

  // ---- What this means for the store ----

  /** Waiting in some route's queue. */
  ghost predicate Waiting(l: Ledger, id: nat) {
    exists r, k: nat :: k < |Lookup(l.active, r)| && Lookup(l.active, r)[k] == id
  }

  /** No id waits twice, in one queue or in two. */
  lemma {:induction false} QueuedIdsDistinct(calls: seq<Call>, r: Route, s: Route, i: nat, j: nat)
    requires i < |Lookup(Run(calls).0.active, r)| && j < |Lookup(Run(calls).0.active, s)|
    requires Lookup(Run(calls).0.active, r)[i] == Lookup(Run(calls).0.active, s)[j]
    ensures r == s && i == j
  {
    hide Run;
    BooksAreKept(calls);
    var (l, h) := Run(calls);
    assert RouteOk(l, h, r) && RouteOk(l, h, s);
    assert BegunAt(h, r, |Lookup(h.ended, r)| + i, Lookup(l.active, r)[i]);
    assert BegunAt(h, s, |Lookup(h.ended, s)| + j, Lookup(l.active, r)[i]);
  }

  /** The store carries out every closing write, and every status given can follow sending. */
  predicate Written(calls: seq<Call>) {
    forall k | 0 <= k < |calls| && Closes(calls[k]) :: ClosingStatus(calls[k]) != Sending
  }

  // ---- Exactly when a row is left in sending ----

  /** How many rows of a route wait after these calls. */
  function Depth(calls: seq<Call>, route: Route): nat {
    if calls == [] then 0 else
    var before, c := Depth(calls[..|calls| - 1], route), calls[|calls| - 1];
    if OpensOn(c, route) then before + 1 else if ClosesOn(c, route) && before > 0 then before - 1 else before
  }

  /** Some closing call of a route took a waiting row out of the queue without rewriting it. */
  predicate Stuck(calls: seq<Call>, route: Route) {
    calls != [] &&
    var before, c := calls[..|calls| - 1], calls[|calls| - 1];
    Stuck(before, route) || (ClosesOn(c, route) && Depth(before, route) > 0 && ClosingStatus(c) == Sending)
  }

  lemma LengthStep(l: Ledger, c: Call, route: Route)
    ensures |Lookup(AfterCall(l, c).active, route)| ==
      if OpensOn(c, route) then |Lookup(l.active, route)| + 1
      else if ClosesOn(c, route) && Lookup(l.active, route) != [] then |Lookup(l.active, route)| - 1
      else |Lookup(l.active, route)|
  {
  }

  lemma {:induction false} QueueDepth(calls: seq<Call>, route: Route)
    ensures |Lookup(Run(calls).0.active, route)| == Depth(calls, route)
  {
    hide AfterCall;
    if calls != [] {
      QueueDepth(calls[..|calls| - 1], route);
      LengthStep(Run(calls[..|calls| - 1]).0, calls[|calls| - 1], route);
    }
  }

  predicate EndedIn(h: History, route: Route, k: nat, status: Status) {
    k < |Lookup(h.ended, route)| && Lookup(h.ended, route)[k] == status
  }

  lemma EndedStep(l: Ledger, h: History, c: Call, route: Route)
    ensures Lookup(Noted(l, h, c).ended, route) == Lookup(h.ended, route)
      + if ClosesOn(c, route) && Lookup(l.active, route) != [] then [ClosingStatus(c)] else []
  {
    hide ClosingStatus;
  }

  lemma {:induction false} StuckIff(calls: seq<Call>, route: Route)
    ensures Stuck(calls, route) <==> exists k: nat :: EndedIn(Run(calls).1, route, k, Sending)
  {
    hide AfterCall, Noted, ClosingStatus;
    if calls != [] {
      var before, c := calls[..|calls| - 1], calls[|calls| - 1];
      var (l, h) := Run(before);
      StuckIff(before, route);
      QueueDepth(before, route);
      EndedStep(l, h, c, route);
      if k: nat :| EndedIn(h, route, k, Sending) {
        assert EndedIn(Run(calls).1, route, k, Sending);
      }
      if ClosesOn(c, route) && Depth(before, route) > 0 && ClosingStatus(c) == Sending {
        assert EndedIn(Run(calls).1, route, |Lookup(h.ended, route)|, Sending);
      }
      if k: nat :| EndedIn(Run(calls).1, route, k, Sending) {
        if k < |Lookup(h.ended, route)| { assert EndedIn(h, route, k, Sending); }
      }
    }
  }

  predicate RowIn(l: Ledger, id: nat, status: Status) {
    id in l.rows && l.rows[id] == status
  }

  ghost predicate LeavesSending(calls: seq<Call>) {
    exists id: nat :: RowIn(Run(calls).0, id, Sending)
  }

  /** A row of the route waits, or was taken out of the queue without being rewritten. */
  predicate LeftOn(calls: seq<Call>, route: Route) {
    Depth(calls, route) > 0 || Stuck(calls, route)
  }

  /** For any calls with any failing writes: a row is left in sending exactly if one still waits in some route's queue
      or was taken out of it without being rewritten. */
  lemma {:induction false} RowLeftIff(calls: seq<Call>)
    ensures LeavesSending(calls) <==> exists route :: LeftOn(calls, route)
  {
    hide Run, Depth, Stuck;
    BooksAreKept(calls);
    var (l, h) := Run(calls);
    if id: nat :| RowIn(l, id, Sending) {
      var r, k: nat :| BegunAt(h, r, k, id);
      assert RouteOk(l, h, r);
      QueueDepth(calls, r);
      StuckIff(calls, r);
      if k < |Lookup(h.ended, r)| { assert EndedIn(h, r, k, Sending); }
      assert LeftOn(calls, r);
    }
    if route :| LeftOn(calls, route) {
      assert RouteOk(l, h, route);
      QueueDepth(calls, route);
      StuckIff(calls, route);
      if Stuck(calls, route) {
        var k: nat :| EndedIn(h, route, k, Sending);
        assert RowIn(l, Lookup(h.begun, route)[k], Sending);
      } else {
        assert RowIn(l, Lookup(h.begun, route)[|Lookup(h.ended, route)|], Sending);
      }
    }
  }

  // ---- Openings against closings ----

  function Weight(c: Call, route: Route): int {
    if OpensOn(c, route) then 1 else if ClosesOn(c, route) then -1 else 0
  }

  /** Successful openings minus closings on a route. */
  function Balance(calls: seq<Call>, route: Route): int {
    if calls == [] then 0 else Balance(calls[..|calls| - 1], route) + Weight(calls[|calls| - 1], route)
  }

  /** At no point more closings than openings. */
  ghost predicate NeverAhead(calls: seq<Call>, route: Route) {
    forall n | 0 <= n <= |calls| :: Balance(calls[..n], route) >= 0
  }

  /** From no point on more openings than closings. */
  ghost predicate NeverBehind(calls: seq<Call>, route: Route) {
    forall n | 0 <= n <= |calls| :: Balance(calls[n..], route) <= 0
  }

  /** If closings never run ahead, the queue's length is the difference, and a closing call that is not carried out
      always leaves a row behind. */
  lemma {:induction false} QueueLength(calls: seq<Call>, route: Route)
    requires NeverAhead(calls, route)
    ensures Depth(calls, route) == Balance(calls, route)
    ensures Stuck(calls, route) <==> exists k :: 0 <= k < |calls| && Fails(calls[k], route)
  {
    hide Weight, ClosingStatus;
    if calls != [] {
      var n := |calls| - 1;
      var before, c := calls[..n], calls[n];
      assert calls[..|calls|] == calls;
      forall m | 0 <= m <= n ensures Balance(before[..m], route) >= 0 { assert before[..m] == calls[..m]; }
      QueueLength(before, route);
      WeightOf(c, route);
      if Stuck(before, route) {
        var k :| 0 <= k < |before| && Fails(before[k], route);
        assert Fails(calls[k], route);
      }
      if k :| 0 <= k < |calls| && Fails(calls[k], route) {
        if k < n { assert Fails(before[k], route); }
      }
    }
  }

  lemma WeightOf(c: Call, route: Route)
    ensures Weight(c, route) == 1 <==> OpensOn(c, route)
    ensures Weight(c, route) == -1 <==> ClosesOn(c, route)
    ensures -1 <= Weight(c, route) <= 1
  {
  }

  /** A closing call of the route that leaves the row it takes in sending. */
  predicate Fails(c: Call, route: Route) {
    ClosesOn(c, route) && ClosingStatus(c) == Sending
  }

  predicate ClosedOn(calls: seq<Call>, route: Route) {
    Balance(calls, route) == 0
  }

  /** When closings never run ahead, none is left in sending exactly if all is closed and every closing is
      carried out. */
  lemma {:induction false} EvenRunLeavesNoneIff(calls: seq<Call>)
    requires forall route :: NeverAhead(calls, route)
    ensures !LeavesSending(calls) <==> Written(calls) && forall route :: ClosedOn(calls, route)
  {
    hide Balance, Depth, Stuck, ClosingStatus, Run, LeavesSending;
    RowLeftIff(calls);
    forall route
      ensures Depth(calls, route) == Balance(calls, route)
      ensures Stuck(calls, route) <==> exists k :: 0 <= k < |calls| && Fails(calls[k], route)
    {
      assert NeverAhead(calls, route);
      QueueLength(calls, route);
    }
    if !Written(calls) {
      var k :| 0 <= k < |calls| && Closes(calls[k]) && ClosingStatus(calls[k]) == Sending;
      assert Fails(calls[k], calls[k].route);
      assert LeftOn(calls, calls[k].route);
    } else if route :| !ClosedOn(calls, route) {
      assert calls[..|calls|] == calls && NeverAhead(calls, route);
      assert LeftOn(calls, route);
    } else {
      forall route ensures !LeftOn(calls, route) {
        assert ClosedOn(calls, route);
        if k :| 0 <= k < |calls| && Fails(calls[k], route) { assert false; }
      }
    }
  }

  lemma {:induction false} BalanceConcat(a: seq<Call>, b: seq<Call>, route: Route)
    ensures Balance(a + b, route) == Balance(a, route) + Balance(b, route)
  {
    hide Weight;
    if b == [] {
      assert a + b == a;
    } else {
      assert (a + b)[..|a + b| - 1] == a + b[..|b| - 1];
      BalanceConcat(a, b[..|b| - 1], route);
    }
  }

  /** A queue's length is the balance of what came after it was last empty. */
  lemma {:induction false} DepthIsSuffix(calls: seq<Call>, route: Route) returns (n: nat)
    ensures n <= |calls|
    ensures Depth(calls, route) == Balance(calls[n..], route)
  {
    hide Weight;
    if calls == [] {
      n := 0;
    } else {
      var m := |calls| - 1;
      n := DepthIsSuffix(calls[..m], route);
      assert calls[n..] == calls[..m][n..] + [calls[m]];
      BalanceConcat(calls[..m][n..], [calls[m]], route);
      WeightOf(calls[m], route);
      if Depth(calls[..m], route) == 0 && ClosesOn(calls[m], route) {
        n := |calls|;
      }
    }
  }

  /** However openings fail: if every opening is followed by a closing and every closing is carried out, none is
      left. */
  lemma {:induction false} SettledRunLeavesNoneSending(calls: seq<Call>)
    requires Written(calls) && forall route :: NeverBehind(calls, route)
    ensures !LeavesSending(calls)
  {
    hide Balance, Depth, Run, ClosingStatus;
    RowLeftIff(calls);
    forall route ensures !LeftOn(calls, route) {
      assert NeverBehind(calls, route);
      var n := DepthIsSuffix(calls, route);
      NothingStuck(calls, route);
    }
  }

  lemma {:induction false} NothingStuck(calls: seq<Call>, route: Route)
    requires Written(calls)
    ensures !Stuck(calls, route)
  {
    hide Depth, ClosingStatus;
    if calls != [] {
      var last := calls[|calls| - 1];
      assert Closes(last) ==> ClosingStatus(last) != Sending;
      NothingStuck(calls[..|calls| - 1], route);
    }
  }

  /** If closing calls are carried out, the rows in sending are exactly the rows that wait in a queue. */
  lemma {:induction false} SendingIffWaiting(calls: seq<Call>, id: nat)
    requires Written(calls)
    ensures RowIn(Run(calls).0, id, Sending) <==> Waiting(Run(calls).0, id)
  {
    hide Run, Written, Stuck, BegunOnce, RouteOk, Lookup;
    BooksAreKept(calls);
    var (l, h) := Run(calls);
    if RowIn(l, id, Sending) {
      var r, k: nat :| BegunAt(h, r, k, id);
      NothingStuck(calls, r);
      StuckIff(calls, r);
      WaitingPlace(l, h, r, k, id);
    }
    if Waiting(l, id) {
      var r, k: nat :| k < |Lookup(l.active, r)| && Lookup(l.active, r)[k] == id;
      assert RouteOk(l, h, r);
      WaitingIsSending(l, h, r, k);
    }
  }

  lemma WaitingPlace(l: Ledger, h: History, r: Route, k: nat, id: nat)
    requires RouteOk(l, h, r) && BegunAt(h, r, k, id) && RowIn(l, id, Sending)
    requires forall n: nat :: !EndedIn(h, r, n, Sending)
    ensures Waiting(l, id)
  {
    var n := |Lookup(h.ended, r)|;
    assert !EndedIn(h, r, k, Sending);
    assert Lookup(l.active, r)[k - n] == id;
  }

  lemma WaitingIsSending(l: Ledger, h: History, r: Route, k: nat)
    requires RouteOk(l, h, r) && k < |Lookup(l.active, r)|
    ensures RowIn(l, Lookup(l.active, r)[k], Sending)
  {
    assert Lookup(h.begun, r)[|Lookup(h.ended, r)| + k] == Lookup(l.active, r)[k];
  }

  // ---- Results go to rows in order, not to the send they belong to ----

  lemma RunAppend(calls: seq<Call>, c: Call)
    ensures Run(calls + [c]).0 == AfterCall(Run(calls).0, c)
    ensures Run(calls + [c]).1 == Noted(Run(calls).0, Run(calls).1, c)
  {
    assert (calls + [c])[..|calls|] == calls;
  }

  lemma FourCalls(a: Call, b: Call, c: Call, d: Call)
    ensures Run([a, b, c, d]).0 == AfterCall(AfterCall(AfterCall(AfterCall(EMPTY, a), b), c), d)
  {
    hide AfterCall, Noted;
    RunAppend([a, b, c], d);
    RunAppend([a, b], c);
    RunAppend([a], b);
    RunAppend([], a);
    assert [a, b, c] + [d] == [a, b, c, d] && [a, b] + [c] == [a, b, c] && [a] + [b] == [a, b] && [] + [a] == [a];
  }

  lemma BeginRow(l: Ledger, route: Route)
    ensures AfterCall(l, Call(true, route, Sending, true, true))
         == Ledger(l.rows[l.nextID := Sending], l.nextID + 1, l.active[route := Lookup(l.active, route) + [l.nextID]])
  {
    assert l.rows[l.nextID := Planned][l.nextID := Sending] == l.rows[l.nextID := Sending];
  }

  lemma EndRow(l: Ledger, route: Route, status: Status, ids: seq<nat>)
    requires route in l.active && l.active[route] == ids && |ids| > 0 && ids[0] in l.rows && l.rows[ids[0]] == Sending
    requires status != SkippedEmpty && status != Sending && ValidTransition(Sending, status)
    ensures
      var l' := AfterCall(l, Call(true, route, status, true, true));
      && l'.rows == l.rows[ids[0] := status]
      && (|ids| > 1 ==> l'.active == l.active[route := ids[1..]])
  {
  }

  /** Two sends of one route that overlap and finish the other way round exchange their results. */
  lemma {:induction false} OverlapExchangesResults(route: Route)
    ensures
      var begin := Call(true, route, Sending, true, true);
      var secondDone := Call(true, route, Sent, true, true);
      var firstDone := Call(true, route, Rejected, true, true);
      Run([begin, begin, secondDone, firstDone]).0.rows == map[0 := Sent, 1 := Rejected]
  {
    hide Run, AfterCall;
    var begin := Call(true, route, Sending, true, true);
    var secondDone := Call(true, route, Sent, true, true);
    FourCalls(begin, begin, secondDone, Call(true, route, Rejected, true, true));
    BeginRow(EMPTY, route);
    var l1 := AfterCall(EMPTY, begin);
    BeginRow(l1, route);
    var l2 := AfterCall(l1, begin);
    EndRow(l2, route, Sent, [0, 1]);
    EndRow(AfterCall(l2, secondDone), route, Rejected, [1]);
  }
}
