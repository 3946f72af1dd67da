/** The round-robin queue that decides which id is refreshed next (utils/emitQueue.go). */
module EmitQueue {
  import opened Common

  type Id = string

  /** A subscription type is the set of its basic units. */
  type Kind = set<string>

  datatype Entry = Entry(id: Id, kind: Kind)

  /** The list and the cursor: the place of the element to emit next, or nil. */
  datatype Queue = Queue(list: seq<Entry>, cur: Option<nat>)

  ghost predicate UniqueIds(list: seq<Entry>) {
    forall i, j | 0 <= i < j < |list| :: list[i].id != list[j].id
  }

  ghost predicate ValidQueue(q: Queue) {
    && UniqueIds(q.list)
    && (q.cur.Some? ==> q.cur.value < |q.list|)
  }

  /** The first place with this id, |list| if there is none. */
  function Find(list: seq<Entry>, id: Id): (k: nat)
    ensures k <= |list| && (forall i | 0 <= i < k :: list[i].id != id) && (k < |list| ==> list[k].id == id)
  {
    if list == [] || list[0].id == id then 0 else 1 + Find(list[1..], id)
  }

  lemma FindAt(list: seq<Entry>, id: Id, k: nat)
    requires k <= |list| && (forall i | 0 <= i < k :: list[i].id != id) && (k < |list| ==> list[k].id == id)
    ensures Find(list, id) == k
  {
  }

  predicate Holds(q: Queue, id: Id) {
    Find(q.list, id) < |q.list|
  }

  function Remove(list: seq<Entry>, k: nat): seq<Entry>
    requires k < |list|
  {
    list[..k] + list[k + 1..]
  }

  function Added(q: Queue, e: Entry): Queue {
    var k := Find(q.list, e.id);
    var list := if k < |q.list| then q.list[k := Entry(e.id, q.list[k].kind + e.kind)] else q.list + [e];
    Queue(list, if |list| == 1 then Some(0) else q.cur)
  }

  function Updated(q: Queue, e: Entry): Queue {
    var k := Find(q.list, e.id);
    if k < |q.list| then q.(list := q.list[k := e]) else q
  }

  /** A cursor on the removed element moves to the next one; behind it, places shift by one. */
  function Deleted(q: Queue, id: Id): Queue {
    var k := Find(q.list, id);
    if k == |q.list| then q else
    var cur := match q.cur
      case None => None
      case Some(c) => if c > k then Some(c - 1) else if c == k == |q.list| - 1 then None else Some(c);
    Queue(Remove(q.list, k), if |q.list| == 1 then None else cur)
  }

  /** Where the next emission starts: a nil cursor means the front. */
  function Cursor(q: Queue): nat {
    if q.cur.Some? then q.cur.value else 0
  }

  function Emitted(q: Queue): Option<Entry> {
    if Cursor(q) < |q.list| then Some(q.list[Cursor(q)]) else None
  }

  function AfterEmit(q: Queue): Queue {
    if |q.list| == 0 then q
    else q.(cur := if Cursor(q) + 1 < |q.list| then Some(Cursor(q) + 1) else None)
  }

  // ---- The queue updated in place ----

  class EmitQueue {
    var eqlist: seq<Entry>
    var eqlistCur: Option<nat>

    ghost function State(): Queue
      reads this
    {
      Queue(eqlist, eqlistCur)
    }

    constructor ()
      ensures State() == Queue([], None)
    {
      eqlist, eqlistCur := [], None;
    }

    method Add(e: Entry)
      modifies this
      ensures State() == Added(old(State()), e)
    {
      if |eqlist| == 0 {
        eqlist := [e];
      } else {
        var found := false;
        var head := 0;
        while head < |eqlist| && !found
          invariant head <= |eqlist|
          invariant eqlistCur == old(eqlistCur)
          invariant found ==> head < |eqlist| && |eqlist| == |old(eqlist)| && old(eqlist)[head].id == e.id
                              && eqlist == old(eqlist)[head := Entry(e.id, old(eqlist)[head].kind + e.kind)]
          invariant !found ==> eqlist == old(eqlist)
          invariant forall i | 0 <= i < head :: old(eqlist)[i].id != e.id
          decreases |eqlist| - head, !found
        {
          if eqlist[head].id == e.id {
            eqlist := eqlist[head := Entry(e.id, eqlist[head].kind + e.kind)];
            found := true;
          } else {
            head := head + 1;
          }
        }
        FindAt(old(eqlist), e.id, head);
        if !found {
          eqlist := eqlist + [e];
        }
      }
      if |eqlist| == 1 {
        eqlistCur := Some(0);
      }
    }

    method Update(e: Entry)
      requires UniqueIds(eqlist)
      modifies this`eqlist
      ensures State() == Updated(old(State()), e)
    {
      var k := Find(eqlist, e.id);
      for head := 0 to |eqlist|
        invariant |eqlist| == |old(eqlist)|
        invariant eqlist == if k < head then old(eqlist)[k := e] else old(eqlist)
      {
        if eqlist[head].id == e.id {
          assert head == k;
          eqlist := eqlist[head := Entry(eqlist[head].id, e.kind)];
        }
      }
    }

    /** The loop ends with the removal: a removed element has no next one. */
    method Delete(id: Id)
      requires ValidQueue(State())
      modifies this
      ensures State() == Deleted(old(State()), id)
    {
      var head := 0;
      while head < |eqlist|
        invariant head <= |eqlist|
        invariant State() == old(State())
        invariant forall i | 0 <= i < head :: eqlist[i].id != id
      {
        if eqlist[head].id == id {
          FindAt(eqlist, id, head);
          if eqlistCur.Some? && eqlistCur.value >= head {
            if eqlistCur.value > head {
              eqlistCur := Some(eqlistCur.value - 1);
            } else if head + 1 == |eqlist| {
              eqlistCur := None;
            }
          }
          eqlist := Remove(eqlist, head);
          break;
        }
        head := head + 1;
      }
      if head == |eqlist| && State() == old(State()) {
        FindAt(eqlist, id, head);
      }
      if |eqlist| == 0 {
        eqlistCur := None;
      }
    }

    /** One turn of the core loop, after its timer fired. */
    method EmitNext() returns (head: Option<Entry>)
      requires ValidQueue(State())
      modifies this`eqlistCur
      ensures State() == AfterEmit(old(State())) && head == Emitted(old(State()))
    {
      if |eqlist| == 0 {
        return None;
      }
      if eqlistCur == None {
        eqlistCur := Some(0);
      }
      var c := eqlistCur.value;
      head := Some(eqlist[c]);
      eqlistCur := if c + 1 < |eqlist| then Some(c + 1) else None;
    }
  }

  // ---- Runs ----

  datatype Op = Add(e: Entry) | Update(e: Entry) | Delete(id: Id) | Emit

  function Apply(q: Queue, op: Op): Queue {
    match op
    case Add(e) => Added(q, e)
    case Update(e) => Updated(q, e)
    case Delete(id) => Deleted(q, id)
    case Emit => AfterEmit(q)
  }

  function Run(q: Queue, ops: seq<Op>): Queue
    decreases |ops|
  {
    if ops == [] then q else Run(Apply(q, ops[0]), ops[1..])
  }

  predicate EmitsNow(q: Queue, op: Op, x: Id) {
    op.Emit? && Emitted(q).Some? && Emitted(q).value.id == x
  }

  /** How often x is emitted. */
  function Times(q: Queue, ops: seq<Op>, x: Id): nat
    decreases |ops|
  {
    if ops == [] then 0 else (if EmitsNow(q, ops[0], x) then 1 else 0) + Times(Apply(q, ops[0]), ops[1..], x)
  }

  function Emissions(ops: seq<Op>): nat {
    if ops == [] then 0 else (if ops[0].Emit? then 1 else 0) + Emissions(ops[1..])
  }

  function Adds(ops: seq<Op>): nat {
    if ops == [] then 0 else (if ops[0].Add? then 1 else 0) + Adds(ops[1..])
  }

  ghost predicate Keeps(ops: seq<Op>, x: Id) {
    Delete(x) !in ops
  }

  lemma RemoveUnique(list: seq<Entry>, k: nat)
    requires UniqueIds(list) && k < |list|
    ensures UniqueIds(Remove(list, k))
  {
    forall i, j | 0 <= i < j < |list| - 1 ensures Remove(list, k)[i].id != Remove(list, k)[j].id {
      assert Remove(list, k)[i] == list[if i < k then i else i + 1];
      assert Remove(list, k)[j] == list[if j < k then j else j + 1];
    }
  }

  lemma ApplyValid(q: Queue, op: Op)
    requires ValidQueue(q)
    ensures ValidQueue(Apply(q, op))
  {
    hide Remove;
    if op.Delete? && Holds(q, op.id) {
      RemoveUnique(q.list, Find(q.list, op.id));
      assert |Remove(q.list, Find(q.list, op.id))| == |q.list| - 1 by { RemoveLength(q.list, Find(q.list, op.id)); }
    }
  }

  lemma RemoveLength(list: seq<Entry>, k: nat)
    requires k < |list|
    ensures |Remove(list, k)| == |list| - 1
  {
  }

  /** Ids stay unique and the cursor stays nil or in the list, whatever is called in whatever order. */
  lemma {:induction false} AlwaysValid(q: Queue, ops: seq<Op>)
    requires ValidQueue(q)
    ensures ValidQueue(Run(q, ops))
    decreases |ops|
  {
    if ops != [] {
      ApplyValid(q, ops[0]);
      AlwaysValid(Apply(q, ops[0]), ops[1..]);
    }
  }

  /** What is added to an empty queue is the next to be emitted, and the cursor stands on it. */
  lemma FirstIsNext(q: Queue, e: Entry)
    requires q.list == []
    ensures Added(q, e) == Queue([e], Some(0)) && Emitted(Added(q, e)) == Some(e)
  {
  }

  /** An emission leaves the list alone, and ends the round exactly if it was of the last element. */
  lemma RoundEndsIff(q: Queue)
    requires ValidQueue(q) && q.list != []
    ensures AfterEmit(q).list == q.list
    ensures AfterEmit(q).cur == None <==> Emitted(q) == Some(q.list[|q.list| - 1])
  {
    var last := |q.list| - 1;
    assert Cursor(q) < last ==> q.list[Cursor(q)].id != q.list[last].id;
  }

  // ---- Kinds ----

  /** What the queue knows of an id; nothing if it does not hold it. */
  function KindOf(q: Queue, x: Id): Kind {
    if Holds(q, x) then q.list[Find(q.list, x)].kind else {}
  }

  lemma FindInRest(list: seq<Entry>, k: nat, x: Id)
    requires UniqueIds(list) && k < |list|
    ensures
      var i, rest := Find(list, x), Remove(list, k);
      && (x == list[k].id ==> Find(rest, x) == |rest|)
      && (x != list[k].id && i < |list| ==> Find(rest, x) < |rest| && rest[Find(rest, x)] == list[i])
      && (i == |list| ==> Find(rest, x) == |rest|)
  {
    var i, rest := Find(list, x), Remove(list, k);
    assert |rest| == |list| - 1 by { RemoveLength(list, k); }
    assert forall j | 0 <= j < |rest| :: rest[j] == list[if j < k then j else j + 1];
    if x == list[k].id || i == |list| {
      FindAt(rest, x, |rest|);
    } else {
      FindAt(rest, x, if i < k then i else i - 1);
    }
  }

  /** What one operation does to what is known of an id: an addition merges, an update replaces, a deletion forgets, and
      no operation touches another id. */
  lemma {:induction false} KindAfter(q: Queue, op: Op, x: Id)
    requires ValidQueue(q)
    ensures Holds(Apply(q, op), x) <==> (op.Add? && op.e.id == x) || (Holds(q, x) && op != Delete(x))
    ensures KindOf(Apply(q, op), x) ==
      match op
      case Add(e) => if e.id == x then KindOf(q, x) + e.kind else KindOf(q, x)
      case Update(e) => if e.id == x && Holds(q, x) then e.kind else KindOf(q, x)
      case Delete(id) => if id == x then {} else KindOf(q, x)
      case Emit => KindOf(q, x)
  {
    hide Remove;
    match op {
      case Add(e) => AddedKind(q, e, x);
      case Update(e) => UpdatedKind(q, e, x);
      case Delete(id) => if Holds(q, id) { FindInRest(q.list, Find(q.list, id), x); }
      case Emit =>
    }
  }

  lemma AddedKind(q: Queue, e: Entry, x: Id)
    ensures Holds(Added(q, e), x) <==> e.id == x || Holds(q, x)
    ensures KindOf(Added(q, e), x) == if e.id == x then KindOf(q, x) + e.kind else KindOf(q, x)
  {
    var list := Added(q, e).list;
    var i := Find(q.list, x);
    if Holds(q, e.id) || Holds(q, x) || e.id == x {
      FindAt(list, x, i);
    } else {
      FindAt(list, x, |list|);
    }
  }

  lemma UpdatedKind(q: Queue, e: Entry, x: Id)
    ensures Holds(Updated(q, e), x) <==> Holds(q, x)
    ensures KindOf(Updated(q, e), x) == if e.id == x && Holds(q, x) then e.kind else KindOf(q, x)
  {
    FindAt(Updated(q, e).list, x, Find(q.list, x));
  }

  function AddedKinds(ops: seq<Op>, x: Id): Kind {
    if ops == [] then {} else (if ops[0].Add? && ops[0].e.id == x then ops[0].e.kind else {}) + AddedKinds(ops[1..], x)
  }

  /** Over every run, what is known of an id that is neither updated nor deleted is all that was ever added for it. */
  lemma {:induction false} KindsAreMerged(q: Queue, ops: seq<Op>, x: Id)
    requires ValidQueue(q) && Keeps(ops, x) && forall e: Entry | Update(e) in ops :: e.id != x
    ensures KindOf(Run(q, ops), x) == KindOf(q, x) + AddedKinds(ops, x)
    decreases |ops|
  {
    hide KindOf, Apply;
    if ops != [] {
      KindAfter(q, ops[0], x);
      ApplyValid(q, ops[0]);
      KindsAreMerged(Apply(q, ops[0]), ops[1..], x);
    }
  }

  /** What is emitted carries what is known of its id at that moment. */
  lemma {:induction false} EmittedKindIsCurrent(q: Queue)
    requires ValidQueue(q)
    ensures q.list != [] ==> Emitted(q).Some?
    ensures Emitted(q).Some? ==>
      Holds(q, Emitted(q).value.id) && Emitted(q).value.kind == KindOf(q, Emitted(q).value.id)
  {
    if Emitted(q).Some? { FindAt(q.list, Emitted(q).value.id, Cursor(q)); }
  }

  // ---- Fairness ----

  /** Places from the cursor to place k, going round a list of n. */
  function Gap(n: nat, cursor: nat, k: nat): nat
    requires cursor <= n
  {
    if cursor <= k then k - cursor else n - cursor + k
  }

  /** How many emissions come before x's. */
  function Ahead(q: Queue, x: Id): nat
    requires ValidQueue(q) && Holds(q, x)
  {
    Gap(|q.list|, Cursor(q), Find(q.list, x))
  }

  lemma FindUnique(list: seq<Entry>, k: nat)
    requires UniqueIds(list) && k < |list|
    ensures Find(list, list[k].id) == k
  {
  }

  /** The list's length, the cursor and the place of x after a step that does not delete x. */
  lemma PlacesAfter(q: Queue, op: Op, x: Id)
    requires ValidQueue(q) && Holds(q, x) && op != Delete(x)
    ensures
      var n, c, k := |q.list|, Cursor(q), Find(q.list, x);
      var next := Apply(q, op);
      var n', c', k' := |next.list|, Cursor(next), Find(next.list, x);
      match op
      case Emit => n' == n && c' == (if c + 1 < n then c + 1 else 0) && k' == k
      case Update(_) => n' == n && c' == c && k' == k
      case Add(e) => n <= n' <= n + 1 && c' == (if n' == 1 then 0 else c) && k' == k
      case Delete(id) =>
        var j := Find(q.list, id);
        if j == n then n' == n && c' == c && k' == k
        else && j != k && n' == n - 1 && k' == (if k > j then k - 1 else k)
             && c' == (if c > j then c - 1 else if c == j == n - 1 then 0 else c)
  {
    hide Added, Updated, Deleted, Find;
    match op {
      case Emit =>
      case Update(e) => PlacesAfterUpdate(q, e, x);
      case Add(e) => PlacesAfterAdd(q, e, x);
      case Delete(id) => PlacesAfterDelete(q, id, x);
    }
  }

  lemma PlacesAfterUpdate(q: Queue, e: Entry, x: Id)
    requires ValidQueue(q) && Holds(q, x)
    ensures |Updated(q, e).list| == |q.list|
    ensures Cursor(Updated(q, e)) == Cursor(q)
    ensures Find(Updated(q, e).list, x) == Find(q.list, x)
  {
    var k := Find(q.list, e.id);
    if k < |q.list| {
      hide Find;
      FindAfterSet(q.list, k, e, Find(q.list, x));
    }
  }

  lemma PlacesAfterAdd(q: Queue, e: Entry, x: Id)
    requires ValidQueue(q) && Holds(q, x)
    ensures
      var next := Added(q, e);
      && |q.list| <= |next.list| <= |q.list| + 1
      && Cursor(next) == (if |next.list| == 1 then 0 else Cursor(q))
      && Find(next.list, x) == Find(q.list, x)
  {
    hide Find;
    var k := Find(q.list, e.id);
    if k < |q.list| {
      FindAfterSet(q.list, k, Entry(e.id, q.list[k].kind + e.kind), Find(q.list, x));
    } else {
      FindAt(q.list + [e], x, Find(q.list, x));
    }
  }

  lemma PlacesAfterDelete(q: Queue, id: Id, x: Id)
    requires ValidQueue(q) && Holds(q, x) && id != x
    ensures
      var n, c, k, j := |q.list|, Cursor(q), Find(q.list, x), Find(q.list, id);
      var next := Deleted(q, id);
      if j == n then next == q
      else && j != k && |next.list| == n - 1 && Find(next.list, x) == (if k > j then k - 1 else k)
           && Cursor(next) == (if c > j then c - 1 else if c == j == n - 1 then 0 else c)
  {
    hide Find, Remove;
    var j := Find(q.list, id);
    if j < |q.list| {
      RemoveLength(q.list, j);
      FindAfterRemove(q.list, j, Find(q.list, x));
    }
  }

  /** Replacing an entry by one with the same id moves nothing. */
  lemma FindAfterSet(list: seq<Entry>, j: nat, e: Entry, k: nat)
    requires UniqueIds(list) && j < |list| && e.id == list[j].id && k < |list|
    ensures Find(list[j := e], list[k].id) == k
  {
    FindUnique(list[j := e], k);
  }

  lemma FindAfterRemove(list: seq<Entry>, j: nat, k: nat)
    requires UniqueIds(list) && j < |list| && k < |list| && j != k
    ensures Find(Remove(list, j), list[k].id) == if k > j then k - 1 else k
  {
    RemoveUnique(list, j);
    FindUnique(Remove(list, j), if k > j then k - 1 else k);
  }

  /** An emission serves x or brings it one closer; nothing else but an Add can push it back, and that by one. */
  lemma AheadStep(q: Queue, op: Op, x: Id)
    requires ValidQueue(q) && Holds(q, x) && op != Delete(x)
    ensures ValidQueue(Apply(q, op)) && Holds(Apply(q, op), x)
    ensures EmitsNow(q, op, x) <==> op.Emit? && Ahead(q, x) == 0
    ensures op.Emit? && Ahead(q, x) > 0 ==> Ahead(Apply(q, op), x) == Ahead(q, x) - 1
    ensures op.Emit? && Ahead(q, x) == 0 ==> Ahead(Apply(q, op), x) == |q.list| - 1
    ensures !op.Emit? ==> Ahead(Apply(q, op), x) <= Ahead(q, x) + if op.Add? then 1 else 0
  {
    hide Apply, Find;
    ApplyValid(q, op);
    PlacesAfter(q, op, x);
    if op.Emit? { FindUnique(q.list, Cursor(q)); }
  }

  /** An element that stays is emitted within as many emissions as are ahead of it, plus the additions. */
  lemma {:induction false} Fairness(q: Queue, ops: seq<Op>, x: Id)
    requires ValidQueue(q) && Holds(q, x) && Keeps(ops, x)
    requires Emissions(ops) > Ahead(q, x) + Adds(ops)
    ensures Times(q, ops, x) >= 1
    decreases |ops|
  {
    AheadStep(q, ops[0], x);
    if !EmitsNow(q, ops[0], x) {
      Fairness(Apply(q, ops[0]), ops[1..], x);
    }
  }

  /** Never more than the list's length plus the additions. */
  lemma {:induction false} EmittedWithinListLength(q: Queue, ops: seq<Op>, x: Id)
    requires ValidQueue(q) && Holds(q, x) && Keeps(ops, x)
    requires Emissions(ops) >= |q.list| + Adds(ops)
    ensures Times(q, ops, x) >= 1
  {
    Fairness(q, ops, x);
  }

  /** Which of two elements comes next changes only by an emission. */
  lemma OrderKept(q: Queue, op: Op, x: Id, y: Id)
    requires ValidQueue(q) && Holds(q, x) && Holds(q, y) && x != y && op != Delete(x) && op != Delete(y)
    requires Ahead(q, x) < Ahead(q, y)
    ensures ValidQueue(Apply(q, op))
    ensures Holds(Apply(q, op), x)
    ensures Holds(Apply(q, op), y)
    ensures !EmitsNow(q, op, y)
    ensures Ahead(Apply(q, op), x) < Ahead(Apply(q, op), y) <==> !EmitsNow(q, op, x)
  {
    hide Apply, Find, EmitsNow;
    AheadStep(q, op, x);
    AheadStep(q, op, y);
    if !op.Emit? {
      OrderKeptBetweenEmissions(q, op, x, y);
    }
  }

  lemma OrderKeptBetweenEmissions(q: Queue, op: Op, x: Id, y: Id)
    requires ValidQueue(q) && Holds(q, x) && Holds(q, y) && x != y && op != Delete(x) && op != Delete(y)
    requires ValidQueue(Apply(q, op)) && Holds(Apply(q, op), x) && Holds(Apply(q, op), y) && !op.Emit?
    requires Ahead(q, x) < Ahead(q, y)
    ensures Ahead(Apply(q, op), x) < Ahead(Apply(q, op), y)
  {
    hide Apply, Find, UniqueIds;
    PlacesAfter(q, op, x);
    PlacesAfter(q, op, y);
  }

  lemma {:induction false} TakeTurns(q: Queue, ops: seq<Op>, x: Id, y: Id)
    requires ValidQueue(q) && Holds(q, x) && Holds(q, y) && x != y && Keeps(ops, x) && Keeps(ops, y)
    requires Ahead(q, x) < Ahead(q, y)
    ensures Times(q, ops, y) <= Times(q, ops, x) <= Times(q, ops, y) + 1
    decreases |ops|
  {
    if ops != [] {
      var next := Apply(q, ops[0]);
      OrderKept(q, ops[0], x, y);
      if EmitsNow(q, ops[0], x) {
        TakeTurns(next, ops[1..], y, x);
      } else {
        TakeTurns(next, ops[1..], x, y);
      }
    }
  }

  /** Over every run, two elements that stay are emitted equally often, up to one. */
  lemma {:induction false} EqualShares(q: Queue, ops: seq<Op>, x: Id, y: Id)
    requires ValidQueue(q) && Holds(q, x) && Holds(q, y) && Keeps(ops, x) && Keeps(ops, y)
    ensures -1 <= Times(q, ops, x) - Times(q, ops, y) <= 1
  {
    if x != y {
      if Ahead(q, x) < Ahead(q, y) { TakeTurns(q, ops, x, y); } else { TakeTurns(q, ops, y, x); }
    }
  }
}
