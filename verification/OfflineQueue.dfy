/** The messenger's offline queue and its sequential operations (adapter/messenger.go). */
module OfflineQueue {
  import opened Outcomes
  import Segments

  const OFFLINE_QUEUE_MAX_SIZE := 100

  /** Something to deliver: one chunk, or a message queued whole. */
  datatype Unit = Unit(id: nat, elements: seq<Segments.Element>)

  datatype Queued = Queued(unit: Unit, createdAt: int)

  /** saveOfflineMsg: a full queue loses its oldest entry. */
  function Saved(queue: seq<Queued>, msg: Queued): seq<Queued> {
    (if |queue| >= OFFLINE_QUEUE_MAX_SIZE then queue[1..] else queue) + [msg]
  }

  function SavedAll(queue: seq<Queued>, msgs: seq<Queued>): seq<Queued>
    decreases |msgs|
  {
    if msgs == [] then queue else SavedAll(Saved(queue, msgs[0]), msgs[1..])
  }

  /** The newest entries, at most as many as the queue holds. */
  function Newest(msgs: seq<Queued>): (newest: seq<Queued>)
    ensures |newest| <= OFFLINE_QUEUE_MAX_SIZE
  {
    if |msgs| <= OFFLINE_QUEUE_MAX_SIZE then msgs else msgs[|msgs| - OFFLINE_QUEUE_MAX_SIZE..]
  }

  lemma SavedIsNewest(appended: seq<Queued>, msg: Queued)
    ensures Saved(Newest(appended), msg) == Newest(appended + [msg])
  {
  }

  lemma SplitHead<T>(a: seq<T>, b: seq<T>)
    requires b != []
    ensures a + [b[0]] + b[1..] == a + b
  {
  }

  lemma {:induction false} SavedAllIsNewest(appended: seq<Queued>, msgs: seq<Queued>)
    ensures SavedAll(Newest(appended), msgs) == Newest(appended + msgs)
    decreases |msgs|
  {
    hide Newest, Saved;
    if msgs == [] {
      assert appended + msgs == appended;
    } else {
      SavedIsNewest(appended, msgs[0]);
      SavedAllIsNewest(appended + [msgs[0]], msgs[1..]);
      SplitHead(appended, msgs);
    }
  }

  predicate Expired(msg: Queued, started: int, expire: int) {
    started - msg.createdAt > expire
  }

  /** What a flush does with one entry. */
  datatype Fate = FateExpired | Attempted(outcome: Outcome)

  function FateOf(msg: Queued, started: int, expire: int, outcome: Outcome): Fate {
    if Expired(msg, started, expire) then FateExpired else Attempted(outcome)
  }

  /** The entries a flush puts back, in queue order. */
  function Requeued(msgs: seq<Queued>, fates: seq<Fate>): (back: seq<Queued>)
    requires |msgs| == |fates|
    ensures |back| <= |msgs|
  {
    if msgs == [] then [] else
    (if fates[0] == Attempted(NotSent) then [msgs[0]] else []) + Requeued(msgs[1..], fates[1..])
  }

  /** Exactly the entries whose attempt was not sent come back. */
  lemma {:induction false} RequeuedExactlyNotSent(msgs: seq<Queued>, fates: seq<Fate>, msg: Queued)
    requires |msgs| == |fates|
    ensures msg in Requeued(msgs, fates) <==>
      exists i | 0 <= i < |msgs| :: msgs[i] == msg && fates[i] == Attempted(NotSent)
  {
    if msgs != [] {
      RequeuedExactlyNotSent(msgs[1..], fates[1..], msg);
      if i :| 0 <= i < |msgs| && msgs[i] == msg && fates[i] == Attempted(NotSent) {
        if i > 0 { assert msgs[1..][i - 1] == msg && fates[1..][i - 1] == fates[i]; }
      }
      if i :| 0 <= i < |msgs| - 1 && msgs[1..][i] == msg && fates[1..][i] == Attempted(NotSent) {
        assert msgs[i + 1] == msg && fates[i + 1] == Attempted(NotSent);
      }
    }
  }

  /** Everything saved from the take on until n entries have been visited: others[i] is what senders save just before
      entry i is visited, and an entry not sent is put back. */
  function SavedDuring(msgs: seq<Queued>, fates: seq<Fate>, others: seq<seq<Queued>>, n: nat): seq<Queued>
    requires n <= |msgs| == |fates| <= |others|
  {
    if n == 0 then [] else
    SavedDuring(msgs, fates, others, n - 1) + others[n - 1]
      + if fates[n - 1] == Attempted(NotSent) then [msgs[n - 1]] else []
  }

  lemma {:induction false} RequeuedAppend(msgs: seq<Queued>, fates: seq<Fate>, msg: Queued, fate: Fate)
    requires |msgs| == |fates|
    ensures Requeued(msgs + [msg], fates + [fate]) ==
            Requeued(msgs, fates) + if fate == Attempted(NotSent) then [msg] else []
  {
    if msgs != [] {
      assert (msgs + [msg])[1..] == msgs[1..] + [msg] && (fates + [fate])[1..] == fates[1..] + [fate];
      RequeuedAppend(msgs[1..], fates[1..], msg, fate);
    }
  }

  /** Without other senders these are the entries put back. */
  lemma {:induction false} AloneSavesRequeued(msgs: seq<Queued>, fates: seq<Fate>, others: seq<seq<Queued>>, n: nat)
    requires n <= |msgs| == |fates| <= |others| && forall i | 0 <= i < |others| :: others[i] == []
    ensures SavedDuring(msgs, fates, others, n) == Requeued(msgs[..n], fates[..n])
  {
    if n > 0 {
      AloneSavesRequeued(msgs, fates, others, n - 1);
      RequeuedAppend(msgs[..n - 1], fates[..n - 1], msgs[n - 1], fates[n - 1]);
      assert msgs[..n] == msgs[..n - 1] + [msgs[n - 1]] && fates[..n] == fates[..n - 1] + [fates[n - 1]];
    }
  }

  /** The adapter's answers to a sequence of attempts: the index of the first failure, or the
      number of attempts when all succeed. */
  function FirstFailure(outcomes: seq<Outcome>): (n: nat)
    ensures n <= |outcomes| && (forall i | 0 <= i < n :: outcomes[i].Sent?)
    ensures n < |outcomes| ==> !outcomes[n].Sent?
  {
    if outcomes == [] || !outcomes[0].Sent? then 0 else 1 + FirstFailure(outcomes[1..])
  }

  function Stamped(units: seq<Unit>, now: int): (msgs: seq<Queued>)
    ensures |msgs| == |units| && forall i | 0 <= i < |units| :: msgs[i] == Queued(units[i], now)
  {
    seq(|units|, i requires 0 <= i < |units| => Queued(units[i], now))
  }

  class Messenger {
    var offlineQueue: seq<Queued>

    constructor ()
      ensures offlineQueue == []
    {
      offlineQueue := [];
    }

    method SaveOfflineMsg(msg: Queued)
      modifies this
      ensures offlineQueue == Saved(old(offlineQueue), msg)
    {
      if |offlineQueue| >= OFFLINE_QUEUE_MAX_SIZE {
        offlineQueue := offlineQueue[1..];
      }
      offlineQueue := offlineQueue + [msg];
    }

    method TakeOfflineMsgs() returns (msgs: seq<Queued>)
      modifies this
      ensures msgs == old(offlineQueue) && offlineQueue == []
    {
      msgs := offlineQueue;
      offlineQueue := [];
    }

    method QueueUnsentChunks(chunks: seq<Unit>, start: nat, now: int)
      requires start <= |chunks|
      modifies this
      ensures offlineQueue == SavedAll(old(offlineQueue), Stamped(chunks[start..], now))
    {
      var msgs := Stamped(chunks[start..], now);
      for i := start to |chunks|
        invariant SavedAll(offlineQueue, msgs[i - start..]) == SavedAll(old(offlineQueue), msgs)
      {
        assert msgs[i - start..][1..] == msgs[i + 1 - start..];
        SaveOfflineMsg(Queued(chunks[i], now));
      }
    }

    /** SendGroupMessage and SendPrivateMessage after chunking. answers[i] is what the adapter
        would say to chunk i. Chunks after the first failure are never attempted; if that failure
        is "not sent" and the queue is enabled, it and they are queued in order. */
    method SendChunks(enabled: bool, connected: bool, whole: Unit, chunks: seq<Unit>, answers: seq<Outcome>, now: int)
      returns (attempted: nat, status: SendStatus)
      requires |answers| == |chunks|
      modifies this
      ensures enabled && !connected ==>
                attempted == 0 && status == StatusQueued && offlineQueue == Saved(old(offlineQueue), Queued(whole, now))
      ensures !(enabled && !connected) ==>
                var n := FirstFailure(answers);
                if n == |chunks| then attempted == n && status == StatusSent && offlineQueue == old(offlineQueue)
                else && attempted == n + 1
                     && status == StatusOf(answers[n], enabled && answers[n].NotSent?)
                     && offlineQueue == if enabled && answers[n].NotSent?
                          then SavedAll(old(offlineQueue), Stamped(chunks[n..], now)) else old(offlineQueue)
    {
      if enabled && !connected {
        SaveOfflineMsg(Queued(whole, now));
        return 0, StatusQueued;
      }
      for i := 0 to |chunks|
        invariant offlineQueue == old(offlineQueue)
        invariant FirstFailure(answers) == i + FirstFailure(answers[i..])
      {
        assert answers[i..][1..] == answers[i + 1..];
        if !answers[i].Sent? {
          if answers[i].NotSent? && enabled {
            QueueUnsentChunks(chunks, i, now);
            return i + 1, StatusQueued;
          }
          return i + 1, StatusOf(answers[i], false);
        }
      }
      return |chunks|, StatusSent;
    }

    /** Other goroutines saving. */
    method SaveAll(msgs: seq<Queued>)
      modifies this
      ensures offlineQueue == SavedAll(old(offlineQueue), msgs)
    {
      for i := 0 to |msgs|
        invariant SavedAll(offlineQueue, msgs[i..]) == SavedAll(old(offlineQueue), msgs)
      {
        assert msgs[i..][1..] == msgs[i + 1..];
        SaveOfflineMsg(msgs[i]);
      }
    }

    /** One pass of the flush's loop, after what others save before it. */
    method VisitEntry(msg: Queued, fate: Fate, others: seq<Queued>, ghost saved: seq<Queued>)
      requires offlineQueue == Newest(saved)
      modifies this
      ensures offlineQueue == Newest(saved + others + if fate == Attempted(NotSent) then [msg] else [])
    {
      hide Newest, Saved, SavedAll;
      SaveAll(others);
      SavedAllIsNewest(saved, others);
      if fate == Attempted(NotSent) {
        SaveOfflineMsg(msg);
        SavedIsNewest(saved + others, msg);
      } else {
        assert saved + others + [] == saved + others;
      }
    }

    /** flushOfflineQueue while senders go on saving. Every taken entry gets exactly one fate, in queue order, and the
        queue is afterwards what was saved meanwhile, the entries not sent among it. */
    method FlushOfflineQueue(enabled: bool, connected: bool, started: int, expire: int, answers: seq<Outcome>,
                             others: seq<seq<Queued>>)
      returns (fates: seq<Fate>, mustSchedule: bool)
      requires |answers| == |offlineQueue| == |others| - 1
      modifies this
      ensures !(enabled && connected) ==> fates == [] && !mustSchedule && offlineQueue == old(offlineQueue)
      ensures enabled && connected ==>
                var msgs := old(offlineQueue);
                && |fates| == |msgs|
                && (forall i | 0 <= i < |msgs| :: fates[i] == FateOf(msgs[i], started, expire, answers[i]))
                && offlineQueue == Newest(SavedDuring(msgs, fates, others, |msgs|) + others[|msgs|])
                && (mustSchedule <==> Attempted(NotSent) in fates)
    {
      fates, mustSchedule := [], false;
      if !enabled || !connected {
        return;
      }
      var msgs := TakeOfflineMsgs();
      ghost var all := seq(|msgs|, i requires 0 <= i < |msgs| => FateOf(msgs[i], started, expire, answers[i]));
      hide Newest, SavedAll, FateOf, SavedDuring;
      NothingSaved();
      NothingSavedYet(msgs, all, others);
      for i := 0 to |msgs|
        invariant fates == all[..i]
        invariant offlineQueue == Newest(SavedDuring(msgs, all, others, i))
        invariant mustSchedule <==> Attempted(NotSent) in fates
      {
        var fate := FateOf(msgs[i], started, expire, answers[i]);
        SavedStep(msgs, all, others, i);
        VisitEntry(msgs[i], fate, others[i], SavedDuring(msgs, all, others, i));
        mustSchedule := mustSchedule || fate == Attempted(NotSent);
        fates := fates + [fate];
        assert all[..i + 1] == all[..i] + [all[i]];
      }
      SaveAll(others[|msgs|]);
      SavedAllIsNewest(SavedDuring(msgs, all, others, |msgs|), others[|msgs|]);
      assert all[..|msgs|] == all;
    }
  }

  lemma NothingSaved()
    ensures Newest([]) == []
  {
  }

  lemma NothingSavedYet(msgs: seq<Queued>, fates: seq<Fate>, others: seq<seq<Queued>>)
    requires |msgs| == |fates| <= |others|
    ensures SavedDuring(msgs, fates, others, 0) == []
  {
  }

  lemma SavedStep(msgs: seq<Queued>, fates: seq<Fate>, others: seq<seq<Queued>>, i: nat)
    requires i < |msgs| == |fates| <= |others|
    ensures SavedDuring(msgs, fates, others, i + 1) ==
      SavedDuring(msgs, fates, others, i) + others[i] + if fates[i] == Attempted(NotSent) then [msgs[i]] else []
  {
  }
}
