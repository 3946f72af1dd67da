/** A goroutine that runs alone does in its small steps what the sequential operation does (adapter/messenger.go). */
module AloneRuns {
  import opened Common
  import opened Outcomes
  import Segments
  import opened OfflineQueue
  import opened DeliveryRuns

  /** The adapter's answers to one goroutine's steps; nothing else runs and time stands still. */
  type Answers = seq<(Outcome, nat)>

  function RunAlone(env: Env, thread: Thread, sh: Shared, h: History, answers: Answers): Effect
    decreases |answers|
  {
    if answers == [] then Effect(thread, sh, h) else
    var e := RunEffect(env, thread, sh, h, answers[0].0, answers[0].1);
    RunAlone(env, e.thread, e.shared, e.history, answers[1..])
  }

  lemma {:induction false} RunThen(env: Env, thread: Thread, sh: Shared, h: History, a: Answers, b: Answers)
    ensures
      var e := RunAlone(env, thread, sh, h, a);
      RunAlone(env, thread, sh, h, a + b) == RunAlone(env, e.thread, e.shared, e.history, b)
    decreases |a|
  {
    hide RunEffect;
    if a == [] {
      assert a + b == b;
    } else {
      var e := RunEffect(env, thread, sh, h, a[0].0, a[0].1);
      assert (a + b)[1..] == a[1..] + b;
      RunThen(env, e.thread, e.shared, e.history, a[1..], b);
    }
  }

  // ---- A flush ----

  function FatesOf(msgs: seq<Queued>, started: int, expire: int, answers: Answers): (fates: seq<Fate>)
    requires |answers| == |msgs|
    ensures |fates| == |msgs|
    ensures forall i | 0 <= i < |msgs| :: fates[i] == FateOf(msgs[i], started, expire, answers[i].0)
  {
    seq(|msgs|, i requires 0 <= i < |msgs| => FateOf(msgs[i], started, expire, answers[i].0))
  }

  function OwnAttempt(msg: Queued, fate: Fate, started: int, frames: nat): seq<Attempt> {
    match fate
    case FateExpired => []
    case Attempted(outcome) =>
      [Attempt(msg.unit.id, Segments.SegmentsOf(msg.unit.elements), outcome, frames, Some(started))]
  }

  /** What the attempts among the fates leave in the log. */
  function AttemptsIn(msgs: seq<Queued>, fates: seq<Fate>, started: int, answers: Answers): seq<Attempt>
    requires |msgs| == |fates| == |answers|
  {
    if msgs == [] then [] else
    OwnAttempt(msgs[0], fates[0], started, answers[0].1) + AttemptsIn(msgs[1..], fates[1..], started, answers[1..])
  }

  /** Where the flush stands after its loop. */
  ghost predicate Visited(env: Env, msgs: seq<Queued>, started: int, anyNotSent: bool, sh: Shared, h: History,
                          answers: Answers)
    requires |answers| == |msgs|
  {
    var fates := FatesOf(msgs, started, env.expire, answers);
    var e := RunAlone(env, Flushing(msgs, started, anyNotSent), sh, h, answers);
    && e.thread == Flushing([], started, anyNotSent || Attempted(NotSent) in fates)
    && e.shared == sh.(queue := SavedAll(sh.queue, Requeued(msgs, fates)))
    && e.history.log == h.log + AttemptsIn(msgs, fates, started, answers)
  }

  /** One entry: what its fate says happens. */
  lemma VisitsOne(env: Env, msgs: seq<Queued>, started: int, anyNotSent: bool, sh: Shared, h: History, outcome: Outcome,
                  frames: nat)
    requires msgs != []
    ensures
      var fate := FateOf(msgs[0], started, env.expire, outcome);
      var e := RunEffect(env, Flushing(msgs, started, anyNotSent), sh, h, outcome, frames);
      && e.thread == Flushing(msgs[1..], started, anyNotSent || fate == Attempted(NotSent))
      && e.shared == sh.(queue := SavedAll(sh.queue, if fate == Attempted(NotSent) then [msgs[0]] else []))
      && e.history.log == h.log + OwnAttempt(msgs[0], fate, started, frames)
  {
    hide Saved, Segments.SegmentsOf;
    assert h.log + [] == h.log;
    assert SavedAll(Saved(sh.queue, msgs[0]), []) == Saved(sh.queue, msgs[0]);
  }

  lemma SavedAllThen(queue: seq<Queued>, a: seq<Queued>, b: seq<Queued>)
    requires |a| <= 1
    ensures SavedAll(SavedAll(queue, a), b) == SavedAll(queue, a + b)
  {
    hide Saved;
    if a == [] {
      assert a + b == b;
    } else {
      assert (a + b)[1..] == b && a[1..] == [];
    }
  }

  lemma {:induction false} VisitsAlone(env: Env, msgs: seq<Queued>, started: int, anyNotSent: bool, sh: Shared,
                                       h: History, answers: Answers)
    requires |answers| == |msgs|
    ensures Visited(env, msgs, started, anyNotSent, sh, h, answers)
    decreases |msgs|
  {
    if msgs == [] {
      assert h.log + [] == h.log;
    } else {
      var fates := FatesOf(msgs, started, env.expire, answers);
      assert fates[1..] == FatesOf(msgs[1..], started, env.expire, answers[1..]);
      VisitsOne(env, msgs, started, anyNotSent, sh, h, answers[0].0, answers[0].1);
      hide RunEffect, SavedAll, OwnAttempt, FateOf;
      var e := RunEffect(env, Flushing(msgs, started, anyNotSent), sh, h, answers[0].0, answers[0].1);
      VisitsAlone(env, msgs[1..], started, e.thread.anyNotSent, e.shared, e.history, answers[1..]);
      var own := OwnAttempt(msgs[0], fates[0], started, answers[0].1);
      ConcatAssociates(h.log, own, AttemptsIn(msgs[1..], fates[1..], started, answers[1..]));
      SavedAllThen(sh.queue, if fates[0] == Attempted(NotSent) then [msgs[0]] else [], Requeued(msgs[1..], fates[1..]));
      assert Attempted(NotSent) in fates <==> fates[0] == Attempted(NotSent) || Attempted(NotSent) in fates[1..] by {
        assert fates == [fates[0]] + fates[1..];
      }
    }
  }

  /** A flush that runs alone: afterwards the queue is what FlushOfflineQueue leaves when nobody else saves, exactly the
      entries whose fate is an attempt were attempted, in order, and it goes on to schedule exactly if one was not
      sent. */
  lemma {:induction false} FlushAloneIsSequential(env: Env, sh: Shared, h: History, first: (Outcome, nat),
                                                  answers: Answers, last: (Outcome, nat))
    requires |answers| == |sh.queue| != 0
    ensures
      var fates := FatesOf(sh.queue, env.now, env.expire, answers);
      var e := RunAlone(env, Taking, sh, h, [first] + answers + [last]);
      && e.thread == (if Attempted(NotSent) in fates then Scheduling(true) else Unlocking)
      && e.shared == sh.(queue := Newest(Requeued(sh.queue, fates)))
      && e.history.log == h.log + AttemptsIn(sh.queue, fates, env.now, answers)
  {
    hide SavedAll, Newest, AttemptsIn, FatesOf;
    var taken := RunEffect(env, Taking, sh, h, first.0, first.1);
    var steps := [first] + answers;
    RunThen(env, Taking, sh, h, [first], answers);
    RunThen(env, Taking, sh, h, steps, [last]);
    OneStep(env, Taking, sh, h, first);
    VisitsAlone(env, sh.queue, env.now, false, taken.shared, taken.history, answers);
    var visited := RunAlone(env, Taking, sh, h, steps);
    OneStep(env, visited.thread, visited.shared, visited.history, last);
    SavedAllIsNewest([], Requeued(sh.queue, FatesOf(sh.queue, env.now, env.expire, answers)));
    NothingIsNewest();
    assert [] + Requeued(sh.queue, FatesOf(sh.queue, env.now, env.expire, answers))
        == Requeued(sh.queue, FatesOf(sh.queue, env.now, env.expire, answers));
  }

  lemma NothingIsNewest()
    ensures Newest([]) == []
  {
  }

  lemma OneStep(env: Env, thread: Thread, sh: Shared, h: History, answer: (Outcome, nat))
    ensures RunAlone(env, thread, sh, h, [answer]) == RunEffect(env, thread, sh, h, answer.0, answer.1)
  {
    hide RunEffect;
    assert [answer][1..] == [];
  }

  // ---- A send ----

  function OutcomesIn(answers: Answers): (outcomes: seq<Outcome>)
    ensures |outcomes| == |answers| && forall i | 0 <= i < |answers| :: outcomes[i] == answers[i].0
  {
    seq(|answers|, i requires 0 <= i < |answers| => answers[i].0)
  }

  /** The attempts at the first n chunks. */
  function FirstAttempts(chunks: seq<Unit>, answers: Answers, n: nat): seq<Attempt>
    requires n <= |chunks| <= |answers|
  {
    seq(n, i requires 0 <= i < n =>
      Attempt(chunks[i].id, Segments.SegmentsOf(chunks[i].elements), answers[i].0, answers[i].1, None))
  }

  /** How many chunks are attempted. */
  function Tried(answers: Answers): (n: nat)
    ensures n <= |answers|
  {
    var n := FirstFailure(OutcomesIn(answers));
    if n == |answers| then n else n + 1
  }

  lemma TriedStep(answers: Answers)
    requires answers != []
    ensures Tried(answers) == if answers[0].0.Sent? then 1 + Tried(answers[1..]) else 1
  {
    assert OutcomesIn(answers)[1..] == OutcomesIn(answers[1..]);
  }

  function AfterAttempts(env: Env, chunks: seq<Unit>, answers: Answers): Thread
    requires |answers| == |chunks|
  {
    var n := FirstFailure(OutcomesIn(answers));
    if n < |chunks| && answers[n].0.NotSent? && env.enabled then SavingChunks(chunks[n..]) else Finished
  }

  lemma AfterAttemptsStep(env: Env, chunks: seq<Unit>, answers: Answers)
    requires |answers| == |chunks| != 0
    ensures answers[0].0.Sent? && |chunks| > 1 ==>
      AfterAttempts(env, chunks, answers) == AfterAttempts(env, chunks[1..], answers[1..])
    ensures answers[0].0.Sent? && |chunks| == 1 ==> AfterAttempts(env, chunks, answers) == Finished
    ensures !answers[0].0.Sent? ==>
      AfterAttempts(env, chunks, answers) ==
        if answers[0].0.NotSent? && env.enabled then SavingChunks(chunks) else Finished
  {
    assert OutcomesIn(answers)[1..] == OutcomesIn(answers[1..]);
    assert chunks[0..] == chunks;
  }

  lemma TriesOne(env: Env, chunks: seq<Unit>, sh: Shared, h: History, answers: Answers)
    requires |answers| == |chunks| != 0
    ensures
      var e := RunEffect(env, Sending(chunks), sh, h, answers[0].0, answers[0].1);
      && e.shared == sh && e.history.log == h.log + FirstAttempts(chunks, answers, 1)
      && e.thread ==
           if answers[0].0.Sent? then SendingOf(chunks[1..])
           else if answers[0].0.NotSent? && env.enabled then SavingChunks(chunks) else Finished
  {
    hide Segments.SegmentsOf;
  }

  lemma AttemptsStep(chunks: seq<Unit>, answers: Answers, n: nat)
    requires n < |chunks| <= |answers|
    ensures FirstAttempts(chunks, answers, n + 1)
         == FirstAttempts(chunks, answers, 1) + FirstAttempts(chunks[1..], answers[1..], n)
  {
    hide Segments.SegmentsOf;
  }

  /** Up to the first failure, the chunks are attempted in order. */
  lemma {:induction false} AttemptsAlone(env: Env, chunks: seq<Unit>, sh: Shared, h: History, answers: Answers)
    requires |answers| == |chunks| != 0
    ensures
      var n := Tried(answers);
      var e := RunAlone(env, Sending(chunks), sh, h, answers[..n]);
      && e.thread == AfterAttempts(env, chunks, answers) && e.shared == sh
      && e.history.log == h.log + FirstAttempts(chunks, answers, n)
    decreases |chunks|
  {
    TriedStep(answers);
    AfterAttemptsStep(env, chunks, answers);
    TriesOne(env, chunks, sh, h, answers);
    hide RunEffect, Tried, AfterAttempts, FirstAttempts;
    var n, e := Tried(answers), RunEffect(env, Sending(chunks), sh, h, answers[0].0, answers[0].1);
    OneStep(env, Sending(chunks), sh, h, answers[0]);
    if answers[0].0.Sent? && |chunks| > 1 {
      AttemptsAlone(env, chunks[1..], sh, e.history, answers[1..]);
      AttemptsStep(chunks, answers, n - 1);
      ConcatAssociates(h.log, FirstAttempts(chunks, answers, 1), FirstAttempts(chunks[1..], answers[1..], n - 1));
      assert answers[..n][1..] == answers[1..][..n - 1];
    } else {
      if |chunks| == 1 { NothingTried(answers); }
      assert answers[..1] == [answers[0]];
    }
  }

  lemma NothingTried(answers: Answers)
    requires |answers| == 1
    ensures Tried(answers[1..]) == 0
  {
  }

  lemma {:induction false} SavesAlone(env: Env, chunks: seq<Unit>, sh: Shared, h: History, answers: Answers)
    requires |answers| == |chunks|
    ensures
      var e := RunAlone(env, SavingChunks(chunks), sh, h, answers);
      && e.thread == SavingChunks([]) && e.history.log == h.log
      && e.shared == sh.(queue := SavedAll(sh.queue, Stamped(chunks, env.now)))
    decreases |chunks|
  {
    hide Saved;
    if chunks != [] {
      var e := RunEffect(env, SavingChunks(chunks), sh, h, answers[0].0, answers[0].1);
      SavesAlone(env, chunks[1..], e.shared, e.history, answers[1..]);
      assert Stamped(chunks, env.now)[1..] == Stamped(chunks[1..], env.now);
    }
  }

  /** A send that runs alone attempts the chunks up to the first failure, in order, and the queue is afterwards what
      SendChunks leaves. */
  lemma {:induction false} SendAloneIsSequential(env: Env, chunks: seq<Unit>, sh: Shared, h: History, answers: Answers,
                                                 saves: Answers)
    requires |answers| == |chunks| != 0
    requires |saves| == |chunks| - FirstFailure(OutcomesIn(answers))
    ensures
      var n := FirstFailure(OutcomesIn(answers));
      var queues := n < |chunks| && answers[n].0.NotSent? && env.enabled;
      var e := RunAlone(env, Sending(chunks), sh, h, answers[..Tried(answers)] + (if queues then saves else []));
      && e.thread == (if queues then SavingChunks([]) else Finished)
      && e.shared.queue == (if queues then SavedAll(sh.queue, Stamped(chunks[n..], env.now)) else sh.queue)
      && e.history.log == h.log + FirstAttempts(chunks, answers, Tried(answers))
  {
    hide RunEffect, SavedAll, FirstAttempts, Tried;
    AttemptsAlone(env, chunks, sh, h, answers);
    var tried, n := answers[..Tried(answers)], FirstFailure(OutcomesIn(answers));
    var e := RunAlone(env, Sending(chunks), sh, h, tried);
    if n < |chunks| && answers[n].0.NotSent? && env.enabled {
      RunThen(env, Sending(chunks), sh, h, tried, saves);
      SavesAlone(env, chunks[n..], e.shared, e.history, saves);
    } else {
      assert tried + [] == tried;
    }
  }
}
