/** Which answer a request gets, and that answers arrive (adapter/wsclient.go). */
module WsAnswers {
  import opened Common
  import opened Outcomes
  import opened WsClient
  import opened WsRuns

  /** What happens to one request along a run, told from the steps alone. */
  datatype Happening =
    | Unencodable
    | NoConnection
    | WriteFailed(reached: bool)
    | Written
    | TimedOut
    | ChannelClosed
    | Answered(resp: Response)

  ghost function Happens(s: State, step: Step, c: nat): seq<Happening> {
    match step
    case FailToEncode(d) => if d == c then [Unencodable] else []
    case ReadConnection(d) => if d == c && s.hub.conn.None? then [NoConnection] else []
    case Write(d, ok, reached) => if d == c then [if ok then Written else WriteFailed(reached)] else []
    case TimeOut(d) => if d == c then [TimedOut] else []
    case Receive(d) =>
      if d != c || c >= |s.hub.channels| then []
      else [if s.hub.channels[c].buffer.Some? then Answered(s.hub.channels[c].buffer.value) else ChannelClosed]
    case _ => []
  }

  ghost function Told(s: State, steps: seq<Step>, c: nat): seq<Happening>
    requires Possible(s, steps)
    decreases |steps|
  {
    if steps == [] then [] else Happens(s, steps[0], c) + Told(Next(s, steps[0]), steps[1..], c)
  }

  /** The verdict of the endpoint. */
  predicate Accepts(resp: Response) {
    resp.status == "ok" || (resp.status == "" && resp.retcode == 0)
  }

  /** The story so far fits where the call stands; the stories of a call about to return are all its ways to end. */
  ghost predicate StoryFits(call: Call, told: seq<Happening>) {
    match call.phase
    case Entered => told == [] && call.frames == 0
    case Writing(_) => told == [] && call.frames == 0
    case Awaiting => told == [Written] && call.frames == 1
    case Returning(answer) => Ends(call.echo, call.frames, answer, told)
    case Returned(answer) => Ends(call.echo, call.frames, answer, told)
  }

  ghost predicate Ends(echo: string, frames: nat, answer: Answer, told: seq<Happening>) {
    || (told == [Unencodable] && answer == Answer(Rejected, None) && frames == 0)
    || (told == [NoConnection] && answer == Answer(NotSent, None) && frames == 0)
    || (told == [WriteFailed(true)] && answer == Answer(ResultUnknown, None) && frames == 1)
    || (told == [WriteFailed(false)] && answer == Answer(ResultUnknown, None) && frames == 0)
    || (told == [Written, TimedOut] && answer == Answer(ResultUnknown, None) && frames == 1)
    || (told == [Written, ChannelClosed] && answer == Answer(ResultUnknown, None) && frames == 1)
    || (exists resp: Response :: AnsweredBy(echo, frames, answer, told, resp))
  }

  predicate AnsweredBy(echo: string, frames: nat, answer: Answer, told: seq<Happening>, resp: Response) {
    && told == [Written, Answered(resp)] && resp.echo == echo && frames == 1
    && answer == Answer(if Accepts(resp) then Sent else Rejected, Some(resp))
  }

  lemma StepFits(s: State, step: Step, c: nat, told: seq<Happening>)
    requires CallsOk(s) && Enabled(s, step) && c < |s.calls| && StoryFits(s.calls[c], told)
    ensures |Next(s, step).calls| >= |s.calls|
    ensures StoryFits(Next(s, step).calls[c], told + Happens(s, step, c))
  {
    hide Ends;
    assert told + [] == told;
    assert CallOk(s.calls[c]) && ChannelOk(s.calls[c].echo, s.hub.channels[c]);
    var call, call' := s.calls[c], Next(s, step).calls[c];
    match step
    case FailToEncode(d) => if d == c { EndsSimply(call'.echo, 0, Rejected, Unencodable); }
    case ReadConnection(d) => if d == c && s.hub.conn.None? { EndsSimply(call'.echo, 0, NotSent, NoConnection); }
    case Write(d, ok, reached) =>
      if d == c && !ok { EndsSimply(call'.echo, call'.frames, ResultUnknown, WriteFailed(reached)); }
    case TimeOut(d) => if d == c { EndsWritten(call'.echo, TimedOut); }
    case Receive(d) =>
      if d == c {
        match s.hub.channels[c].buffer
        case None => EndsWritten(call'.echo, ChannelClosed);
        case Some(resp) => EndsAnswered(call'.echo, resp);
      }
    case _ =>
  }

  lemma EndsSimply(echo: string, frames: nat, outcome: Outcome, happening: Happening)
    requires
      || (happening.Unencodable? && outcome.Rejected? && frames == 0)
      || (happening.NoConnection? && outcome.NotSent? && frames == 0)
      || (happening.WriteFailed? && outcome.ResultUnknown? && frames == if happening.reached then 1 else 0)
    ensures Ends(echo, frames, Answer(outcome, None), [happening])
    ensures [] + [happening] == [happening]
  {
  }

  lemma EndsWritten(echo: string, happening: Happening)
    requires happening.TimedOut? || happening.ChannelClosed?
    ensures Ends(echo, 1, Answer(ResultUnknown, None), [Written, happening])
    ensures [Written] + [happening] == [Written, happening]
  {
  }

  lemma EndsAnswered(echo: string, resp: Response)
    requires resp.echo == echo
    ensures Ends(echo, 1, Answer(if Accepts(resp) then Sent else Rejected, Some(resp)), [Written, Answered(resp)])
    ensures [Written] + [Answered(resp)] == [Written, Answered(resp)]
  {
    assert AnsweredBy(echo, 1, Answer(if Accepts(resp) then Sent else Rejected, Some(resp)),
                      [Written, Answered(resp)], resp);
  }

  // ---- Every run ----

  ghost predicate ToldSoFar(s: State, c: nat, told: seq<Happening>) {
    if c < |s.calls| then StoryFits(s.calls[c], told) else told == []
  }

  lemma NotYetTold(s: State, step: Step, c: nat)
    requires CallsOk(s) && Enabled(s, step) && c >= |s.calls|
    ensures Happens(s, step, c) == []
    ensures ToldSoFar(Next(s, step), c, [])
  {
  }

  lemma {:induction false} ToldFits(s: State, steps: seq<Step>, c: nat, told: seq<Happening>)
    requires Inv(s) && Possible(s, steps) && ToldSoFar(s, c, told)
    ensures ToldSoFar(After(s, steps), c, told + Told(s, steps, c))
    decreases |steps|
  {
    if steps == [] {
      assert told + [] == told;
    } else {
      var step, now := steps[0], Happens(s, steps[0], c);
      if c < |s.calls| { StepFits(s, step, c, told); } else { NotYetTold(s, step, c); assert told + now == []; }
      hide Inv, Next, Enabled, StoryFits, Happens;
      OneStepInv(s, step);
      ToldFits(Next(s, step), steps[1..], c, told + now);
      ConcatAssociates(told, now, Told(Next(s, step), steps[1..], c));
    }
  }

  lemma OneStepInv(s: State, step: Step)
    requires Inv(s) && Enabled(s, step)
    ensures Inv(Next(s, step))
  {
    hide Inv, Next, Enabled;
    var next := Next(s, step);
    assert [step][1..] == [] && Possible(next, []) && After(next, []) == next;
    assert Possible(s, [step]) && After(s, [step]) == After(next, []);
    AfterInv(s, [step]);
  }

  lemma StartOk()
    ensures Inv(START)
  {
  }

  /** A caller's answer tells exactly what happened to its request, over every run. */
  lemma {:induction false} AnswerTellsWhatHappened(steps: seq<Step>, c: nat)
    requires Possible(START, steps) && c < |After(START, steps).calls| && After(START, steps).calls[c].phase.Returned?
    ensures
      var call, told := After(START, steps).calls[c], Told(START, steps, c);
      var answer := call.phase.answer;
      && (answer.outcome.Sent? <==> exists resp :: Answered(resp) in told && Accepts(resp))
      && (answer.outcome.Rejected? <==>
            Unencodable in told || exists resp :: Answered(resp) in told && !Accepts(resp))
      && (answer.outcome.NotSent? <==> NoConnection in told)
      && (answer.outcome.ResultUnknown? <==>
            (Written in told || WriteFailed(true) in told || WriteFailed(false) in told)
            && forall resp :: Answered(resp) !in told)
      && (forall resp :: answer.response == Some(resp) <==> Answered(resp) in told)
      && (call.frames == 1 <==> Written in told || WriteFailed(true) in told)
  {
    hide Possible, After, Told, Inv;
    StartOk();
    ToldFits(START, steps, c, []);
    assert [] + Told(START, steps, c) == Told(START, steps, c);
  }

  // ---- No answer is taken twice ----

  function AnswersIn(told: seq<Happening>): nat {
    if told == [] then 0 else (if told[0].Answered? then 1 else 0) + AnswersIn(told[1..])
  }

  lemma {:induction false} AnswersAdd(a: seq<Happening>, b: seq<Happening>)
    ensures AnswersIn(a + b) == AnswersIn(a) + AnswersIn(b)
  {
    if a == [] {
      assert a + b == b;
    } else {
      assert (a + b)[1..] == a[1..] + b;
      AnswersAdd(a[1..], b);
    }
  }

  /** What was put into the channel is still in it or was taken by the caller. */
  ghost predicate Balanced(s: State, c: nat, taken: nat) {
    if c < |s.hub.channels| then
      s.hub.channels[c].received == taken + if s.hub.channels[c].buffer.Some? then 1 else 0
    else taken == 0
  }

  lemma StepBalances(s: State, step: Step, c: nat, taken: nat)
    requires Inv(s) && Enabled(s, step) && Balanced(s, c, taken)
    ensures Balanced(Next(s, step), c, taken + AnswersIn(Happens(s, step, c)))
  {
    hide CallsOk, EntriesOk, HandlersOk, LinkOk;
  }

  lemma {:induction false} RunBalances(s: State, steps: seq<Step>, c: nat, taken: nat)
    requires Inv(s) && Possible(s, steps) && Balanced(s, c, taken)
    ensures Balanced(After(s, steps), c, taken + AnswersIn(Told(s, steps, c)))
    decreases |steps|
  {
    hide Inv, Next, Enabled, Happens, Balanced, AnswersIn;
    if steps == [] {
      NothingAnswered();
    } else {
      var now := Happens(s, steps[0], c);
      StepBalances(s, steps[0], c, taken);
      OneStepInv(s, steps[0]);
      RunBalances(Next(s, steps[0]), steps[1..], c, taken + AnswersIn(now));
      AnswersAdd(now, Told(Next(s, steps[0]), steps[1..], c));
    }
  }

  lemma NothingAnswered()
    ensures AnswersIn([]) == 0
  {
  }

  /** Over every run each answer put into a channel is still in it or was taken by its caller, once. */
  lemma {:induction false} AnswerIsTakenOnce(steps: seq<Step>, c: nat)
    requires Possible(START, steps) && c < |After(START, steps).hub.channels|
    ensures
      var ch, taken := After(START, steps).hub.channels[c], AnswersIn(Told(START, steps, c));
      ch.received == taken + (if ch.buffer.Some? then 1 else 0) && ch.received <= 1
  {
    hide Inv, Told, AnswersIn, Possible, After;
    StartOk();
    RunBalances(START, steps, c, 0);
    ReachableChannel(steps, c);
  }

  lemma ReachableChannel(steps: seq<Step>, c: nat)
    requires Possible(START, steps) && c < |After(START, steps).hub.channels|
    ensures After(START, steps).hub.channels[c].received <= 1
  {
    StartOk();
    AfterInv(START, steps);
    var s := After(START, steps);
    assert CallsOk(s);
    assert ChannelOk(s.calls[c].echo, s.hub.channels[c]);
  }

  // ---- Answers arrive ----

  /** A request made on a new connection is written to it, and then awaits the answer under its tag. */
  lemma {:induction false} RequestIsWritten(s: State, echo: string)
    requires Reachable(s) && Enabled(s, Register(echo))
    ensures
      var n := |s.calls|;
      var s1 := Next(Next(s, Register(echo)), Accept);
      && Enabled(s1, ReadConnection(n))
      && var s2 := Next(s1, ReadConnection(n));
      && s2.calls[n].phase == Writing(s.accepted) && Enabled(s2, Write(n, true, true))
      && var s3 := Next(s2, Write(n, true, true));
      && s3.calls[n] == Call(echo, Awaiting, 1)
      && echo in s3.hub.pending && s3.hub.pending[echo] == n
  {
    ReachableInv();
  }

  /** The answer to a request that awaits it is looked up, delivered, received and returned, whatever else is going on:
      nothing on the way loses it. */
  lemma {:induction false} AwaitedAnswerArrives(s: State, resp: Response, c: nat)
    requires Reachable(s) && Enabled(s, Arrive(resp)) && resp.echo in s.hub.pending
    requires s.hub.pending[resp.echo] == c < |s.calls| && s.calls[c].phase.Awaiting?
    ensures
      var m := |s.handlers|;
      var s1 := Next(s, Arrive(resp));
      && Enabled(s1, LookUp(m))
      && var s2 := Next(s1, LookUp(m));
      && Enabled(s2, Deliver(m))
      && var s3 := Next(s2, Deliver(m));
      && Enabled(s3, Receive(c))
      && var s4 := Next(s3, Receive(c));
      && Enabled(s4, CleanUp(c))
      && Next(s4, CleanUp(c)).calls[c].phase ==
           Returned(Answer(if Accepts(resp) then Sent else Rejected, Some(resp)))
  {
    EntryIsUntouched(s, resp.echo);
    hide Reachable;
    AnswerIsLookedUp(s, resp, c);
    AnswerIsReceived(Next(Next(s, Arrive(resp)), LookUp(|s.handlers|)), |s.handlers|, resp, c);
  }

  lemma EntryIsUntouched(s: State, echo: string)
    requires Reachable(s) && echo in s.hub.pending
    ensures s.hub.pending[echo] < |s.hub.channels| && s.hub.channels[s.hub.pending[echo]] == NEW_CHANNEL
    ensures echo != ""
  {
    ReachableInv();
    assert EntryOk(s, echo);
  }

  lemma AnswerIsLookedUp(s: State, resp: Response, c: nat)
    requires Enabled(s, Arrive(resp)) && resp.echo != "" && resp.echo in s.hub.pending && s.hub.pending[resp.echo] == c
    ensures
      var m := |s.handlers|;
      var s1 := Next(s, Arrive(resp));
      && Enabled(s1, LookUp(m))
      && var s2 := Next(s1, LookUp(m));
      && s2.calls == s.calls && s2.hub.channels == s.hub.channels
      && |s2.handlers| == m + 1 && s2.handlers[m] == Delivering(c, resp)
  {
  }

  lemma AnswerIsReceived(s: State, m: nat, resp: Response, c: nat)
    requires |s.hub.channels| == |s.calls| && m < |s.handlers| && s.handlers[m] == Delivering(c, resp)
    requires c < |s.calls| && s.calls[c].phase.Awaiting? && s.hub.channels[c] == NEW_CHANNEL
    ensures
      && Enabled(s, Deliver(m))
      && var s3 := Next(s, Deliver(m));
      && Enabled(s3, Receive(c))
      && var s4 := Next(s3, Receive(c));
      && Enabled(s4, CleanUp(c))
      && Next(s4, CleanUp(c)).calls[c].phase ==
           Returned(Answer(if Accepts(resp) then Sent else Rejected, Some(resp)))
  {
  }

  /** The end of the current connection and Stop wake every waiting caller: its channel is closed, and there is no
      connection any more. */
  lemma {:induction false} EndWakesCallers(s: State, step: Step, echo: string, c: nat)
    requires Reachable(s) && Enabled(s, step) && echo in s.hub.pending && s.hub.pending[echo] == c < |s.calls|
    requires step.Stop? || (step.EndConnection? && s.hub.conn == Some(step.conn))
    ensures
      var s' := Next(s, step);
      && s'.hub.channels[c] == NEW_CHANNEL.(closes := 1)
      && s'.hub.conn == None && s'.hub.pending == map[]
      && (s'.calls[c].phase.Awaiting? ==>
            Enabled(s', Receive(c))
            && Next(s', Receive(c)).calls[c].phase == Returning(Answer(ResultUnknown, None)))
  {
    ReachableInv();
    assert EntryOk(s, echo);
    assert IsPending(s.hub.pending, c);
  }

  /** Whatever takes an entry out of the map without its answer closes its channel, and only that. */
  lemma {:induction false} EntryLeavesClosed(s: State, step: Step, echo: string, c: nat)
    requires Reachable(s) && Enabled(s, step) && echo in s.hub.pending && s.hub.pending[echo] == c < |s.calls|
    requires echo !in Next(s, step).hub.pending
    ensures Next(s, step).hub.channels[c].closes == if step.LookUp? then 0 else 1
    ensures step.LookUp? ==>
      Next(s, step).handlers[step.handler] == Delivering(c, s.handlers[step.handler].resp)
  {
    ReachableInv();
    assert EntryOk(s, echo);
    assert IsPending(s.hub.pending, c);
    EntryLeavesExactly(s, step, echo);
    if step.CleanUp? { PendingLeadsToOwnCall(s, step.call); }
  }
}
