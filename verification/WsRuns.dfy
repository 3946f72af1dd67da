/** Interleavings of requests, answers, timeouts, disconnects and Stop on one WebSocket client
    (adapter/wsclient.go). Each request uses a tag of its own. */
module WsRuns {
  import opened Common
  import opened Outcomes
  import opened WsClient

  /** What SendAndWait returns. */
  datatype Answer = Answer(outcome: Outcome, response: Option<Response>)

  datatype Phase =
    | Entered                     // registered, nothing sent yet
    | Writing(conn: nat)          // holds a connection, about to write
    | Awaiting                    // written, waiting for the channel or the timeout
    | Returning(answer: Answer)   // the deferred cleanup is still to run
    | Returned(answer: Answer)

  /** Request c uses tag echo and channel c. */
  datatype Call = Call(echo: string, phase: Phase, frames: nat)

  /** One goroutine of handleMessage. */
  datatype Handler = Looking(resp: Response) | Delivering(channel: nat, resp: Response) | Over

  datatype State = State(hub: Hub, accepted: nat, calls: seq<Call>, handlers: seq<Handler>)

  datatype Step =
    | Register(echo: string)
    | FailToEncode(call: nat)
    | ReadConnection(call: nat)
    | Write(call: nat, ok: bool, reached: bool)
    | Receive(call: nat)
    | TimeOut(call: nat)
    | CleanUp(call: nat)
    | Arrive(resp: Response)
    | LookUp(handler: nat)
    | Deliver(handler: nat)
    | Accept
    | EndConnection(conn: nat)
    | Stop

  const START := State(Hub(None, false, map[], []), 0, [], [])

  ghost predicate Enabled(s: State, step: Step) {
    && |s.hub.channels| == |s.calls|
    && match step
       case Register(echo) => echo != "" && forall c | 0 <= c < |s.calls| :: s.calls[c].echo != echo
       case FailToEncode(c) => c < |s.calls| && s.calls[c].phase.Entered?
       case ReadConnection(c) => c < |s.calls| && s.calls[c].phase.Entered?
       case Write(c, ok, reached) => c < |s.calls| && s.calls[c].phase.Writing? && (ok ==> reached)
       case Receive(c) =>
         c < |s.calls| && s.calls[c].phase.Awaiting? && (s.hub.channels[c].buffer.Some? || s.hub.channels[c].closes > 0)
       case TimeOut(c) => c < |s.calls| && s.calls[c].phase.Awaiting?
       case CleanUp(c) => c < |s.calls| && s.calls[c].phase.Returning?
       case LookUp(h) => h < |s.handlers| && s.handlers[h].Looking?
       case Deliver(h) => h < |s.handlers| && s.handlers[h].Delivering? && s.handlers[h].channel < |s.hub.channels|
       case EndConnection(conn) => conn < s.accepted
       case _ => true
  }

  function InPhase(s: State, c: nat, phase: Phase): State
    requires c < |s.calls|
  {
    s.(calls := s.calls[c := s.calls[c].(phase := phase)])
  }

  function Failed(outcome: Outcome): Phase {
    Returning(Answer(outcome, None))
  }

  /** A value waiting in the channel is received before its closing is noticed. */
  function AfterReceive(ch: Channel): Phase {
    match ch.buffer
    case None => Failed(ResultUnknown)
    case Some(resp) => Returning(Answer(if resp.Ok() then Sent else Rejected, Some(resp)))
  }

  ghost function Next(s: State, step: Step): State
    requires Enabled(s, step)
  {
    match step
    case Register(echo) => s.(hub := Registered(s.hub, echo), calls := s.calls + [Call(echo, Entered, 0)])
    case FailToEncode(c) => InPhase(s, c, Failed(Rejected))
    case ReadConnection(c) =>
      InPhase(s, c, match s.hub.conn case None => Failed(NotSent) case Some(conn) => Writing(conn))
    case Write(c, ok, reached) =>
      var call := Call(s.calls[c].echo, if ok then Awaiting else Failed(ResultUnknown), if reached then 1 else 0);
      s.(calls := s.calls[c := call])
    case Receive(c) =>
      InPhase(s, c, AfterReceive(s.hub.channels[c]))
        .(hub := s.hub.(channels := s.hub.channels[c := s.hub.channels[c].(buffer := None)]))
    case TimeOut(c) => InPhase(s, c, Failed(ResultUnknown))
    case CleanUp(c) =>
      InPhase(s, c, Returned(s.calls[c].phase.answer)).(hub := RequestEnded(s.hub, s.calls[c].echo, c))
    case Arrive(resp) => s.(handlers := s.handlers + [Looking(resp)])
    case LookUp(h) =>
      var resp := s.handlers[h].resp;
      if resp.echo != "" && resp.echo in s.hub.pending then
        s.(hub := Taken(s.hub, resp.echo), handlers := s.handlers[h := Delivering(s.hub.pending[resp.echo], resp)])
      else s.(handlers := s.handlers[h := Over])
    case Deliver(h) =>
      var c, resp := s.handlers[h].channel, s.handlers[h].resp;
      s.(hub := s.hub.(channels := s.hub.channels[c := SentTo(s.hub.channels[c], resp)]),
         handlers := s.handlers[h := Over])
    case Accept => s.(hub := Connected(s.hub, s.accepted), accepted := s.accepted + 1)
    case EndConnection(conn) => s.(hub := ConnectionEnded(s.hub, conn))
    case Stop => s.(hub := Severed(s.hub))
  }

  ghost predicate Possible(s: State, steps: seq<Step>)
    decreases |steps|
  {
    steps == [] || (Enabled(s, steps[0]) && Possible(Next(s, steps[0]), steps[1..]))
  }

  ghost function After(s: State, steps: seq<Step>): State
    requires Possible(s, steps)
    decreases |steps|
  {
    if steps == [] then s else After(Next(s, steps[0]), steps[1..])
  }

  // ---- The invariant ----

  ghost predicate TagsDiffer(calls: seq<Call>) {
    forall c, d | 0 <= c < d < |calls| :: calls[c].echo != calls[d].echo
  }

  /** A pending entry leads to the call with that tag, whose channel nobody has touched. */
  ghost predicate EntryOk(s: State, echo: string)
    requires echo in s.hub.pending
  {
    var c := s.hub.pending[echo];
    && c < |s.calls| && c < |s.hub.channels|
    && s.calls[c].echo == echo && !s.calls[c].phase.Returned?
    && s.hub.channels[c] == NEW_CHANNEL
  }

  /** A handler about to deliver is the only one left that can reach its channel. */
  ghost predicate HandlerOk(s: State, h: nat)
    requires h < |s.handlers|
  {
    s.handlers[h].Delivering? ==>
      var c := s.handlers[h].channel;
      && c < |s.calls| && c < |s.hub.channels|
      && s.calls[c].echo == s.handlers[h].resp.echo && s.calls[c].echo !in s.hub.pending
      && s.hub.channels[c] == NEW_CHANNEL
      && forall g | 0 <= g < |s.handlers| && g != h :: !(s.handlers[g].Delivering? && s.handlers[g].channel == c)
  }

  /** Closed at most once, filled at most once, never both, never misused, and holding only the
      answer to its own request. */
  ghost predicate ChannelOk(echo: string, ch: Channel) {
    && ch.closes + ch.received <= 1 && ch.lateSends == 0 && ch.drops == 0
    && (ch.buffer.Some? ==> ch.received == 1 && ch.buffer.value.echo == echo)
  }

  /** An answer fits the frames written, and a response bears the request's tag. */
  ghost predicate AnswerOk(call: Call, answer: Answer) {
    && FramesFit(answer.outcome, call.frames)
    && (answer.response.Some? ==> answer.response.value.echo == call.echo && call.frames == 1)
    && (answer.outcome.Sent? <==> answer.response.Some? && answer.response.value.Ok())
  }

  ghost predicate CallOk(call: Call) {
    match call.phase
    case Entered => call.frames == 0
    case Writing(_) => call.frames == 0
    case Awaiting => call.frames == 1
    case Returning(answer) => AnswerOk(call, answer)
    case Returned(answer) => AnswerOk(call, answer)
  }

  ghost predicate LinkOk(s: State) {
    (s.hub.isConnected <==> s.hub.conn.Some?) && (s.hub.conn.Some? ==> s.hub.conn.value < s.accepted)
  }

  ghost predicate CallsOk(s: State) {
    && |s.hub.channels| == |s.calls|
    && TagsDiffer(s.calls)
    && (forall c | 0 <= c < |s.calls| :: s.calls[c].echo != "")
    && forall c | 0 <= c < |s.calls| :: CallOk(s.calls[c]) && ChannelOk(s.calls[c].echo, s.hub.channels[c])
  }

  ghost predicate EntriesOk(s: State) {
    forall e | e in s.hub.pending :: EntryOk(s, e)
  }

  ghost predicate HandlersOk(s: State) {
    forall h | 0 <= h < |s.handlers| :: HandlerOk(s, h)
  }

  ghost predicate Inv(s: State) {
    LinkOk(s) && CallsOk(s) && EntriesOk(s) && HandlersOk(s)
  }

  lemma PendingLeadsToOwnCall(s: State, c: nat)
    requires CallsOk(s) && EntriesOk(s) && c < |s.calls|
    ensures IsPending(s.hub.pending, c) <==> s.calls[c].echo in s.hub.pending
    ensures s.calls[c].echo in s.hub.pending ==> s.hub.pending[s.calls[c].echo] == c
  {
    if s.calls[c].echo in s.hub.pending {
      assert EntryOk(s, s.calls[c].echo);
      assert s.hub.pending[s.calls[c].echo] == c;
    }
    if IsPending(s.hub.pending, c) {
      var e :| e in s.hub.pending && s.hub.pending[e] == c;
      assert EntryOk(s, e);
    }
  }

  lemma SeverInv(s: State)
    requires Inv(s)
    ensures Inv(s.(hub := Severed(s.hub)))
  {
    var s' := s.(hub := Severed(s.hub));
    forall c | 0 <= c < |s.calls| ensures ChannelOk(s.calls[c].echo, s'.hub.channels[c]) {
      assert ChannelOk(s.calls[c].echo, s.hub.channels[c]);
      PendingLeadsToOwnCall(s, c);
      if IsPending(s.hub.pending, c) { assert EntryOk(s, s.calls[c].echo); }
    }
    forall h | 0 <= h < |s.handlers| ensures HandlerOk(s', h) {
      assert HandlerOk(s, h);
      if s.handlers[h].Delivering? { PendingLeadsToOwnCall(s, s.handlers[h].channel); }
    }
  }

  lemma RegisterInv(s: State, echo: string)
    requires Inv(s) && Enabled(s, Register(echo))
    ensures Inv(Next(s, Register(echo)))
  {
    var s' := Next(s, Register(echo));
    forall e | e in s'.hub.pending ensures EntryOk(s', e) {
      if e != echo { assert EntryOk(s, e); }
    }
    forall h | 0 <= h < |s'.handlers| ensures HandlerOk(s', h) { assert HandlerOk(s, h); }
  }

  /** Steps that only move one call on and touch neither map nor channels. */
  lemma PhaseInv(s: State, c: nat, call: Call)
    requires Inv(s) && c < |s.calls| && call.echo == s.calls[c].echo && CallOk(call) && !call.phase.Returned?
    ensures Inv(s.(calls := s.calls[c := call]))
  {
    var s' := s.(calls := s.calls[c := call]);
    forall e | e in s'.hub.pending ensures EntryOk(s', e) { assert EntryOk(s, e); }
    forall h | 0 <= h < |s'.handlers| ensures HandlerOk(s', h) { assert HandlerOk(s, h); }
  }

  lemma ReceiveInv(s: State, c: nat)
    requires Inv(s) && Enabled(s, Receive(c))
    ensures Inv(Next(s, Receive(c)))
  {
    var s' := Next(s, Receive(c));
    assert CallOk(s.calls[c]) && ChannelOk(s.calls[c].echo, s.hub.channels[c]);
    forall e | e in s'.hub.pending ensures EntryOk(s', e) { assert EntryOk(s, e); }
    forall h | 0 <= h < |s'.handlers| ensures HandlerOk(s', h) { assert HandlerOk(s, h); }
  }

  lemma CleanUpInv(s: State, c: nat)
    requires Inv(s) && Enabled(s, CleanUp(c))
    ensures Inv(Next(s, CleanUp(c)))
  {
    var s' := Next(s, CleanUp(c));
    assert CallOk(s.calls[c]) && ChannelOk(s.calls[c].echo, s.hub.channels[c]);
    PendingLeadsToOwnCall(s, c);
    if s.calls[c].echo in s.hub.pending { assert EntryOk(s, s.calls[c].echo); }
    forall e | e in s'.hub.pending ensures EntryOk(s', e) { assert EntryOk(s, e); }
    forall h | 0 <= h < |s'.handlers| ensures HandlerOk(s', h) { assert HandlerOk(s, h); }
  }

  lemma LookUpInv(s: State, h: nat)
    requires Inv(s) && Enabled(s, LookUp(h))
    ensures Inv(Next(s, LookUp(h)))
  {
    var s' := Next(s, LookUp(h));
    var echo := s.handlers[h].resp.echo;
    if echo in s.hub.pending {
      assert EntryOk(s, echo);
      forall g | 0 <= g < |s.handlers| && s.handlers[g].Delivering?
        ensures s.handlers[g].channel != s.hub.pending[echo]
      {
        assert HandlerOk(s, g);
      }
    }
    forall e | e in s'.hub.pending ensures EntryOk(s', e) { assert EntryOk(s, e); }
    forall g | 0 <= g < |s'.handlers| ensures HandlerOk(s', g) {
      assert HandlerOk(s, g);
    }
  }

  lemma DeliverInv(s: State, h: nat)
    requires Inv(s) && Enabled(s, Deliver(h))
    ensures Inv(Next(s, Deliver(h)))
  {
    var s' := Next(s, Deliver(h));
    var c := s.handlers[h].channel;
    assert HandlerOk(s, h);
    forall e | e in s'.hub.pending ensures EntryOk(s', e) { assert EntryOk(s, e); }
    forall g | 0 <= g < |s'.handlers| ensures HandlerOk(s', g) { assert HandlerOk(s, g); }
  }

  // ---- Every run ----

  lemma {:induction false} AfterInv(s: State, steps: seq<Step>)
    requires Inv(s) && Possible(s, steps)
    ensures Inv(After(s, steps))
    decreases |steps|
  {
    if steps != [] {
      var s' := Next(s, steps[0]);
      match steps[0] {
        case Register(echo) => RegisterInv(s, echo);
        case FailToEncode(c) => assert CallOk(s.calls[c]); PhaseInv(s, c, s'.calls[c]);
        case ReadConnection(c) => assert CallOk(s.calls[c]); PhaseInv(s, c, s'.calls[c]);
        case Write(c, _, _) => assert CallOk(s.calls[c]); PhaseInv(s, c, s'.calls[c]);
        case Receive(c) => ReceiveInv(s, c);
        case TimeOut(c) => assert CallOk(s.calls[c]); PhaseInv(s, c, s'.calls[c]);
        case CleanUp(c) => CleanUpInv(s, c);
        case LookUp(h) => LookUpInv(s, h);
        case Deliver(h) => DeliverInv(s, h);
        case Arrive(resp) =>
          forall h | 0 <= h < |s'.handlers| ensures HandlerOk(s', h) {
            if h < |s.handlers| { assert HandlerOk(s, h); }
          }
          forall e | e in s'.hub.pending ensures EntryOk(s', e) { assert EntryOk(s, e); }
        case Accept =>
          forall h | 0 <= h < |s'.handlers| ensures HandlerOk(s', h) { assert HandlerOk(s, h); }
          forall e | e in s'.hub.pending ensures EntryOk(s', e) { assert EntryOk(s, e); }
        case EndConnection(conn) => SeverInv(s);
        case Stop => SeverInv(s);
      }
      hide Inv, Next, Enabled;
      AfterInv(s', steps[1..]);
    }
  }

  ghost predicate Reachable(s: State) {
    exists steps: seq<Step> :: Possible(START, steps) && After(START, steps) == s
  }

  lemma ReachableInv()
    ensures forall s | Reachable(s) :: Inv(s)
  {
    forall s | Reachable(s) ensures Inv(s) {
      var steps: seq<Step> :| Possible(START, steps) && After(START, steps) == s;
      AfterInv(START, steps);
    }
  }

  /** Whatever the interleaving, no response channel is closed twice, sent to after closing, or
      found full, and none receives more than one value. */
  lemma {:induction false} ChannelsAreSafe(s: State, c: nat)
    requires Reachable(s) && c < |s.hub.channels|
    ensures var ch := s.hub.channels[c];
            ch.closes <= 1 && ch.received <= 1 && ch.lateSends == 0 && ch.drops == 0
    ensures s.hub.channels[c].closes == 0 || s.hub.channels[c].received == 0
  {
    ReachableInv();
    assert ChannelOk(s.calls[c].echo, s.hub.channels[c]);
  }

  /** A caller only ever gets the answer bearing its own tag. */
  lemma {:induction false} CallersGetTheirOwnAnswer(s: State, c: nat)
    requires Reachable(s) && c < |s.calls| && s.calls[c].phase.Returned?
    requires s.calls[c].phase.answer.response.Some?
    ensures s.calls[c].phase.answer.response.value.echo == s.calls[c].echo
  {
    ReachableInv();
    assert CallOk(s.calls[c]);
  }

  /** "Not sent" is answered only if nothing was written, success only if the request was written
      once, and no request is ever written twice. */
  lemma {:induction false} OutcomesFitFrames(s: State, c: nat)
    requires Reachable(s) && c < |s.calls| && s.calls[c].phase.Returned?
    ensures FramesFit(s.calls[c].phase.answer.outcome, s.calls[c].frames)
  {
    ReachableInv();
    assert CallOk(s.calls[c]);
  }

  /** A pending entry belongs to the one request with its tag, and that request has not returned. */
  lemma {:induction false} PendingRequestsAreOpen(s: State, echo: string)
    requires Reachable(s) && echo in s.hub.pending
    ensures var c := s.hub.pending[echo];
            c < |s.calls| && s.calls[c].echo == echo && !s.calls[c].phase.Returned?
  {
    ReachableInv();
    assert EntryOk(s, echo);
  }

  /** When every request has returned, nothing is left pending. */
  lemma {:induction false} NothingStaysPending(s: State)
    requires Reachable(s) && forall c | 0 <= c < |s.calls| :: s.calls[c].phase.Returned?
    ensures s.hub.pending == map[]
  {
    if s.hub.pending != map[] {
      var e :| e in s.hub.pending;
      PendingRequestsAreOpen(s, e);
      assert false;
    }
  }

  /** An answer taken from the map always reaches the waiting channel. */
  lemma {:induction false} TakenAnswersAreDelivered(s: State, h: nat)
    requires Reachable(s) && Enabled(s, Deliver(h))
    ensures var c := s.handlers[h].channel;
            && c < |s.calls| && s.calls[c].echo == s.handlers[h].resp.echo
            && Next(s, Deliver(h)).hub.channels[c].buffer == Some(s.handlers[h].resp)
  {
    ReachableInv();
    assert HandlerOk(s, h);
  }

  /** The flag tells whether there is a connection. */
  lemma {:induction false} ConnectedIffConnection(s: State)
    requires Reachable(s)
    ensures s.hub.isConnected <==> s.hub.conn.Some?
  {
    ReachableInv();
  }

  /** Only its own end, Stop, or a newer connection takes a connection away: the late cleanups of
      any number of older connections leave it in place. */
  lemma {:induction false} CurrentConnectionStays(s: State, steps: seq<Step>, conn: nat)
    requires s.hub.conn == Some(conn) && s.hub.isConnected && Possible(s, steps)
    requires forall i | 0 <= i < |steps| :: !steps[i].Accept? && !steps[i].Stop? && steps[i] != EndConnection(conn)
    ensures After(s, steps).hub.conn == Some(conn)
    ensures After(s, steps).hub.isConnected
    decreases |steps|
  {
    if steps != [] {
      var s' := Next(s, steps[0]);
      assert s'.hub.conn == Some(conn) && s'.hub.isConnected;
      hide Next, Enabled;
      CurrentConnectionStays(s', steps[1..], conn);
    }
  }

  /** The four places that remove a pending entry, and no other: its own answer, its own
      cleanup, Stop, and the end of the current connection. In particular the end of a superseded
      connection removes nothing. */
  lemma {:induction false} EntryLeavesExactly(s: State, step: Step, echo: string)
    requires Reachable(s) && Enabled(s, step) && echo in s.hub.pending
    ensures echo !in Next(s, step).hub.pending <==>
            || step.Stop?
            || (step.EndConnection? && s.hub.conn == Some(step.conn))
            || (step.CleanUp? && s.calls[step.call].echo == echo)
            || (step.LookUp? && s.handlers[step.handler].resp.echo == echo)
    ensures echo in Next(s, step).hub.pending ==> Next(s, step).hub.pending[echo] == s.hub.pending[echo]
  {
    ReachableInv();
    assert EntryOk(s, echo);
    assert CallsOk(s);
  }
}
