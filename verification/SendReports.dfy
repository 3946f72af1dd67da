/** What the delivery hook and the observer are told of a send, and that they are told the same (lsp/module.go). */
module SendReports {
  import opened Common
  import opened Decimal
  import Outcomes
  import opened DeliveryLedger
  import opened SendPipeline
  import opened PipelineGuarantees
  import opened ForwardSends

  /** A panic of the enforce hook is a failure of it and never drops a message. */
  lemma HookPanicIsFailure(answer: Answer<Drop>)
    ensures Recovered(answer).failed <==> answer.Panic? || answer.value.failed
    ensures Recovered(answer).drop <==> answer.Value? && answer.value.drop
  {
  }

  /** The reported id is the message's, and none if there is no message or its id is negative. */
  lemma {:induction false} ReportedId(resp: SendResp)
    ensures AllDigits(RemoteID(resp))
    ensures RemoteID(resp) == "" <==> resp.ret.None? || resp.ret.value.id < 0
    ensures RemoteID(resp) != "" ==> Magnitude(RemoteID(resp)) == resp.ret.value.id
  {
    hide FormatNat, Magnitude;
    if resp.ret.Some? && resp.ret.value.id >= 0 { MagnitudeOfFormat(resp.ret.value.id); }
  }

  /** The hook calls and what goes to the Messenger in between, of a send that the Messenger answers. */
  function Reported(call: Event, status: Status, code: string, remoteID: string): seq<Event> {
    [Delivery(Sending, "", ""), call, Delivery(status, code, remoteID), Observed(status, code)]
  }

  predicate EndsWith(events: seq<Event>, tail: seq<Event>) {
    |tail| <= |events| && events[|events| - |tail|..] == tail
  }

  /** No event but those asks, and none of them twice. */
  predicate OnlyAsks(events: seq<Event>) {
    events in {[], [EnforceAsked], [HoldAsked], [EnforceAsked, HoldAsked]}
  }

  lemma StageReports(s: Setup, elements: Message, w: World)
    requires s.deliveryHook && s.observed && Printable(elements) && w.messenger.Value?
    ensures
      var (status, code) := ObservationSendStatus(w.messenger.value);
      SendStage(s, elements, w).events == Reported(SentOut(elements), status, code, RemoteID(w.messenger.value))
  {
    hide ObservationSendStatus, RemoteID;
  }

  /** The reports of an attempt that the Messenger answers, with a trace and the hook: after the asks, the opening, the
      message, the closing with the result and the id, and the observer's report of the same result. */
  lemma {:induction false} AttemptReports(s: Setup, msg: Option<Message>, w: World)
    requires Clear(s, msg, w) && w.messenger.Value? && s.deliveryHook && s.observed
    ensures
      var (status, code) := ObservationSendStatus(w.messenger.value);
      var asks := (if s.enforceHook then [EnforceAsked] else []) + (if s.migrationHook then [HoldAsked] else []);
      AttemptOf(s, msg, w).events ==
        asks + Reported(SentOut(Present(msg.value)), status, code, RemoteID(w.messenger.value))
  {
    hide ObservationSendStatus, RemoteID, Present, SendStage;
    PresentPrintable(msg.value);
    StageReports(s, Present(msg.value), w);
    var rest := SendStage(s, Present(msg.value), w).events;
    assert [] + rest == rest;
    ConcatAssociates([EnforceAsked], [HoldAsked], rest);
    assert [EnforceAsked] + [] == [EnforceAsked] && [] + [HoldAsked] == [HoldAsked];
    hide Dropped;
  }

  /** Without a trace nothing is reported at all. */
  lemma {:induction false} UntracedIsNotReported(s: Setup, msg: Option<Message>, w: World)
    requires !s.observed
    ensures forall e | e in AttemptOf(s, msg, w).events :: !e.Delivery? && !e.Observed?
    ensures forall e | e in ForwardOf(s, ToGroup, w).events :: !e.Delivery? && !e.Observed?
  {
    hide Present, Printable;
  }

  /** A held message is reported as held, and an empty one as skipped; a dropped one and one whose hold fails are not
      reported. */
  lemma {:induction false} UnsentReports(s: Setup, msg: Option<Message>, w: World)
    requires s.observed && msg.Some? && s.bot && w.muted == Value(false)
    ensures Present(msg.value) == [] ==>
      AttemptOf(s, msg, w).events == if s.deliveryHook then [Delivery(SkippedEmpty, "empty_message", "")] else []
    ensures Present(msg.value) != [] && Dropped(s, w) ==> AttemptOf(s, msg, w).events == [EnforceAsked]
    ensures Present(msg.value) != [] && !Dropped(s, w) && s.migrationHook && w.hold.Value? && w.hold.value.failed ==>
      OnlyAsks(AttemptOf(s, msg, w).events)
    ensures Present(msg.value) != [] && !Dropped(s, w) && s.migrationHook && w.hold == Value(Hold(true, false)) ==>
      EndsWith(AttemptOf(s, msg, w).events, [HoldAsked, Observed(MigrationHeld, "migration_held")])
  {
    hide Present, SendStage;
    assert [EnforceAsked] + [HoldAsked] == [EnforceAsked, HoldAsked];
    assert ([EnforceAsked] + [HoldAsked, Observed(MigrationHeld, "migration_held")])[1..]
        == [HoldAsked, Observed(MigrationHeld, "migration_held")];
  }

  // ---- Forward messages ----

  /** The result reported of a forward is told from its error alone, as for a message that came with an id. */
  lemma {:induction false} ForwardStatusIs(outcome: Outcomes.Outcome)
    ensures ForwardStatus(outcome).0 == Sent <==> outcome.Sent?
    ensures ForwardStatus(outcome).0 == NotSent <==> outcome.NotSent?
    ensures ForwardStatus(outcome).0 == Rejected <==> outcome.Rejected?
    ensures ForwardStatus(outcome).0 == Unknown <==> outcome.ResultUnknown? || outcome.OtherError?
    ensures
      var like := SendResp(Some(GroupMessage(0, [], false, false)), false, outcome);
      ForwardStatus(outcome) == ObservationSendStatus(like)
  {
  }

  lemma {:induction false} ForwardReports(s: Setup, w: World)
    requires ForwardEnters(s, w) && w.messenger.Value? && s.deliveryHook && s.observed
    ensures
      var (status, code) := ForwardStatus(w.messenger.value.outcome);
      var asks := (if s.enforceHook then [EnforceAsked] else []) + (if s.forwardHook then [HoldAsked] else []);
      ForwardOf(s, ToGroup, w).events == asks + Reported(Forwarded, status, code, RemoteID(w.messenger.value))
  {
    hide ForwardStatus, RemoteID, ForwardStage;
    ForwardStageReports(s, w);
    var rest := ForwardStage(s, w).events;
    assert [] + rest == rest;
    ConcatAssociates([EnforceAsked], [HoldAsked], rest);
    assert [EnforceAsked] + [] == [EnforceAsked] && [] + [HoldAsked] == [HoldAsked];
    hide Dropped;
  }

  lemma ForwardStageReports(s: Setup, w: World)
    requires s.deliveryHook && s.observed && w.messenger.Value?
    ensures
      var (status, code) := ForwardStatus(w.messenger.value.outcome);
      ForwardStage(s, w).events == Reported(Forwarded, status, code, RemoteID(w.messenger.value))
  {
    hide ForwardStatus, RemoteID;
  }
}
