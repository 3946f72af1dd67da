/** What the send pipeline guarantees, whatever its hooks do. */
module PipelineGuarantees {
  import opened Common
  import opened SendPipeline
  import opened DeliveryLedger

  // ---- Fail open ----

  function Without(s: Setup): Setup {
    s.(enforceHook := false, deliveryHook := false)
  }

  /** The events other than asking the two hooks. */
  function Core(events: seq<Event>): seq<Event> {
    if events == [] then []
    else (if events[0].EnforceAsked? || events[0].Delivery? then [] else [events[0]]) + Core(events[1..])
  }

  lemma {:induction false} CoreConcat(a: seq<Event>, b: seq<Event>)
    ensures Core(a + b) == Core(a) + Core(b)
  {
    if a == [] {
      assert a + b == b;
    } else {
      assert (a + b)[1..] == a[1..] + b;
      CoreConcat(a[1..], b);
      ConcatAssociates(if a[0].EnforceAsked? || a[0].Delivery? then [] else [a[0]], Core(a[1..]), Core(b));
    }
  }

  /** The hooks are asked at all. */
  predicate Reached(s: Setup, msg: Option<Message>, w: World) {
    msg.Some? && s.bot && w.muted == Value(false) && Present(msg.value) != []
  }

  lemma NotedIsNotCore(s: Setup, status: Status, code: string, remoteID: string)
    ensures Core(HookEvents(s, status, code, remoteID)) == []
  {
  }

  lemma CoreOne(e: Event)
    ensures Core([e]) == if e.EnforceAsked? || e.Delivery? then [] else [e]
  {
    assert [e][1..] == [];
  }

  lemma SendStageFailsOpen(s: Setup, elements: Message, w: World)
    ensures Core(SendStage(s, elements, w).events) == SendStage(Without(s), elements, w).events
    ensures SendStage(Without(s), elements, w).events == [] ==> SendStage(Without(s), elements, w).outcome.Panic?
    ensures SendStage(s, elements, w).outcome == SendStage(Without(s), elements, w).outcome
  {
    hide HookEvents, ObservationSendStatus, RemoteID, Core;
    var first, sent := HookEvents(s, Sending, "", ""), [SentOut(elements)];
    var none: seq<Event> := [];
    NotedIsNotCore(s, Sending, "", "");
    HooksAreSilent(Without(s), Sending, "", "");
    CoreConcat(first, sent);
    CoreOne(SentOut(elements));
    assert none + sent == sent && sent + none == sent;
    if w.messenger.Value? {
      var resp := w.messenger.value;
      var (status, code) := ObservationSendStatus(resp);
      var last := HookEvents(s, status, code, RemoteID(resp));
      NotedIsNotCore(s, status, code, RemoteID(resp));
      HooksAreSilent(Without(s), status, code, RemoteID(resp));
      CoreConcat(first + sent, last);
      CoreConcat(first + sent + last, [Observed(status, code)]);
      CoreOne(Observed(status, code));
    }
  }

  lemma HooksAreSilent(s: Setup, status: Status, code: string, remoteID: string)
    requires !s.deliveryHook
    ensures HookEvents(s, status, code, remoteID) == []
  {
  }

  lemma HoldStageFailsOpen(s: Setup, elements: Message, w: World)
    ensures Core(HoldStage(s, elements, w).events) == HoldStage(Without(s), elements, w).events
    ensures HoldStage(Without(s), elements, w).events == [] ==> HoldStage(Without(s), elements, w).outcome.Panic?
    ensures HoldStage(s, elements, w).outcome == HoldStage(Without(s), elements, w).outcome
  {
    hide SendStage, Core;
    SendStageFailsOpen(s, elements, w);
    CoreConcat([HoldAsked], SendStage(s, elements, w).events);
    CoreOne(HoldAsked);
    CoreConcat([HoldAsked], [Observed(MigrationHeld, "migration_held")]);
    CoreOne(Observed(MigrationHeld, "migration_held"));
    assert [HoldAsked] + [Observed(MigrationHeld, "migration_held")]
        == [HoldAsked, Observed(MigrationHeld, "migration_held")];
  }

  /** One attempt does what it would do without the two hooks, exactly when enforce did not drop it. */
  lemma {:induction false} AttemptFailsOpenIff(s: Setup, msg: Option<Message>, w: World)
    ensures Trace(Core(AttemptOf(s, msg, w).events), AttemptOf(s, msg, w).outcome) == AttemptOf(Without(s), msg, w)
       <==> !(Reached(s, msg, w) && Dropped(s, w))
  {
    hide HoldStage, HookEvents, Dropped;
    NotedIsNotCore(s, SkippedEmpty, "empty_message", "");
    HooksAreSilent(Without(s), SkippedEmpty, "empty_message", "");
    if Reached(s, msg, w) {
      var elements := Present(msg.value);
      HoldStageFailsOpen(s, elements, w);
      CoreConcat([EnforceAsked], HoldStage(s, elements, w).events);
      DroppedNeedsHook(s, w);
      DroppedNeedsHook(Without(s), w);
    }
  }

  lemma DroppedNeedsHook(s: Setup, w: World)
    ensures Dropped(s, w) ==> s.enforceHook && s.observed
  {
  }

  /** Errors and panics of the enforce and delivery hooks never change what is sent or returned. */
  lemma {:induction false} FailOpen(s: Setup, msg: Option<Message>, w: World, again: World)
    requires !Dropped(s, w) && !Dropped(s, again)
    ensures Core(SendOf(s, msg, w, again).events) == SendOf(Without(s), msg, w, again).events
    ensures SendOf(s, msg, w, again).outcome == SendOf(Without(s), msg, w, again).outcome
  {
    hide AttemptOf, Dropped, Reached;
    var kept := Retried(msg, w);
    AttemptFailsOpenIff(s, msg, w);
    AttemptFailsOpenIff(s, kept, again);
    CoreConcat(AttemptOf(s, msg, w).events, AttemptOf(s, kept, again).events);
  }

  // ---- How often the Messenger is called ----

  function Sends(events: seq<Event>): nat {
    if events == [] then 0 else (if events[0].SentOut? then 1 else 0) + Sends(events[1..])
  }

  lemma {:induction false} SendsConcat(a: seq<Event>, b: seq<Event>)
    ensures Sends(a + b) == Sends(a) + Sends(b)
  {
    if a == [] {
      assert a + b == b;
    } else {
      assert (a + b)[1..] == a[1..] + b;
      SendsConcat(a[1..], b);
    }
  }

  predicate LetThrough(s: Setup, w: World) {
    s.migrationHook ==> w.hold == Value(Hold(false, false))
  }

  /** Nothing stands between the message and the Messenger. */
  predicate Clear(s: Setup, msg: Option<Message>, w: World) {
    Reached(s, msg, w) && !Dropped(s, w) && LetThrough(s, w) && Printable(msg.value)
  }

  /** The attempt panics after it called the Messenger. */
  predicate PanicsLate(s: Setup, w: World) {
    w.messenger.Panic? || (s.observed && w.observer.Panic?)
  }

  lemma NotedIsNoSend(s: Setup, status: Status, code: string, remoteID: string)
    ensures Sends(HookEvents(s, status, code, remoteID)) == 0
  {
  }

  lemma SendStageSendsOnce(s: Setup, elements: Message, w: World)
    ensures Sends(SendStage(s, elements, w).events) == if Printable(elements) then 1 else 0
    ensures SendStage(s, elements, w).outcome.Panic? <==> !Printable(elements) || PanicsLate(s, w)
  {
    hide HookEvents, ObservationSendStatus, RemoteID;
    var first := HookEvents(s, Sending, "", "");
    NotedIsNoSend(s, Sending, "", "");
    SendsConcat(first, [SentOut(elements)]);
    if w.messenger.Value? {
      var resp := w.messenger.value;
      var (status, code) := ObservationSendStatus(resp);
      var last := HookEvents(s, status, code, RemoteID(resp));
      NotedIsNoSend(s, status, code, RemoteID(resp));
      SendsConcat(first + [SentOut(elements)], last);
      SendsConcat(first + [SentOut(elements)] + last, [Observed(status, code)]);
    }
  }

  /** An attempt calls the Messenger once if it is clear and never otherwise: a held, failed or dropped one does not. */
  lemma {:induction false} AttemptSends(s: Setup, msg: Option<Message>, w: World)
    ensures Sends(AttemptOf(s, msg, w).events) == if Clear(s, msg, w) then 1 else 0
    ensures Clear(s, msg, w) ==> (AttemptOf(s, msg, w).outcome.Panic? <==> PanicsLate(s, w))
  {
    hide SendStage, HookEvents, PanicsLate;
    NotedIsNoSend(s, SkippedEmpty, "empty_message", "");
    if Reached(s, msg, w) {
      var elements := Present(msg.value);
      PresentPrintable(msg.value);
      SendStageSendsOnce(s, elements, w);
      SendsConcat([HoldAsked], SendStage(s, elements, w).events);
      SendsConcat([EnforceAsked], HoldStage(s, elements, w).events);
    }
  }

  lemma ClearIsPrintable(s: Setup, msg: Option<Message>, w: World)
    ensures Clear(s, msg, w) ==> msg.Some? && Printable(msg.value)
  {
  }

  /** At most one retry. The Messenger is called twice exactly when the first attempt panics after calling it. */
  lemma {:induction false} SentTwiceIff(s: Setup, msg: Option<Message>, w: World, again: World)
    ensures Sends(SendOf(s, msg, w, again).events) <= 2
    ensures Sends(SendOf(s, msg, w, again).events) == 2 <==>
      Clear(s, msg, w) && PanicsLate(s, w) && Clear(s, Retried(msg, w), again)
  {
    hide AttemptOf, Clear, PanicsLate;
    ClearIsPrintable(s, msg, w);
    AttemptSends(s, msg, w);
    AttemptSends(s, Retried(msg, w), again);
    SendsConcat(AttemptOf(s, msg, w).events, AttemptOf(s, Retried(msg, w), again).events);
  }

  /** A hold that holds, fails or panics whenever asked keeps the Messenger from being called at all. */
  lemma {:induction false} HoldFailsClosed(s: Setup, msg: Option<Message>, w: World, again: World)
    requires !LetThrough(s, w) && !LetThrough(s, again)
    ensures Sends(SendOf(s, msg, w, again).events) == 0
  {
    hide AttemptOf;
    AttemptSends(s, msg, w);
    AttemptSends(s, Retried(msg, w), again);
    SendsConcat(AttemptOf(s, msg, w).events, AttemptOf(s, Retried(msg, w), again).events);
  }

  /** A panic of the recorder after a successful send makes the message go out a second time. */
  lemma {:induction false} RecorderPanicResends(text: string)
    ensures
      var s := Setup(true, true, false, false, false, false, true);
      var msg := [Some(Shown(text))];
      var resp := SendResp(Some(GroupMessage(7, msg, false, false)), false, Outcomes.Sent);
      var w := World(Value(false), Panic, Panic, Returned(true, true), Value(resp), Returned(true, true), Panic);
      Sends(SendOf(s, Some(msg), w, w).events) == 2
  {
    hide SendOf, ObservationSendStatus;
    var s := Setup(true, true, false, false, false, false, true);
    var msg := [Some(Shown(text))];
    var resp := SendResp(Some(GroupMessage(7, msg, false, false)), false, Outcomes.Sent);
    var w := World(Value(false), Panic, Panic, Returned(true, true), Value(resp), Returned(true, true), Panic);
    assert Present(msg) == [Some(Shown(text))] + Present([]);
    SentTwiceIff(s, Some(msg), w, w);
  }

  // ---- What is sent ----

  lemma {:induction false} PresentAgain(msg: Message)
    ensures Present(Present(msg)) == Present(msg)
    ensures forall k | 0 <= k < |Present(msg)| :: Present(msg)[k].Some?
  {
    if msg != [] {
      PresentAgain(msg[1..]);
      if msg[0].Some? {
        assert Present(msg)[1..] == Present(msg[1..]);
      } else {
        assert Present(msg) == Present(msg[1..]);
      }
    }
  }

  ghost predicate OnlySends(events: seq<Event>, elements: Message) {
    forall k | 0 <= k < |events| && events[k].SentOut? :: events[k].elements == elements
  }

  lemma SendStageSendsPresent(s: Setup, elements: Message, w: World)
    ensures OnlySends(SendStage(s, elements, w).events, elements)
  {
    hide ObservationSendStatus, RemoteID;
  }

  lemma AttemptSendsPresent(s: Setup, msg: Option<Message>, w: World)
    ensures msg.Some? ==> OnlySends(AttemptOf(s, msg, w).events, Present(msg.value))
    ensures msg.None? ==> AttemptOf(s, msg, w).events == []
  {
    hide SendStage, Present;
    if msg.Some? { SendStageSendsPresent(s, Present(msg.value), w); }
  }

  /** Every call of the Messenger carries the message's non-nil elements, in order, also on the retry. */
  lemma {:induction false} PayloadKept(s: Setup, msg: Message, w: World, again: World)
    ensures OnlySends(SendOf(s, Some(msg), w, again).events, Present(msg))
  {
    hide AttemptOf, Present;
    PresentAgain(msg);
    AttemptSendsPresent(s, Some(msg), w);
    AttemptSendsPresent(s, Retried(Some(msg), w), again);
  }

  // ---- A list of messages ----

  /** Unless a panic escapes there is at least one result. Only the last can be a failure, and it is one if a message
      was left unsent. */
  lemma {:induction false} StopsAtFirstFailure(s: Setup, target: Destination, msgs: seq<Option<Message>>,
                                               worlds: seq<(World, World)>)
    requires |worlds| == |msgs|
    ensures
      var res := ResultsOf(s, target, msgs, worlds);
      && |res| <= (if msgs == [] then 1 else |msgs|)
      && (forall k | 0 <= k < |res| - 1 :: res[k].id != -1)
      && (EndsInPanic(s, target, msgs, worlds) ==> |res| < |msgs| && (res != [] ==> res[|res| - 1].id != -1))
      && (!EndsInPanic(s, target, msgs, worlds) ==> |res| >= 1 && (|res| < |msgs| ==> res[|res| - 1].id == -1))
  {
    hide OneOf;
    if msgs != [] {
      var rest, restWorlds := msgs[1..], worlds[1..];
      if |msgs| > 1 { StopsAtFirstFailure(s, target, rest, restWorlds); }
      assert |msgs| == 1 ==> !EndsInPanic(s, target, rest, restWorlds);
    }
  }

  /** The list stops before its end: a send failed or its panic escaped. */
  predicate Stops(s: Setup, target: Destination, msgs: seq<Option<Message>>, worlds: seq<(World, World)>)
    requires |worlds| == |msgs|
  {
    var res := ResultsOf(s, target, msgs, worlds);
    EndsInPanic(s, target, msgs, worlds) || (res != [] && res[|res| - 1].id == -1)
  }

  /** What comes after a failed or panicking send never reaches a hook or the Messenger. */
  lemma {:induction false} NothingAfterFailure(s: Setup, target: Destination, msgs: seq<Option<Message>>,
                                               worlds: seq<(World, World)>, others: seq<Option<Message>>,
                                               otherWorlds: seq<(World, World)>)
    requires |worlds| == |msgs| && |otherWorlds| == |others| && msgs != [] && Stops(s, target, msgs, worlds)
    ensures EventsOf(s, target, msgs + others, worlds + otherWorlds) == EventsOf(s, target, msgs, worlds)
    ensures ResultsOf(s, target, msgs + others, worlds + otherWorlds) == ResultsOf(s, target, msgs, worlds)
    ensures EndsInPanic(s, target, msgs + others, worlds + otherWorlds) <==> EndsInPanic(s, target, msgs, worlds)
  {
    hide OneOf;
    var all, allWorlds := msgs + others, worlds + otherWorlds;
    assert all[0] == msgs[0] && allWorlds[0] == worlds[0];
    assert all[1..] == msgs[1..] + others && allWorlds[1..] == worlds[1..] + otherWorlds;
    StopsAtFirstFailure(s, target, msgs, worlds);
    var first := OneOf(s, target, msgs[0], worlds[0].0, worlds[0].1).outcome;
    if |msgs| > 1 && first.Value? && first.value.id != -1 {
      StopsAtFirstFailure(s, target, msgs[1..], worlds[1..]);
      NothingAfterFailure(s, target, msgs[1..], worlds[1..], others, otherWorlds);
    }
  }
}
