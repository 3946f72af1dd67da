/** What a send returns, told from what its hooks and the Messenger answer (lsp/module.go). */
module SendResults {
  import opened Common
  import opened SendPipeline
  import opened PipelineGuarantees
  import opened ForwardSends

  // ---- One attempt ----

  predicate HoldFails(s: Setup, w: World) {
    s.migrationHook && w.hold.Value? && w.hold.value.failed
  }

  predicate HoldHolds(s: Setup, w: World) {
    s.migrationHook && w.hold.Value? && w.hold.value.held && !w.hold.value.failed
  }

  predicate RecorderPanics(s: Setup, w: World) {
    s.observed && w.observer.Panic?
  }

  /** The attempt is through: it called the Messenger and nothing panicked. */
  predicate GoesThrough(s: Setup, msg: Option<Message>, w: World) {
    Clear(s, msg, w) && !PanicsLate(s, w)
  }

  /** It ends before the hooks. */
  predicate EndsEarly(s: Setup, msg: Option<Message>, w: World) {
    || msg.None? || !s.bot
    || (w.muted == Value(true) && Printable(msg.value))
    || (w.muted == Value(false) && Present(msg.value) == [])
  }

  predicate AttemptHeld(s: Setup, msg: Option<Message>, w: World) {
    Reached(s, msg, w) && !Dropped(s, w) && HoldHolds(s, w) && !RecorderPanics(s, w)
  }

  predicate AttemptPanics(s: Setup, msg: Option<Message>, w: World) {
    && msg.Some? && s.bot
    && (|| w.muted.Panic?
        || (w.muted == Value(true) && !Printable(msg.value))
        || (Reached(s, msg, w) && !Dropped(s, w)
            && (|| (s.migrationHook && w.hold.Panic?)
                || (HoldHolds(s, w) && RecorderPanics(s, w))
                || (LetThrough(s, w) && (!Printable(msg.value) || PanicsLate(s, w))))))
  }

  /** The message that the Messenger returned. */
  function Returned(w: World): Option<GroupMessage> {
    if w.messenger.Value? then w.messenger.value.ret else None
  }

  /** The answer of an attempt, case by case. */
  lemma {:induction false} AttemptAnswers(s: Setup, msg: Option<Message>, w: World)
    ensures AttemptOf(s, msg, w).outcome.Panic? <==> AttemptPanics(s, msg, w)
    ensures EndsEarly(s, msg, w) ==>
      AttemptOf(s, msg, w).outcome.Value? && AttemptOf(s, msg, w).outcome.value.id == -1
    ensures Reached(s, msg, w) && Dropped(s, w) ==>
      AttemptOf(s, msg, w).outcome == Value(GroupMessage(0, Present(msg.value), true, false))
    ensures Reached(s, msg, w) && !Dropped(s, w) && HoldFails(s, w) ==>
      AttemptOf(s, msg, w).outcome == Value(GroupMessage(-1, Present(msg.value), false, false))
    ensures AttemptHeld(s, msg, w) ==>
      AttemptOf(s, msg, w).outcome == Value(GroupMessage(0, Present(msg.value), false, true))
    ensures GoesThrough(s, msg, w) ==>
      AttemptOf(s, msg, w).outcome ==
        Value(if Returned(w).Some? then Returned(w).value else GroupMessage(-1, Present(msg.value), false, false))
  {
    hide ObservationSendStatus, RemoteID, HookEvents;
    if msg.Some? { PresentPrintable(msg.value); }
  }

  lemma HoldCases(s: Setup, w: World)
    ensures LetThrough(s, w) || (s.migrationHook && w.hold.Panic?) || HoldFails(s, w) || HoldHolds(s, w)
  {
  }

  /** These are all the cases. */
  lemma AttemptCases(s: Setup, msg: Option<Message>, w: World)
    ensures
      || AttemptPanics(s, msg, w)
      || EndsEarly(s, msg, w)
      || (Reached(s, msg, w) && Dropped(s, w))
      || (Reached(s, msg, w) && !Dropped(s, w) && HoldFails(s, w))
      || AttemptHeld(s, msg, w)
      || GoesThrough(s, msg, w)
  {
    hide Present, Recovered;
    HoldCases(s, w);
    if msg.Some? && s.bot {
      match w.muted {
        case Panic =>
        case Value(true) =>
        case Value(false) =>
      }
    }
  }

  lemma EarlyIsPlain(s: Setup, msg: Option<Message>, w: World)
    requires EndsEarly(s, msg, w)
    ensures
      var answer := AttemptOf(s, msg, w).outcome;
      answer.Value? && !answer.value.enforceDropped && !answer.value.migrationHeld
    ensures !Reached(s, msg, w)
  {
    hide EnforceStage;
  }

  // ---- What the answer says ----

  predicate SaysFailed(s: Setup, msg: Option<Message>, w: World) {
    || EndsEarly(s, msg, w)
    || (Reached(s, msg, w) && !Dropped(s, w) && HoldFails(s, w))
    || (GoesThrough(s, msg, w) && (Returned(w).None? || Returned(w).value.id == -1))
  }

  predicate SaysDropped(s: Setup, msg: Option<Message>, w: World) {
    || (Reached(s, msg, w) && Dropped(s, w))
    || (GoesThrough(s, msg, w) && Returned(w).Some? && Returned(w).value.enforceDropped)
  }

  predicate SaysHeld(s: Setup, msg: Option<Message>, w: World) {
    || AttemptHeld(s, msg, w)
    || (GoesThrough(s, msg, w) && Returned(w).Some? && Returned(w).value.migrationHeld)
  }

  lemma AttemptSays(s: Setup, msg: Option<Message>, w: World)
    ensures
      var answer := AttemptOf(s, msg, w).outcome;
      && (answer.Value? && answer.value.id == -1 <==> SaysFailed(s, msg, w))
      && (answer.Value? && answer.value.enforceDropped <==> SaysDropped(s, msg, w))
      && (answer.Value? && answer.value.migrationHeld <==> SaysHeld(s, msg, w))
  {
    AttemptAnswers(s, msg, w);
    AttemptCases(s, msg, w);
    if EndsEarly(s, msg, w) { EarlyIsPlain(s, msg, w); }
    hide AttemptOf, PanicsLate, Present;
  }

  // ---- A whole send ----

  /** The first attempt panics, and the message can be printed for the retry. */
  predicate TriesAgain(s: Setup, msg: Option<Message>, w: World) {
    AttemptPanics(s, msg, w) && msg.Some? && Printable(msg.value)
  }

  /** An attempt that goes through returns the Messenger's message, or id -1 and what was sent if there is none; the
      retry's answer counts if the first attempt panicked. */
  lemma {:induction false} SendReturnsMessengersMessage(s: Setup, msg: Option<Message>, w: World, again: World)
    requires GoesThrough(s, msg, w) || (TriesAgain(s, msg, w) && GoesThrough(s, Retried(msg, w), again))
    ensures
      var last := if GoesThrough(s, msg, w) then w else again;
      SendOf(s, msg, w, again).outcome ==
        Value(if Returned(last).Some? then Returned(last).value else GroupMessage(-1, Present(msg.value), false, false))
  {
    hide AttemptOf, Present, PanicsLate, Dropped, LetThrough;
    AttemptAnswers(s, msg, w);
    AttemptAnswers(s, Retried(msg, w), again);
    if msg.Some? { PresentAgain(msg.value); }
  }

  /** Exactly when a send answers with id -1, as dropped, and as held, over both attempts. */
  lemma {:induction false} SendSaysIff(s: Setup, msg: Option<Message>, w: World, again: World)
    ensures
      var answer, kept := SendOf(s, msg, w, again).outcome, Retried(msg, w);
      && (answer.Panic? <==> AttemptPanics(s, msg, w) && !TriesAgain(s, msg, w))
      && (answer.Value? && answer.value.id == -1 <==>
            || SaysFailed(s, msg, w)
            || (TriesAgain(s, msg, w) && (SaysFailed(s, kept, again) || AttemptPanics(s, kept, again))))
      && (answer.Value? && answer.value.enforceDropped <==>
            SaysDropped(s, msg, w) || (TriesAgain(s, msg, w) && SaysDropped(s, kept, again)))
      && (answer.Value? && answer.value.migrationHeld <==>
            SaysHeld(s, msg, w) || (TriesAgain(s, msg, w) && SaysHeld(s, kept, again)))
  {
    hide AttemptOf, SaysFailed, SaysDropped, SaysHeld, AttemptPanics;
    AttemptSays(s, msg, w);
    AttemptSays(s, Retried(msg, w), again);
    PanicsExactly(s, msg, w);
    PanicsExactly(s, Retried(msg, w), again);
  }

  /** If both attempts panic, the answer is id -1 with the message as it was left: without its nil elements exactly if
      one of the attempts came past the check for muting. */
  lemma {:induction false} TwoPanicsAnswer(s: Setup, msg: Message, w: World, again: World)
    requires TriesAgain(s, Some(msg), w) && AttemptPanics(s, Retried(Some(msg), w), again)
    ensures
      var filtered := w.muted == Value(false) || again.muted == Value(false);
      SendOf(s, Some(msg), w, again).outcome ==
        Value(GroupMessage(-1, if filtered then Present(msg) else msg, false, false))
  {
    hide AttemptOf, AttemptPanics, Present;
    PanicsExactly(s, Some(msg), w);
    PanicsExactly(s, Retried(Some(msg), w), again);
    PresentAgain(msg);
  }

  lemma PanicsExactly(s: Setup, msg: Option<Message>, w: World)
    ensures AttemptOf(s, msg, w).outcome.Panic? <==> AttemptPanics(s, msg, w)
    ensures AttemptPanics(s, msg, w) ==> msg.Some?
  {
    hide AttemptOf;
    AttemptAnswers(s, msg, w);
  }

  // ---- Private targets ----

  /** A private send calls the Messenger once or not at all, and returns its message if there is one. */
  lemma {:induction false} PrivateReturns(s: Setup, msg: Message, w: World)
    ensures
      var t, elements := PrivateOf(s, Some(msg), w), Present(msg);
      var reached := s.bot && s.messenger && elements != [] && Printable(msg);
      && t.events == (if reached then [SentPrivately(elements)] else [])
      && (t.outcome.Panic? <==> s.bot && s.messenger && elements != [] && (!Printable(msg) || w.messenger.Panic?))
      && (reached && w.messenger.Value? ==>
            t.outcome ==
              Value(if Returned(w).Some? then Returned(w).value else GroupMessage(-1, elements, false, false)))
      && (!reached && t.outcome.Value? ==>
            t.outcome.value == GroupMessage(-1, if s.bot && s.messenger then [] else msg, false, false))
  {
    hide Present;
    PresentPrintable(msg);
  }

  // ---- Lists of messages ----

  /** Every message goes through, and the Messenger answers it with a message other than a failure. */
  ghost predicate AllGoThrough(s: Setup, msgs: seq<Option<Message>>, worlds: seq<(World, World)>)
    requires |worlds| == |msgs|
  {
    forall k | 0 <= k < |msgs| ::
      GoesThrough(s, msgs[k], worlds[k].0) && Returned(worlds[k].0).Some? && Returned(worlds[k].0).value.id != -1
  }

  /** Then every message is sent once, and the results are the Messenger's, in order. */
  lemma {:induction false} EveryMessageIsSent(s: Setup, msgs: seq<Option<Message>>, worlds: seq<(World, World)>)
    requires |worlds| == |msgs| && msgs != [] && AllGoThrough(s, msgs, worlds)
    ensures !EndsInPanic(s, ToGroup, msgs, worlds)
    ensures Sends(EventsOf(s, ToGroup, msgs, worlds)) == |msgs|
    ensures |ResultsOf(s, ToGroup, msgs, worlds)| == |msgs|
    ensures forall k | 0 <= k < |msgs| :: ResultsOf(s, ToGroup, msgs, worlds)[k] == Returned(worlds[k].0).value
  {
    hide AttemptOf, GoesThrough, Sends;
    var first := msgs[0];
    SendReturnsMessengersMessage(s, first, worlds[0].0, worlds[0].1);
    SentExactlyOnce(s, first, worlds[0].0, worlds[0].1);
    if |msgs| > 1 {
      EveryMessageIsSent(s, msgs[1..], worlds[1..]);
      SendsConcat(SendOf(s, first, worlds[0].0, worlds[0].1).events, EventsOf(s, ToGroup, msgs[1..], worlds[1..]));
    }
  }

  lemma SentExactlyOnce(s: Setup, msg: Option<Message>, w: World, again: World)
    requires GoesThrough(s, msg, w)
    ensures Sends(SendOf(s, msg, w, again).events) == 1
  {
    hide AttemptOf, Clear, PanicsLate;
    AttemptSends(s, msg, w);
    AttemptAnswers(s, msg, w);
  }

  /** Every private message is sent, and answered with a message other than a failure. */
  ghost predicate AllReachPrivately(s: Setup, msgs: seq<Option<Message>>, worlds: seq<(World, World)>)
    requires |worlds| == |msgs|
  {
    && s.bot && s.messenger
    && forall k | 0 <= k < |msgs| ::
         && msgs[k].Some? && Present(msgs[k].value) != [] && Printable(msgs[k].value)
         && worlds[k].0.messenger.Value? && Returned(worlds[k].0).Some? && Returned(worlds[k].0).value.id != -1
  }

  /** Then exactly they are sent, in order, and the results are the Messenger's. */
  lemma {:induction false} EveryPrivateMessageIsSent(s: Setup, msgs: seq<Option<Message>>, worlds: seq<(World, World)>)
    requires |worlds| == |msgs| && msgs != [] && AllReachPrivately(s, msgs, worlds)
    ensures !EndsInPanic(s, ToPrivate, msgs, worlds)
    ensures |EventsOf(s, ToPrivate, msgs, worlds)| == |ResultsOf(s, ToPrivate, msgs, worlds)| == |msgs|
    ensures forall k | 0 <= k < |msgs| ::
      && EventsOf(s, ToPrivate, msgs, worlds)[k] == SentPrivately(Present(msgs[k].value))
      && ResultsOf(s, ToPrivate, msgs, worlds)[k] == Returned(worlds[k].0).value
  {
    hide PrivateOf, Present, Printable;
    var first := msgs[0];
    PrivateReturns(s, first.value, worlds[0].0);
    if |msgs| > 1 { EveryPrivateMessageIsSent(s, msgs[1..], worlds[1..]); }
  }

  // ---- Forward messages ----

  /** The Messenger's id if there was no error, else id -1. */
  function ForwardReturns(w: World): GroupMessage {
    GroupMessage(if w.messenger.Value? && w.messenger.value.outcome.Sent? && Returned(w).Some?
                 then Returned(w).value.id else -1, [], false, false)
  }

  /** The answer of a forward to a group, case by case. */
  lemma {:induction false} ForwardAnswers(s: Setup, w: World)
    ensures !s.bot ==> ForwardOf(s, ToGroup, w).outcome == Value(GroupMessage(-1, [], false, false))
    ensures s.bot && Dropped(s, w) ==> ForwardOf(s, ToGroup, w).outcome == Value(GroupMessage(0, [], true, false))
    ensures s.bot && !Dropped(s, w) && s.forwardHook ==>
      match w.hold
      case Panic => ForwardOf(s, ToGroup, w).outcome == Panic
      case Value(hold) =>
        && (hold.failed ==> ForwardOf(s, ToGroup, w).outcome == Value(GroupMessage(-1, [], false, false)))
        && (hold.held && !hold.failed ==>
              ForwardOf(s, ToGroup, w).outcome ==
                if RecorderPanics(s, w) then Panic else Value(GroupMessage(0, [], false, true)))
    ensures ForwardEnters(s, w) ==>
      ForwardOf(s, ToGroup, w).outcome == if PanicsLate(s, w) then Panic else Value(ForwardReturns(w))
    ensures s.bot ==>
      ForwardOf(s, ToPrivate, w).outcome == if w.messenger.Panic? then Panic else Value(ForwardReturns(w))
    ensures !s.bot ==> ForwardOf(s, ToPrivate, w).outcome == Value(GroupMessage(-1, [], false, false))
  {
    hide HookEvents, RemoteID, ForwardStatus;
  }

  /** Nothing recovers a panic of a forward: it escapes exactly then. */
  predicate ForwardPanics(s: Setup, target: Destination, w: World) {
    && s.bot
    && if target.ToPrivate? then w.messenger.Panic? else
       !Dropped(s, w)
       && (|| (s.forwardHook && w.hold.Panic?)
           || (s.forwardHook && w.hold == Value(Hold(true, false)) && RecorderPanics(s, w))
           || (ForwardEnters(s, w) && PanicsLate(s, w)))
  }

  lemma {:induction false} ForwardPanicsExactly(s: Setup, target: Destination, w: World)
    ensures ForwardOf(s, target, w).outcome.Panic? <==> ForwardPanics(s, target, w)
  {
    hide HookEvents, RemoteID, ForwardStatus;
  }

  /** The k-th message lets a panic escape, and the ones before it were sent. */
  ghost predicate EscapesAt(s: Setup, target: Destination, msgs: seq<Option<Message>>, worlds: seq<(World, World)>,
                            k: nat)
    requires |worlds| == |msgs|
  {
    && k < |msgs| && OneOf(s, target, msgs[k], worlds[k].0, worlds[k].1).outcome.Panic?
    && forall j | 0 <= j < k :: IsSent(OneOf(s, target, msgs[j], worlds[j].0, worlds[j].1).outcome)
  }

  predicate IsSent(answer: Answer<GroupMessage>) {
    answer.Value? && answer.value.id != -1
  }

  lemma {:induction false} PanicEscapesIff(s: Setup, target: Destination, msgs: seq<Option<Message>>,
                                           worlds: seq<(World, World)>)
    requires |worlds| == |msgs|
    ensures EndsInPanic(s, target, msgs, worlds) <==> exists k: nat :: EscapesAt(s, target, msgs, worlds, k)
  {
    hide OneOf;
    if msgs != [] {
      PanicEscapesIff(s, target, msgs[1..], worlds[1..]);
      var first := OneOf(s, target, msgs[0], worlds[0].0, worlds[0].1).outcome;
      if first.Panic? { assert EscapesAt(s, target, msgs, worlds, 0); }
      if IsSent(first) {
        if k: nat :| EscapesAt(s, target, msgs[1..], worlds[1..], k) {
          EscapesLater(s, target, msgs, worlds, k);
        }
        if k: nat :| EscapesAt(s, target, msgs, worlds, k) {
          EscapesSooner(s, target, msgs, worlds, k);
        }
      }
    }
  }

  lemma EscapesLater(s: Setup, target: Destination, msgs: seq<Option<Message>>, worlds: seq<(World, World)>, k: nat)
    requires |worlds| == |msgs| != 0 && EscapesAt(s, target, msgs[1..], worlds[1..], k)
    requires IsSent(OneOf(s, target, msgs[0], worlds[0].0, worlds[0].1).outcome)
    ensures EscapesAt(s, target, msgs, worlds, k + 1)
  {
    hide OneOf;
    forall j | 0 <= j < k + 1 ensures IsSent(OneOf(s, target, msgs[j], worlds[j].0, worlds[j].1).outcome) {
      if j > 0 { assert msgs[1..][j - 1] == msgs[j] && worlds[1..][j - 1] == worlds[j]; }
    }
  }

  lemma EscapesSooner(s: Setup, target: Destination, msgs: seq<Option<Message>>, worlds: seq<(World, World)>, k: nat)
    requires |worlds| == |msgs| != 0 && EscapesAt(s, target, msgs, worlds, k)
    requires IsSent(OneOf(s, target, msgs[0], worlds[0].0, worlds[0].1).outcome)
    ensures k > 0
    ensures EscapesAt(s, target, msgs[1..], worlds[1..], k - 1)
  {
    hide OneOf;
    forall j | 0 <= j < k - 1
      ensures IsSent(OneOf(s, target, msgs[1..][j], worlds[1..][j].0, worlds[1..][j].1).outcome)
    {
      assert msgs[1..][j] == msgs[j + 1] && worlds[1..][j] == worlds[j + 1];
    }
  }

  lemma {:induction false} NoForwards(s: Setup, target: Destination, msgs: seq<Option<Message>>,
                                      worlds: seq<(World, World)>)
    requires |worlds| == |msgs|
    ensures Forwards(EventsOf(s, target, msgs, worlds)) == 0
  {
    hide OneOf, Forwards;
    assert Forwards([]) == 0 by { NothingForwarded(); }
    if msgs != [] {
      var t := OneOf(s, target, msgs[0], worlds[0].0, worlds[0].1);
      OneForwardsNothing(s, target, msgs[0], worlds[0].0, worlds[0].1);
      NoForwards(s, target, msgs[1..], worlds[1..]);
      ForwardsConcat(t.events, EventsOf(s, target, msgs[1..], worlds[1..]));
    }
  }

  lemma NothingForwarded()
    ensures Forwards([]) == 0
  {
  }

  lemma OneForwardsNothing(s: Setup, target: Destination, msg: Option<Message>, w: World, again: World)
    ensures Forwards(OneOf(s, target, msg, w, again).events) == 0
  {
    hide AttemptOf, Forwards, Present;
    AttemptForwardsNothing(s, msg, w);
    AttemptForwardsNothing(s, Retried(msg, w), again);
    ForwardsConcat(AttemptOf(s, msg, w).events, AttemptOf(s, Retried(msg, w), again).events);
    assert forall elements :: Forwards([SentPrivately(elements)]) == 0 by { PrivateIsNoForward(); }
    NothingForwarded();
  }

  lemma PrivateIsNoForward()
    ensures forall elements :: Forwards([SentPrivately(elements)]) == 0
  {
    assert forall elements :: [SentPrivately(elements)][1..] == [];
  }

  lemma StagesForwardNothing(s: Setup, elements: Message, w: World)
    ensures forall k | 0 <= k < |SendStage(s, elements, w).events| :: !SendStage(s, elements, w).events[k].Forwarded?
    ensures forall k | 0 <= k < |HoldStage(s, elements, w).events| :: !HoldStage(s, elements, w).events[k].Forwarded?
    ensures forall k | 0 <= k < |EnforceStage(s, elements, w).events| ::
      !EnforceStage(s, elements, w).events[k].Forwarded?
  {
    SendForwardsNothing(s, elements, w);
    HoldForwardsNothing(s, elements, w);
    hide SendStage, HoldStage;
  }

  lemma HoldForwardsNothing(s: Setup, elements: Message, w: World)
    ensures forall k | 0 <= k < |HoldStage(s, elements, w).events| :: !HoldStage(s, elements, w).events[k].Forwarded?
  {
    SendForwardsNothing(s, elements, w);
    hide SendStage;
  }

  lemma SendForwardsNothing(s: Setup, elements: Message, w: World)
    ensures forall k | 0 <= k < |SendStage(s, elements, w).events| :: !SendStage(s, elements, w).events[k].Forwarded?
  {
    hide ObservationSendStatus, RemoteID, Finished;
  }

  lemma AttemptForwardsNothing(s: Setup, msg: Option<Message>, w: World)
    ensures Forwards(AttemptOf(s, msg, w).events) == 0
  {
    hide Present, SendStage, HoldStage, EnforceStage;
    if msg.Some? { StagesForwardNothing(s, Present(msg.value), w); }
    NoForwardedEvent(AttemptOf(s, msg, w).events);
  }

  lemma {:induction false} NoForwardedEvent(events: seq<Event>)
    requires forall k | 0 <= k < |events| :: !events[k].Forwarded?
    ensures Forwards(events) == 0
  {
    if events != [] { NoForwardedEvent(events[1..]); }
  }

  /** A notice with forward nodes is forwarded, once or not at all, with the forward's answer, and nothing of it is sent
      as a message; any other is never forwarded, and panics exactly if one of its messages does and all before it were
      sent; and no notice is one failure without any effect. */
  lemma {:induction false} NoticeIsForwardedIff(s: Setup, target: Destination, notice: Option<Notice>,
                                                worlds: seq<(World, World)>, forward: World)
    requires notice.Some? ==> |worlds| == |notice.value.msgs|
    ensures
      var (answer, events) := NoticeOf(s, target, notice, worlds, forward);
      && (notice.None? ==> events == [] && answer == Value([GroupMessage(-1, [], false, false)]))
      && (notice.Some? && notice.value.nodes > 0 ==>
            && Sends(events) == 0
            && Forwards(events) == (if (if target.ToGroup? then ForwardEnters(s, forward) else s.bot) then 1 else 0)
            && (answer.Panic? <==> ForwardPanics(s, target, forward))
            && (answer.Value? ==>
                  |answer.value| == 1 && ForwardOf(s, target, forward).outcome == Value(answer.value[0])))
      && (notice.Some? && notice.value.nodes == 0 ==>
            && Forwards(events) == 0
            && (answer.Panic? <==> exists k: nat :: EscapesAt(s, target, notice.value.msgs, worlds, k)))
  {
    hide ForwardOf, EventsOf, ResultsOf, EndsInPanic, ForwardEnters, EscapesAt, ForwardPanics;
    if notice.Some? {
      PanicEscapesIff(s, target, notice.value.msgs, worlds);
      ForwardPanicsExactly(s, target, forward);
      ForwardSentOnce(s, target, forward);
      ForwardIsNoSend(s, target, forward);
      if notice.value.nodes == 0 { NoForwards(s, target, notice.value.msgs, worlds); }
    }
  }

  /** A notice without forward nodes is sent message by message; one without messages is one failure. */
  lemma {:induction false} NoticeSendsEveryMessage(s: Setup, target: Destination, notice: Notice,
                                                   worlds: seq<(World, World)>, forward: World)
    requires notice.nodes == 0 && |worlds| == |notice.msgs|
    ensures
      var (answer, events) := NoticeOf(s, target, Some(notice), worlds, forward);
      && (notice.msgs == [] ==> events == [] && answer == Value([GroupMessage(-1, [], false, false)]))
      && (notice.msgs != [] && target.ToGroup? && AllGoThrough(s, notice.msgs, worlds) ==>
            Sends(events) == |notice.msgs| && Answers(answer, worlds))
      && (notice.msgs != [] && target.ToPrivate? && AllReachPrivately(s, notice.msgs, worlds) ==>
            && |events| == |notice.msgs|
            && (forall k | 0 <= k < |events| :: events[k] == SentPrivately(Present(notice.msgs[k].value)))
            && Answers(answer, worlds))
  {
    hide OneOf, GoesThrough, Sends, Present, Printable;
    if notice.msgs != [] {
      if target.ToGroup? && AllGoThrough(s, notice.msgs, worlds) { EveryMessageIsSent(s, notice.msgs, worlds); }
      if target.ToPrivate? && AllReachPrivately(s, notice.msgs, worlds) {
        EveryPrivateMessageIsSent(s, notice.msgs, worlds);
      }
    }
  }

  /** The answer is the Messenger's messages, in order. */
  ghost predicate Answers(answer: Answer<seq<GroupMessage>>, worlds: seq<(World, World)>) {
    && answer.Value? && |answer.value| == |worlds|
    && forall k | 0 <= k < |worlds| :: Returned(worlds[k].0) == Some(answer.value[k])
  }

  lemma ForwardIsNoSend(s: Setup, target: Destination, w: World)
    ensures Sends(ForwardOf(s, target, w).events) == 0
  {
    hide ForwardStage, Sends;
    StageIsNoSend(s, w);
    var stage, held := ForwardStage(s, w).events, ForwardHoldStage(s, w).events;
    SendsConcat([HoldAsked], stage);
    SendsConcat([EnforceAsked], held);
    SmallIsNoSend();
  }

  lemma SmallIsNoSend()
    ensures Sends([]) == Sends([HoldAsked]) == Sends([EnforceAsked]) == Sends([Forwarded]) == 0
    ensures forall status, code :: Sends([HoldAsked, Observed(status, code)]) == 0
  {
    assert forall e: Event :: [e][1..] == [];
    assert forall status, code :: [HoldAsked, Observed(status, code)][1..] == [Observed(status, code)];
  }

  lemma StageIsNoSend(s: Setup, w: World)
    ensures Sends(ForwardStage(s, w).events) == 0
  {
    hide RemoteID, ForwardStatus;
    NoSentEvent(ForwardStage(s, w).events);
  }

  lemma {:induction false} NoSentEvent(events: seq<Event>)
    requires forall k | 0 <= k < |events| :: !events[k].SentOut?
    ensures Sends(events) == 0
  {
    if events != [] { NoSentEvent(events[1..]); }
  }
}
