/** Sending through the pre-send hooks (lsp/module.go). */
module SendPipeline {
  import opened Common
  import Decimal
  import Outcomes
  import DeliveryLedger

  /** A call either comes back with a value or panics. */
  datatype Answer<T> = Value(value: T) | Panic

  /** Broken is an element that is not nil itself but holds a nil pointer the message printer trips over. */
  datatype Part = Shown(text: string) | Broken

  /** A message's elements, some of them nil. */
  type Message = seq<Option<Part>>

  /** The message printer, which skips nil elements, gets through. */
  predicate Printable(msg: Message) {
    Some(Broken) !in msg
  }

  /** What a send returns; for a private target the two flags stay down. */
  datatype GroupMessage = GroupMessage(id: int, elements: Message, enforceDropped: bool, migrationHeld: bool)

  function Failed(elements: Message): GroupMessage {
    GroupMessage(-1, elements, false, false)
  }

  /** The outcome Sent stands for no error. */
  datatype SendResp = SendResp(ret: Option<GroupMessage>, queued: bool, outcome: Outcomes.Outcome)

  /** What is installed, and whether the send carries a valid observation trace. */
  datatype Setup = Setup(bot: bool, messenger: bool, enforceHook: bool, migrationHook: bool, forwardHook: bool,
                         deliveryHook: bool, observed: bool)

  datatype Drop = Drop(drop: bool, failed: bool)
  datatype Hold = Hold(held: bool, failed: bool)

  /** How a call of the delivery hook ends: it returns, having carried out its two writes or not, or it panics, before
      or after it reached the ledger, with a row created or not. A write during which the store panics is not done. */
  datatype HookRun = Returned(createOk: bool, moveOk: bool) | Panicked(reached: bool, created: bool)

  /** How everything outside behaves during one attempt. */
  datatype World = World(muted: Answer<bool>, enforce: Answer<Drop>, hold: Answer<Hold>, onSending: HookRun,
                         messenger: Answer<SendResp>, onResult: HookRun, observer: Answer<()>)

  datatype Event =
    | EnforceAsked
    | HoldAsked
    | Delivery(status: DeliveryLedger.Status, code: string, remoteID: string)
    | SentOut(elements: Message)
    | SentPrivately(elements: Message)
    | Forwarded
    | Observed(status: DeliveryLedger.Status, code: string)

  datatype Trace = Trace(events: seq<Event>, outcome: Answer<GroupMessage>)

  // ---- One attempt ----

  function Present(msg: Message): Message {
    if msg == [] then [] else (if msg[0].Some? then [msg[0]] else []) + Present(msg[1..])
  }

  /** callEnforceHook: a panic is a failed hook. */
  function Recovered(answer: Answer<Drop>): Drop {
    if answer.Panic? then Drop(false, true) else answer.value
  }

  predicate Dropped(s: Setup, w: World) {
    s.enforceHook && s.observed && !Recovered(w.enforce).failed && Recovered(w.enforce).drop
  }

  function ObservationSendStatus(resp: SendResp): (DeliveryLedger.Status, string) {
    if (resp.ret.None? || resp.ret.value.id < 0) && !resp.queued && resp.outcome.Sent? then
      (DeliveryLedger.Unknown, "transport_unknown")
    else match Outcomes.StatusOf(resp.outcome, resp.queued)
      case StatusSent => (DeliveryLedger.Sent, "sent")
      case StatusQueued => (DeliveryLedger.Queued, "queued")
      case StatusNotSent => (DeliveryLedger.NotSent, "legacy_not_sent")
      case StatusRejected => (DeliveryLedger.Rejected, "rejected")
      case StatusUnknown => (DeliveryLedger.Unknown, "transport_unknown")
  }

  function RemoteID(resp: SendResp): string {
    if resp.ret.Some? && resp.ret.value.id >= 0 then Decimal.FormatInt(resp.ret.value.id) else ""
  }

  function HookEvents(s: Setup, status: DeliveryLedger.Status, code: string, remoteID: string): seq<Event> {
    if s.deliveryHook && s.observed then [Delivery(status, code, remoteID)] else []
  }

  function Finished(resp: SendResp, elements: Message): GroupMessage {
    if resp.ret.Some? then resp.ret.value else Failed(elements)
  }

  /** From the first delivery hook on: the message is printed before it goes to the Messenger. */
  function SendStage(s: Setup, elements: Message, w: World): Trace {
    var noted := HookEvents(s, DeliveryLedger.Sending, "", "");
    if !Printable(elements) then Trace(noted, Panic) else
    var before := noted + [SentOut(elements)];
    match w.messenger
    case Panic => Trace(before, Panic)
    case Value(resp) =>
      var (status, code) := ObservationSendStatus(resp);
      var after := before + HookEvents(s, status, code, RemoteID(resp));
      if !s.observed then Trace(after, Value(Finished(resp, elements)))
      else Trace(after + [Observed(status, code)],
                 if w.observer.Panic? then Panic else Value(Finished(resp, elements)))
  }

  function HoldStage(s: Setup, elements: Message, w: World): Trace {
    if !s.migrationHook then SendStage(s, elements, w) else
    match w.hold
    case Panic => Trace([HoldAsked], Panic)
    case Value(Hold(held, failed)) =>
      if failed then Trace([HoldAsked], Value(Failed(elements)))
      else if held then
        if !s.observed then Trace([HoldAsked], Value(GroupMessage(0, elements, false, true)))
        else Trace([HoldAsked, Observed(DeliveryLedger.MigrationHeld, "migration_held")],
                   if w.observer.Panic? then Panic else Value(GroupMessage(0, elements, false, true)))
      else
        var rest := SendStage(s, elements, w);
        rest.(events := [HoldAsked] + rest.events)
  }

  function EnforceStage(s: Setup, elements: Message, w: World): Trace {
    if !(s.enforceHook && s.observed) then HoldStage(s, elements, w)
    else if Dropped(s, w) then Trace([EnforceAsked], Value(GroupMessage(0, elements, true, false)))
    else
      var rest := HoldStage(s, elements, w);
      rest.(events := [EnforceAsked] + rest.events)
  }

  function AttemptOf(s: Setup, msg: Option<Message>, w: World): Trace {
    if msg.None? then Trace([], Value(Failed([])))
    else if !s.bot then Trace([], Value(Failed(msg.value)))
    else match w.muted
      case Panic => Trace([], Panic)
      case Value(true) => Trace([], if Printable(msg.value) then Value(Failed(msg.value)) else Panic)
      case Value(false) =>
        var elements := Present(msg.value);
        if elements == [] then
          Trace(HookEvents(s, DeliveryLedger.SkippedEmpty, "empty_message", ""), Value(Failed([])))
        else EnforceStage(s, elements, w)
  }

  /** With the one retry after a panic. The recovery prints the message first, so a message that cannot be printed
      lets the panic escape. The first attempt has already taken the nil elements out. */
  function SendOf(s: Setup, msg: Option<Message>, w: World, again: World): (t: Trace)
    ensures t.outcome.Panic? ==> msg.Some? && !Printable(msg.value)
  {
    var first := AttemptOf(s, msg, w);
    if !Retries(s, msg, w) then first else
    var kept := Retried(msg, w);
    var second := AttemptOf(s, kept, again);
    Trace(first.events + second.events,
          if second.outcome.Value? then second.outcome else Value(Failed(LeftElements(kept, again))))
  }

  /** The first attempt panics, and the recovery gets as far as the second. */
  predicate Retries(s: Setup, msg: Option<Message>, w: World) {
    AttemptOf(s, msg, w).outcome.Panic? && msg.Some? && Printable(msg.value)
  }

  function Retried(msg: Option<Message>, w: World): Option<Message> {
    if msg.Some? then Some(LeftElements(msg, w)) else None
  }

  /** The message's elements as an attempt leaves them. */
  function LeftElements(msg: Option<Message>, w: World): Message {
    if msg.None? then [] else if w.muted == Value(false) then Present(msg.value) else msg.value
  }

  lemma {:induction false} PresentPrintable(msg: Message)
    ensures Printable(Present(msg)) <==> Printable(msg)
  {
    if msg != [] {
      PresentPrintable(msg[1..]);
      assert msg == [msg[0]] + msg[1..];
    }
  }

  // ---- Private targets, forward messages, and lists of messages ----

  datatype Destination = ToGroup | ToPrivate

  /** How many forward nodes a notice's elements hold, and the messages it is cut into for its target. */
  datatype Notice = Notice(nodes: nat, msgs: seq<Option<Message>>)

  /** A private message passes no hook, and nothing recovers its panics. */
  function PrivateOf(s: Setup, msg: Option<Message>, w: World): Trace {
    if msg.None? then Trace([], Value(Failed([])))
    else if !s.bot || !s.messenger then Trace([], Value(Failed(msg.value)))
    else
      var elements := Present(msg.value);
      if elements == [] then Trace([], Value(Failed([])))
      else if !Printable(elements) then Trace([], Panic)
      else Trace([SentPrivately(elements)],
                 if w.messenger.Panic? then Panic else Value(Finished(w.messenger.value, elements)))
  }

  function ForwardStatus(outcome: Outcomes.Outcome): (DeliveryLedger.Status, string) {
    match outcome
    case Sent => (DeliveryLedger.Sent, "sent")
    case NotSent => (DeliveryLedger.NotSent, "legacy_not_sent")
    case Rejected => (DeliveryLedger.Rejected, "rejected")
    case _ => (DeliveryLedger.Unknown, "transport_unknown")
  }

  function ForwardResult(resp: SendResp): GroupMessage {
    if resp.outcome.Sent? && resp.ret.Some? then GroupMessage(resp.ret.value.id, [], false, false) else Failed([])
  }

  function ForwardStage(s: Setup, w: World): Trace {
    var before := HookEvents(s, DeliveryLedger.Sending, "", "") + [Forwarded];
    match w.messenger
    case Panic => Trace(before, Panic)
    case Value(resp) =>
      var (status, code) := ForwardStatus(resp.outcome);
      var after := before + HookEvents(s, status, code, RemoteID(resp));
      if !s.observed then Trace(after, Value(ForwardResult(resp)))
      else Trace(after + [Observed(status, code)], if w.observer.Panic? then Panic else Value(ForwardResult(resp)))
  }

  function ForwardHoldStage(s: Setup, w: World): Trace {
    if !s.forwardHook then ForwardStage(s, w) else
    match w.hold
    case Panic => Trace([HoldAsked], Panic)
    case Value(Hold(held, failed)) =>
      if failed then Trace([HoldAsked], Value(Failed([])))
      else if held then
        if !s.observed then Trace([HoldAsked], Value(GroupMessage(0, [], false, true)))
        else Trace([HoldAsked, Observed(DeliveryLedger.MigrationHeld, "migration_held")],
                   if w.observer.Panic? then Panic else Value(GroupMessage(0, [], false, true)))
      else
        var rest := ForwardStage(s, w);
        rest.(events := [HoldAsked] + rest.events)
  }

  /** A forward message is sent once: nothing recovers a panic, so nothing is tried again. */
  function ForwardOf(s: Setup, target: Destination, w: World): Trace {
    if !s.bot then Trace([], Value(Failed([])))
    else if target.ToPrivate? then
      Trace([Forwarded], if w.messenger.Panic? then Panic else Value(ForwardResult(w.messenger.value)))
    else if !(s.enforceHook && s.observed) then ForwardHoldStage(s, w)
    else if Dropped(s, w) then Trace([EnforceAsked], Value(GroupMessage(0, [], true, false)))
    else
      var rest := ForwardHoldStage(s, w);
      rest.(events := [EnforceAsked] + rest.events)
  }

  function OneOf(s: Setup, target: Destination, msg: Option<Message>, w: World, again: World): Trace {
    if target.ToGroup? then SendOf(s, msg, w, again) else PrivateOf(s, msg, w)
  }

  /** The results gathered message after message until one fails or panics; worlds[k] is what the k-th meets. */
  function ResultsOf(s: Setup, target: Destination, msgs: seq<Option<Message>>, worlds: seq<(World, World)>)
    : seq<GroupMessage>
    requires |worlds| == |msgs|
  {
    if msgs == [] then [Failed([])] else
    match OneOf(s, target, msgs[0], worlds[0].0, worlds[0].1).outcome
    case Panic => []
    case Value(r) => if r.id == -1 || |msgs| == 1 then [r] else [r] + ResultsOf(s, target, msgs[1..], worlds[1..])
  }

  /** A panic escapes from one of the sends. */
  predicate EndsInPanic(s: Setup, target: Destination, msgs: seq<Option<Message>>, worlds: seq<(World, World)>)
    requires |worlds| == |msgs|
  {
    msgs != [] &&
    match OneOf(s, target, msgs[0], worlds[0].0, worlds[0].1).outcome
    case Panic => true
    case Value(r) => r.id != -1 && EndsInPanic(s, target, msgs[1..], worlds[1..])
  }

  function EventsOf(s: Setup, target: Destination, msgs: seq<Option<Message>>, worlds: seq<(World, World)>): seq<Event>
    requires |worlds| == |msgs|
  {
    if msgs == [] then [] else
    var t := OneOf(s, target, msgs[0], worlds[0].0, worlds[0].1);
    if t.outcome.Panic? || t.outcome.value.id == -1 || |msgs| == 1 then t.events
    else t.events + EventsOf(s, target, msgs[1..], worlds[1..])
  }

  /** Everything a notice gives rise to: its results, unless a panic escapes, and its events. */
  function NoticeOf(s: Setup, target: Destination, notice: Option<Notice>, worlds: seq<(World, World)>, forward: World)
    : (Answer<seq<GroupMessage>>, seq<Event>)
    requires notice.Some? ==> |worlds| == |notice.value.msgs|
  {
    if notice.None? then (Value([Failed([])]), [])
    else if notice.value.nodes > 0 then
      var t := ForwardOf(s, target, forward);
      (if t.outcome.Panic? then Panic else Value([t.outcome.value]), t.events)
    else
      var msgs := notice.value.msgs;
      (if EndsInPanic(s, target, msgs, worlds) then Panic else Value(ResultsOf(s, target, msgs, worlds)),
       EventsOf(s, target, msgs, worlds))
  }

  // ---- The calls themselves ----

  class Sender {
    const setup: Setup
    var log: seq<Event>
    var elements: Message

    constructor (setup: Setup)
      ensures this.setup == setup && log == []
    {
      this.setup := setup;
      log, elements := [], [];
    }

    method CallEnforceHook(answer: Answer<Drop>) returns (drop: Drop)
      modifies this`log
      ensures log == old(log) + [EnforceAsked] && drop == Recovered(answer)
    {
      log := log + [EnforceAsked];
      match answer {
        case Panic => drop := Drop(false, true);
        case Value(d) => drop := d;
      }
    }

    method CallDeliveryHook(status: DeliveryLedger.Status, code: string, remoteID: string, run: HookRun)
      modifies this`log
      ensures log == old(log) + HookEvents(setup, status, code, remoteID)
    {
      if setup.deliveryHook && setup.observed {
        log := log + [Delivery(status, code, remoteID)];
        match run {
          case Returned(_, _) =>
          case Panicked(_, _) =>
        }
      }
    }

    /** lo.Filter over the message's elements, kept in the message itself. */
    method DropNil()
      modifies this`elements
      ensures elements == Present(old(elements))
    {
      var kept: Message := [];
      for i := 0 to |elements|
        invariant elements == old(elements)
        invariant kept + Present(elements[i..]) == Present(elements)
      {
        if elements[i].Some? {
          ConcatAssociates(kept, [elements[i]], Present(elements[i + 1..]));
          kept := kept + [elements[i]];
        } else {
          assert [] + Present(elements[i + 1..]) == Present(elements[i + 1..]);
        }
      }
      elements := kept;
    }

    method SendThroughMessenger(w: World) returns (res: Answer<GroupMessage>)
      modifies this`log
      ensures res == SendStage(setup, elements, w).outcome
      ensures log == old(log) + SendStage(setup, elements, w).events
    {
      CallDeliveryHook(DeliveryLedger.Sending, "", "", w.onSending);
      if !Printable(elements) {
        return Panic;
      }
      log := log + [SentOut(elements)];
      match w.messenger {
        case Panic => return Panic;
        case Value(resp) =>
          var (status, code) := ObservationSendStatus(resp);
          CallDeliveryHook(status, code, RemoteID(resp), w.onResult);
          if setup.observed {
            log := log + [Observed(status, code)];
            if w.observer.Panic? {
              return Panic;
            }
          }
          res := Value(if resp.ret.Some? then resp.ret.value else Failed(elements));
      }
    }

    method Hooked(w: World) returns (res: Answer<GroupMessage>)
      modifies this`log
      ensures res == EnforceStage(setup, elements, w).outcome
      ensures log == old(log) + EnforceStage(setup, elements, w).events
    {
      hide SendStage, HookEvents;
      if setup.enforceHook && setup.observed {
        var d := CallEnforceHook(w.enforce);
        if !d.failed && d.drop {
          return Value(GroupMessage(0, elements, true, false));
        }
      }
      if setup.migrationHook {
        log := log + [HoldAsked];
        match w.hold {
          case Panic => return Panic;
          case Value(Hold(held, failed)) =>
            if failed {
              return Value(Failed(elements));
            }
            if held {
              if setup.observed {
                log := log + [Observed(DeliveryLedger.MigrationHeld, "migration_held")];
                if w.observer.Panic? {
                  return Panic;
                }
              }
              return Value(GroupMessage(0, elements, false, true));
            }
        }
      }
      res := SendThroughMessenger(w);
    }

    method Attempt(msg: Option<Message>, w: World) returns (res: Answer<GroupMessage>)
      modifies this
      ensures res == AttemptOf(setup, msg, w).outcome
      ensures log == old(log) + AttemptOf(setup, msg, w).events
      ensures res.Panic? ==> elements == LeftElements(msg, w)
    {
      hide EnforceStage;
      elements := if msg.Some? then msg.value else [];
      if msg.None? {
        return Value(Failed([]));
      }
      if !setup.bot {
        return Value(Failed(elements));
      }
      match w.muted {
        case Panic => return Panic;
        case Value(muted) =>
          if muted {
            return if Printable(elements) then Value(Failed(elements)) else Panic;
          }
      }
      DropNil();
      if |elements| == 0 {
        CallDeliveryHook(DeliveryLedger.SkippedEmpty, "empty_message", "", w.onResult);
        return Value(Failed([]));
      }
      res := Hooked(w);
    }

    method SendGroupMessageObserved(msg: Option<Message>, w: World, again: World) returns (res: Answer<GroupMessage>)
      modifies this
      ensures res == SendOf(setup, msg, w, again).outcome
      ensures log == old(log) + SendOf(setup, msg, w, again).events
    {
      hide AttemptOf;
      var first := Attempt(msg, w);
      if first.Value? {
        return first;
      }
      if msg.Some? { PresentPrintable(msg.value); }
      if msg.None? || !Printable(elements) {
        return Panic;
      }
      var kept := Some(elements);
      var second := Attempt(kept, again);
      ConcatAssociates(old(log), AttemptOf(setup, msg, w).events, AttemptOf(setup, kept, again).events);
      res := if second.Value? then second else Value(Failed(elements));
    }

    method SendPrivateMessage(msg: Option<Message>, w: World) returns (res: Answer<GroupMessage>)
      modifies this
      ensures res == PrivateOf(setup, msg, w).outcome
      ensures log == old(log) + PrivateOf(setup, msg, w).events
    {
      elements := if msg.Some? then msg.value else [];
      if msg.None? {
        return Value(Failed([]));
      }
      if !setup.bot || !setup.messenger {
        return Value(Failed(elements));
      }
      DropNil();
      if |elements| == 0 {
        return Value(Failed([]));
      }
      if !Printable(elements) {
        return Panic;
      }
      log := log + [SentPrivately(elements)];
      match w.messenger {
        case Panic => return Panic;
        case Value(resp) => res := Value(Finished(resp, elements));
      }
    }

    method ForwardThroughMessenger(w: World) returns (res: Answer<GroupMessage>)
      modifies this`log
      ensures res == ForwardStage(setup, w).outcome
      ensures log == old(log) + ForwardStage(setup, w).events
    {
      CallDeliveryHook(DeliveryLedger.Sending, "", "", w.onSending);
      log := log + [Forwarded];
      match w.messenger {
        case Panic => return Panic;
        case Value(resp) =>
          var (status, code) := ForwardStatus(resp.outcome);
          CallDeliveryHook(status, code, RemoteID(resp), w.onResult);
          if setup.observed {
            log := log + [Observed(status, code)];
            if w.observer.Panic? {
              return Panic;
            }
          }
          res := Value(ForwardResult(resp));
      }
    }

    method SendForward(target: Destination, w: World) returns (res: Answer<GroupMessage>)
      modifies this`log
      ensures res == ForwardOf(setup, target, w).outcome
      ensures log == old(log) + ForwardOf(setup, target, w).events
    {
      hide ForwardStage;
      if !setup.bot {
        return Value(Failed([]));
      }
      if target.ToPrivate? {
        log := log + [Forwarded];
        match w.messenger {
          case Panic => return Panic;
          case Value(resp) => return Value(ForwardResult(resp));
        }
      }
      if setup.enforceHook && setup.observed {
        var d := CallEnforceHook(w.enforce);
        if !d.failed && d.drop {
          return Value(GroupMessage(0, [], true, false));
        }
      }
      if setup.forwardHook {
        log := log + [HoldAsked];
        match w.hold {
          case Panic => return Panic;
          case Value(Hold(held, failed)) =>
            if failed {
              return Value(Failed([]));
            }
            if held {
              if setup.observed {
                log := log + [Observed(DeliveryLedger.MigrationHeld, "migration_held")];
                if w.observer.Panic? {
                  return Panic;
                }
              }
              return Value(GroupMessage(0, [], false, true));
            }
        }
      }
      res := ForwardThroughMessenger(w);
    }

    method SendOne(target: Destination, msg: Option<Message>, w: World, again: World)
      returns (res: Answer<GroupMessage>)
      modifies this
      ensures res == OneOf(setup, target, msg, w, again).outcome
      ensures log == old(log) + OneOf(setup, target, msg, w, again).events
    {
      hide SendOf, PrivateOf;
      if target.ToGroup? {
        res := SendGroupMessageObserved(msg, w, again);
      } else {
        res := SendPrivateMessage(msg, w);
      }
    }

    /** Sends message after message until one fails. */
    method SendList(target: Destination, msgs: seq<Option<Message>>, worlds: seq<(World, World)>)
      returns (res: Answer<seq<GroupMessage>>)
      requires |worlds| == |msgs|
      modifies this
      ensures res ==
        if EndsInPanic(setup, target, msgs, worlds) then Panic else Value(ResultsOf(setup, target, msgs, worlds))
      ensures log == old(log) + EventsOf(setup, target, msgs, worlds)
    {
      if |msgs| == 0 {
        return Value([Failed([])]);
      }
      hide OneOf, ResultsOf, EventsOf, EndsInPanic;
      var done: seq<GroupMessage> := [];
      assert msgs[0..] == msgs && worlds[0..] == worlds;
      for idx := 0 to |msgs|
        invariant |done| == idx
        invariant idx < |msgs| ==>
          ResultsOf(setup, target, msgs, worlds) == done + ResultsOf(setup, target, msgs[idx..], worlds[idx..])
        invariant idx < |msgs| ==>
          old(log) + EventsOf(setup, target, msgs, worlds) == log + EventsOf(setup, target, msgs[idx..], worlds[idx..])
        invariant idx < |msgs| ==>
          (EndsInPanic(setup, target, msgs, worlds) <==> EndsInPanic(setup, target, msgs[idx..], worlds[idx..]))
        invariant idx == |msgs| ==> !EndsInPanic(setup, target, msgs, worlds)
        invariant idx == |msgs| ==>
          done == ResultsOf(setup, target, msgs, worlds) && log == old(log) + EventsOf(setup, target, msgs, worlds)
      {
        ghost var before := log;
        ListStep(setup, target, msgs, worlds, idx);
        var r := SendOne(target, msgs[idx], worlds[idx].0, worlds[idx].1);
        if idx + 1 < |msgs| {
          ghost var rest, restWorlds := msgs[idx + 1..], worlds[idx + 1..];
          ConcatAssociates(done, if r.Panic? then [] else [r.value], ResultsOf(setup, target, rest, restWorlds));
          ConcatAssociates(before, log[|before|..], EventsOf(setup, target, rest, restWorlds));
        }
        if r.Panic? {
          return Panic;
        }
        done := done + [r.value];
        if r.value.id == -1 {
          return Value(done);
        }
      }
      res := Value(done);
    }

    /** A notice that holds forward nodes is forwarded; any other is sent message after message. */
    method SendMsgObserved(target: Destination, notice: Option<Notice>, worlds: seq<(World, World)>, forward: World)
      returns (res: Answer<seq<GroupMessage>>)
      requires notice.Some? ==> |worlds| == |notice.value.msgs|
      modifies this
      ensures res == NoticeOf(setup, target, notice, worlds, forward).0
      ensures log == old(log) + NoticeOf(setup, target, notice, worlds, forward).1
    {
      hide ForwardOf, ResultsOf, EventsOf, EndsInPanic;
      if notice.None? {
        return Value([Failed([])]);
      }
      if notice.value.nodes > 0 {
        var r := SendForward(target, forward);
        return if r.Panic? then Panic else Value([r.value]);
      }
      res := SendList(target, notice.value.msgs, worlds);
    }
  }

  /** The first message of the rest, and what comes after it. */
  lemma ListStep(s: Setup, target: Destination, msgs: seq<Option<Message>>, worlds: seq<(World, World)>, idx: nat)
    requires |worlds| == |msgs| && idx < |msgs|
    ensures
      var t := OneOf(s, target, msgs[idx], worlds[idx].0, worlds[idx].1);
      var rest, restWorlds := msgs[idx + 1..], worlds[idx + 1..];
      var stops := t.outcome.Panic? || t.outcome.value.id == -1 || idx + 1 == |msgs|;
      var result := if t.outcome.Panic? then [] else [t.outcome.value];
      && ResultsOf(s, target, msgs[idx..], worlds[idx..])
         == (if stops then result else result + ResultsOf(s, target, rest, restWorlds))
      && EventsOf(s, target, msgs[idx..], worlds[idx..])
         == (if stops then t.events else t.events + EventsOf(s, target, rest, restWorlds))
      && (EndsInPanic(s, target, msgs[idx..], worlds[idx..]) <==>
           t.outcome.Panic? || (!stops && EndsInPanic(s, target, rest, restWorlds)))
  {
    hide OneOf;
    var now, nowWorlds := msgs[idx..], worlds[idx..];
    assert now[0] == msgs[idx] && nowWorlds[0] == worlds[idx];
    assert now[1..] == msgs[idx + 1..] && nowWorlds[1..] == worlds[idx + 1..];
  }
}
