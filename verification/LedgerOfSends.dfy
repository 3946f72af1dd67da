/** The delivery rows of many sends that overlap (lsp/module.go with admin/server.go). */
module LedgerOfSends {
  import opened Common
  import opened DeliveryLedger
  import opened SendPipeline
  import PipelineGuarantees

  /** The code that is recorded with a result. */
  function CodeOf(status: Status): string {
    match status
    case Sent => "sent"
    case Queued => "queued"
    case NotSent => "legacy_not_sent"
    case Rejected => "rejected"
    case _ => "transport_unknown"
  }

  /** The status a send ends in is one the repository accepts after sending; sent needs a message id as evidence. */
  lemma {:induction false} StatusIsEvidence(resp: SendResp)
    ensures ObservationSendStatus(resp).0 in {Sent, Queued, NotSent, Rejected, Unknown}
    ensures ValidTransition(Sending, ObservationSendStatus(resp).0)
    ensures ObservationSendStatus(resp).0 == Sent <==>
      !resp.queued && resp.outcome.Sent? && resp.ret.Some? && resp.ret.value.id >= 0
    ensures ObservationSendStatus(resp).0 == Sent ==> RemoteID(resp) != ""
    ensures ObservationSendStatus(resp).0 == Queued <==> resp.queued
    ensures ObservationSendStatus(resp).0 == NotSent <==> !resp.queued && resp.outcome.NotSent?
    ensures ObservationSendStatus(resp).0 == Rejected <==> !resp.queued && resp.outcome.Rejected?
    ensures ObservationSendStatus(resp).1 == CodeOf(ObservationSendStatus(resp).0)
  {
  }

  // ---- The ledger calls of one attempt ----

  /** What a run of the delivery hook does to the ledger: a panic undoes nothing and does nothing further. */
  function HookCall(run: HookRun, route: Route, status: Status): Call {
    match run
    case Returned(createOk, moveOk) => Call(true, route, status, createOk, moveOk)
    case Panicked(reached, created) => Call(reached, route, status, created, false)
  }

  function CallOf(e: Event, w: World, route: Route): seq<Call> {
    if !e.Delivery? then []
    else [HookCall(if e.status == Sending then w.onSending else w.onResult, route, e.status)]
  }

  /** The hook calls among an attempt's events, as its world lets them end. */
  function CallsOf(events: seq<Event>, w: World, route: Route): seq<Call> {
    if events == [] then [] else CallOf(events[0], w, route) + CallsOf(events[1..], w, route)
  }

  lemma {:induction false} CallsConcat(a: seq<Event>, b: seq<Event>, w: World, route: Route)
    ensures CallsOf(a + b, w, route) == CallsOf(a, w, route) + CallsOf(b, w, route)
  {
    hide CallOf;
    if a == [] {
      assert a + b == b;
    } else {
      assert (a + b)[1..] == a[1..] + b;
      CallsConcat(a[1..], b, w, route);
      ConcatAssociates(CallOf(a[0], w, route), CallsOf(a[1..], w, route), CallsOf(b, w, route));
    }
  }

  lemma CallsOfOne(e: Event, w: World, route: Route)
    ensures CallsOf([e], w, route) == CallOf(e, w, route)
  {
    assert [e][1..] == [];
    assert CallOf(e, w, route) + [] == CallOf(e, w, route);
  }

  predicate Notes(s: Setup) {
    s.deliveryHook && s.observed
  }

  lemma CallsOfNoted(s: Setup, status: Status, code: string, remoteID: string, w: World, route: Route)
    ensures CallsOf(HookEvents(s, status, code, remoteID), w, route) ==
      if Notes(s) then CallOf(Delivery(status, code, remoteID), w, route) else []
  {
    hide CallOf;
    CallsOfOne(Delivery(status, code, remoteID), w, route);
  }

  /** The attempt comes to the first delivery hook. */
  predicate Enters(s: Setup, msg: Option<Message>, w: World) {
    PipelineGuarantees.Reached(s, msg, w) && !Dropped(s, w) && PipelineGuarantees.LetThrough(s, w)
  }

  /** From there it comes to the second. */
  predicate Ends(msg: Message, w: World) {
    Printable(msg) && w.messenger.Value?
  }

  function Opening(w: World, route: Route): seq<Call> {
    [HookCall(w.onSending, route, Sending)]
  }

  function Closing(msg: Message, w: World, route: Route): seq<Call> {
    if Ends(msg, w) then [HookCall(w.onResult, route, ObservationSendStatus(w.messenger.value).0)] else []
  }

  predicate SkipsEmpty(s: Setup, msg: Option<Message>, w: World) {
    msg.Some? && s.bot && w.muted == Value(false) && Present(msg.value) == []
  }

  /** The hook calls of an attempt: none, one that skips, or an opening and, if the Messenger returns, a closing. */
  function AttemptCalls(s: Setup, msg: Option<Message>, w: World, route: Route): seq<Call> {
    if !Notes(s) then []
    else if SkipsEmpty(s, msg, w) then [HookCall(w.onResult, route, SkippedEmpty)]
    else if Enters(s, msg, w) then Opening(w, route) + Closing(msg.value, w, route)
    else []
  }

  lemma SendStageCalls(s: Setup, elements: Message, w: World, route: Route)
    ensures CallsOf(SendStage(s, elements, w).events, w, route)
         == if Notes(s) then Opening(w, route) + Closing(elements, w, route) else []
  {
    hide HookEvents, ObservationSendStatus, RemoteID, CallsOf, HookCall;
    var first := HookEvents(s, Sending, "", "");
    var sent := [SentOut(elements)];
    var none: seq<Call> := [];
    CallsOfOne(SentOut(elements), w, route);
    CallsOfNoted(s, Sending, "", "", w, route);
    CallsConcat(first, sent, w, route);
    assert none + none == none && Opening(w, route) + none == Opening(w, route);
    if Ends(elements, w) {
      var resp := w.messenger.value;
      var (status, code) := ObservationSendStatus(resp);
      var last := HookEvents(s, status, code, RemoteID(resp));
      StatusIsEvidence(resp);
      CallsOfOne(Observed(status, code), w, route);
      CallsOfNoted(s, status, code, RemoteID(resp), w, route);
      CallsConcat(first + sent, last, w, route);
      CallsConcat(first + sent + last, [Observed(status, code)], w, route);
      var both := Opening(w, route) + Closing(elements, w, route);
      assert both + none == both;
    }
  }

  lemma HoldStageCalls(s: Setup, elements: Message, w: World, route: Route)
    ensures CallsOf(HoldStage(s, elements, w).events, w, route)
         == if Notes(s) && PipelineGuarantees.LetThrough(s, w)
            then Opening(w, route) + Closing(elements, w, route) else []
  {
    hide SendStage, CallsOf, Opening, Closing;
    SendStageCalls(s, elements, w, route);
    CallsOfOne(HoldAsked, w, route);
    CallsOfOne(Observed(MigrationHeld, "migration_held"), w, route);
    CallsConcat([HoldAsked], SendStage(s, elements, w).events, w, route);
    var rest := CallsOf(SendStage(s, elements, w).events, w, route);
    assert [] + rest == rest;
    CallsConcat([HoldAsked], [Observed(MigrationHeld, "migration_held")], w, route);
    assert [HoldAsked] + [Observed(MigrationHeld, "migration_held")]
        == [HoldAsked, Observed(MigrationHeld, "migration_held")];
  }

  lemma ClosingOfPresent(msg: Message, w: World, route: Route)
    ensures Closing(Present(msg), w, route) == Closing(msg, w, route)
  {
    hide ObservationSendStatus, HookCall;
    PresentPrintable(msg);
  }

  /** The events of an attempt hold exactly these hook calls. */
  lemma {:induction false} AttemptMakesCalls(s: Setup, msg: Option<Message>, w: World, route: Route)
    ensures CallsOf(AttemptOf(s, msg, w).events, w, route) == AttemptCalls(s, msg, w, route)
  {
    hide HookEvents, HoldStage, Dropped, PipelineGuarantees.LetThrough, Opening, Closing, HookCall;
    CallsOfNoted(s, SkippedEmpty, "empty_message", "", w, route);
    if PipelineGuarantees.Reached(s, msg, w) {
      var elements := Present(msg.value);
      var stage := HoldStage(s, elements, w).events;
      ClosingOfPresent(msg.value, w, route);
      HoldStageCalls(s, elements, w, route);
      PipelineGuarantees.DroppedNeedsHook(s, w);
      CallsConcat([EnforceAsked], stage, w, route);
      CallsOfOne(EnforceAsked, w, route);
      assert [] + CallsOf(stage, w, route) == CallsOf(stage, w, route);
    }
  }

  /** One send: what is installed, its message, the worlds its attempts meet, and its route. */
  datatype Send = Send(setup: Setup, msg: Option<Message>, w: World, again: World, route: Route)

  predicate Repeats(x: Send) {
    Retries(x.setup, x.msg, x.w)
  }

  function FirstCalls(x: Send): seq<Call> {
    AttemptCalls(x.setup, x.msg, x.w, x.route)
  }

  function SecondCalls(x: Send): seq<Call> {
    if Repeats(x) then AttemptCalls(x.setup, Retried(x.msg, x.w), x.again, x.route) else []
  }

  function SendCalls(x: Send): seq<Call> {
    FirstCalls(x) + SecondCalls(x)
  }

  /** These are the hook calls among the events of the send, each ended as its attempt's world says. */
  lemma {:induction false} SendMakesCalls(x: Send)
    ensures
      var first := AttemptOf(x.setup, x.msg, x.w).events;
      var events := SendOf(x.setup, x.msg, x.w, x.again).events;
      && first <= events
      && SendCalls(x) == CallsOf(first, x.w, x.route) + CallsOf(events[|first|..], x.again, x.route)
  {
    hide AttemptOf, AttemptCalls, CallsOf;
    AttemptMakesCalls(x.setup, x.msg, x.w, x.route);
    AttemptMakesCalls(x.setup, Retried(x.msg, x.w), x.again, x.route);
    NoCalls(x.again, x.route);
    var first := AttemptOf(x.setup, x.msg, x.w).events;
    if Repeats(x) {
      var second := AttemptOf(x.setup, Retried(x.msg, x.w), x.again).events;
      assert (first + second)[|first|..] == second;
    } else {
      assert first[|first|..] == [];
    }
  }

  lemma NoCalls(w: World, route: Route)
    ensures CallsOf([], w, route) == []
  {
  }

  // ---- When an attempt leaves the ledger clean ----

  predicate Opened(s: Setup, msg: Option<Message>, w: World) {
    Notes(s) && Enters(s, msg, w) && w.onSending == Returned(true, true)
  }

  /** Its closing call gets as far as the queue. */
  predicate PopsRow(s: Setup, msg: Option<Message>, w: World) {
    Notes(s) && Enters(s, msg, w) && Ends(msg.value, w) && (w.onResult.Returned? || w.onResult.reached)
  }

  /** And rewrites the row it takes from it. */
  predicate PopWrites(w: World) {
    w.onResult.Returned? && w.onResult.moveOk
  }

  /** A row it opens is followed by its closing call, and its closing call is carried out. */
  predicate Clean(s: Setup, msg: Option<Message>, w: World) {
    (Opened(s, msg, w) ==> PopsRow(s, msg, w)) && (PopsRow(s, msg, w) ==> PopWrites(w))
  }

  predicate OpeningWorks(s: Setup, msg: Option<Message>, w: World) {
    Notes(s) && Enters(s, msg, w) ==> w.onSending == Returned(true, true)
  }

  /** What one attempt's calls add to the balance of a route. */
  lemma AttemptWeights(s: Setup, msg: Option<Message>, w: World, route: Route, other: Route)
    ensures
      var calls := AttemptCalls(s, msg, w, route);
      && |calls| <= 2
      && (|calls| >= 1 ==> Weight(calls[0], other) == (if Opened(s, msg, w) && route == other then 1 else 0))
      && (|calls| == 2 ==> Weight(calls[1], other) == (if PopsRow(s, msg, w) && route == other then -1 else 0))
      && (PopsRow(s, msg, w) ==> |calls| == 2) && (Opened(s, msg, w) ==> |calls| >= 1)
  {
    hide Enters, ObservationSendStatus;
    EntersIsReached(s, msg, w);
    if Notes(s) && Enters(s, msg, w) && Ends(msg.value, w) { StatusIsEvidence(w.messenger.value); }
  }

  lemma EntersIsReached(s: Setup, msg: Option<Message>, w: World)
    ensures Enters(s, msg, w) ==> msg.Some? && !SkipsEmpty(s, msg, w)
  {
  }

  lemma AttemptWritten(s: Setup, msg: Option<Message>, w: World, route: Route)
    ensures Written(AttemptCalls(s, msg, w, route)) <==> (PopsRow(s, msg, w) ==> PopWrites(w))
  {
    hide Enters, ObservationSendStatus;
    EntersIsReached(s, msg, w);
    var calls := AttemptCalls(s, msg, w, route);
    if Notes(s) && Enters(s, msg, w) && Ends(msg.value, w) {
      StatusIsEvidence(w.messenger.value);
      assert calls[1] == HookCall(w.onResult, route, ObservationSendStatus(w.messenger.value).0);
    }
  }

  // ---- Properties of call lists that sends and interleavings keep ----

  ghost predicate Ahead(calls: seq<Call>) {
    forall route :: NeverAhead(calls, route)
  }

  ghost predicate Settled(calls: seq<Call>) {
    forall route :: NeverBehind(calls, route)
  }

  ghost predicate AllClosed(calls: seq<Call>) {
    forall route :: ClosedOn(calls, route)
  }

  lemma BalanceTwo(c: Call, d: Call, route: Route)
    ensures Balance([c, d], route) == Weight(c, route) + Weight(d, route)
    ensures Balance([c], route) == Weight(c, route)
    ensures Balance([], route) == 0
    ensures [c, d][..0] == []
    ensures [c, d][..1] == [c]
    ensures [c, d][..2] == [c, d]
    ensures [c, d][0..] == [c, d]
    ensures [c, d][1..] == [d]
    ensures [c, d][2..] == []
    ensures [c][..0] == []
    ensures [c][..1] == [c]
    ensures [c][0..] == [c]
    ensures [c][1..] == []
  {
    hide Weight;
    assert [c, d][..1] == [c];
    BalanceConcat([c], [d], route);
    assert [c] + [d] == [c, d];
  }

  lemma ShortList(calls: seq<Call>)
    requires |calls| <= 2
    ensures calls == [] || calls == [calls[0]] || calls == [calls[0], calls[1]]
  {
  }

  lemma AttemptOn(s: Setup, msg: Option<Message>, w: World, route: Route, other: Route)
    ensures
      var calls := AttemptCalls(s, msg, w, route);
      var began, popped := Opened(s, msg, w) && route == other, PopsRow(s, msg, w) && route == other;
      && Balance(calls, other) == (if began then 1 else 0) - (if popped then 1 else 0)
      && ((popped ==> began) ==> NeverAhead(calls, other))
      && ((began ==> popped) ==> NeverBehind(calls, other))
  {
    hide AttemptCalls, Opened, PopsRow, Balance, Weight;
    AttemptWeights(s, msg, w, route, other);
    var calls := AttemptCalls(s, msg, w, route);
    ShortList(calls);
    if |calls| == 2 {
      BalanceTwo(calls[0], calls[1], other);
      BalanceTwo(calls[1], calls[1], other);
    } else if |calls| == 1 {
      BalanceTwo(calls[0], calls[0], other);
    } else {
      BalanceEmpty(other);
    }
  }

  lemma BalanceEmpty(route: Route)
    ensures Balance([], route) == 0
    ensures NeverAhead([], route) && NeverBehind([], route)
  {
    var none: seq<Call> := [];
    assert none[..0] == none && none[0..] == none;
  }

  lemma {:induction false} AttemptClean(s: Setup, msg: Option<Message>, w: World, route: Route)
    ensures var calls := AttemptCalls(s, msg, w, route);
      && (Clean(s, msg, w) ==> Settled(calls) && Written(calls))
      && (OpeningWorks(s, msg, w) ==> Ahead(calls) && (Written(calls) && AllClosed(calls) <==> Clean(s, msg, w)))
  {
    hide AttemptCalls, Enters, Ends, PopWrites, NeverAhead, NeverBehind, Balance, Written;
    var calls := AttemptCalls(s, msg, w, route);
    AttemptWritten(s, msg, w, route);
    forall other
      ensures Balance(calls, other) ==
        (if Opened(s, msg, w) && route == other then 1 else 0) - (if PopsRow(s, msg, w) && route == other then 1 else 0)
      ensures (PopsRow(s, msg, w) && route == other ==> Opened(s, msg, w)) ==> NeverAhead(calls, other)
      ensures (Opened(s, msg, w) && route == other ==> PopsRow(s, msg, w)) ==> NeverBehind(calls, other)
    {
      AttemptOn(s, msg, w, route, other);
    }
    if AllClosed(calls) { assert ClosedOn(calls, route); }
  }

  lemma {:induction false} AheadConcat(a: seq<Call>, b: seq<Call>)
    requires Ahead(a) && Ahead(b)
    ensures Ahead(a + b)
  {
    hide Balance;
    forall route ensures NeverAhead(a + b, route) {
      assert NeverAhead(a, route) && NeverAhead(b, route);
      assert a[..|a|] == a;
      forall n | 0 <= n <= |a + b| ensures Balance((a + b)[..n], route) >= 0 {
        if n <= |a| {
          assert (a + b)[..n] == a[..n];
        } else {
          assert (a + b)[..n] == a + b[..n - |a|];
          BalanceConcat(a, b[..n - |a|], route);
        }
      }
    }
  }

  lemma {:induction false} SettledConcat(a: seq<Call>, b: seq<Call>)
    requires Settled(a) && Settled(b)
    ensures Settled(a + b)
  {
    hide Balance;
    forall route ensures NeverBehind(a + b, route) {
      assert NeverBehind(a, route) && NeverBehind(b, route);
      assert b[0..] == b;
      forall n | 0 <= n <= |a + b| ensures Balance((a + b)[n..], route) <= 0 {
        if n <= |a| {
          assert (a + b)[n..] == a[n..] + b;
          BalanceConcat(a[n..], b, route);
        } else {
          assert (a + b)[n..] == b[n - |a|..];
        }
      }
    }
  }

  lemma {:induction false} WrittenConcat(a: seq<Call>, b: seq<Call>)
    ensures Written(a + b) <==> Written(a) && Written(b)
  {
    hide ClosingStatus;
    if Written(a + b) {
      forall k | 0 <= k < |a| && Closes(a[k]) ensures ClosingStatus(a[k]) != Sending { assert (a + b)[k] == a[k]; }
      forall k | 0 <= k < |b| && Closes(b[k]) ensures ClosingStatus(b[k]) != Sending {
        assert (a + b)[|a| + k] == b[k];
      }
    }
  }

  lemma {:induction false} AllClosedConcat(a: seq<Call>, b: seq<Call>)
    requires Ahead(a) && Ahead(b)
    ensures AllClosed(a + b) <==> AllClosed(a) && AllClosed(b)
  {
    hide Balance;
    forall route
      ensures Balance(a + b, route) == Balance(a, route) + Balance(b, route)
      ensures Balance(a, route) >= 0 && Balance(b, route) >= 0
    {
      BalanceConcat(a, b, route);
      assert NeverAhead(a, route) && NeverAhead(b, route);
      assert a[..|a|] == a && b[..|b|] == b;
    }
    if AllClosed(a + b) {
      forall route ensures ClosedOn(a, route) && ClosedOn(b, route) { assert ClosedOn(a + b, route); }
    }
    if AllClosed(a) && AllClosed(b) {
      forall route ensures ClosedOn(a + b, route) { assert ClosedOn(a, route) && ClosedOn(b, route); }
    }
  }

  // ---- One send ----

  /** Every attempt of the send leaves the ledger clean. */
  predicate CleanSend(x: Send) {
    && Clean(x.setup, x.msg, x.w)
    && (Repeats(x) ==> Clean(x.setup, Retried(x.msg, x.w), x.again))
  }

  predicate OpeningsWork(x: Send) {
    && OpeningWorks(x.setup, x.msg, x.w)
    && (Repeats(x) ==> OpeningWorks(x.setup, Retried(x.msg, x.w), x.again))
  }

  lemma NoCallsAreClean()
    ensures Settled([]) && Ahead([]) && Written([]) && AllClosed([])
  {
    hide Balance, NeverAhead, NeverBehind;
    forall route ensures NeverAhead([], route) && NeverBehind([], route) && ClosedOn([], route) { BalanceEmpty(route); }
  }

  /** A clean send is settled and written; if its openings work, it is closed and written only then. */
  lemma {:induction false} SendIsClean(x: Send)
    ensures CleanSend(x) ==> Settled(SendCalls(x)) && Written(SendCalls(x))
    ensures OpeningsWork(x) ==>
      Ahead(SendCalls(x)) && (Written(SendCalls(x)) && AllClosed(SendCalls(x)) <==> CleanSend(x))
  {
    hide AttemptCalls, Clean, OpeningWorks, Repeats, Settled, Ahead, Written, AllClosed;
    AttemptClean(x.setup, x.msg, x.w, x.route);
    AttemptClean(x.setup, Retried(x.msg, x.w), x.again, x.route);
    NoCallsAreClean();
    var a, b := FirstCalls(x), SecondCalls(x);
    WrittenConcat(a, b);
    if CleanSend(x) { SettledConcat(a, b); }
    if OpeningsWork(x) {
      AheadConcat(a, b);
      AllClosedConcat(a, b);
    }
  }

  /** The attempt opens a row and does not rewrite one. */
  predicate Leaves(s: Setup, msg: Option<Message>, w: World) {
    Opened(s, msg, w) && !(PopsRow(s, msg, w) && PopWrites(w))
  }

  /** The retry cannot open a row of its own, and closes the one the first attempt left waiting. */
  predicate Rescues(x: Send) {
    && Opened(x.setup, x.msg, x.w) && !PopsRow(x.setup, x.msg, x.w) && Repeats(x)
    && var kept := Retried(x.msg, x.w);
       !Opened(x.setup, kept, x.again) && PopsRow(x.setup, kept, x.again) && PopWrites(x.again)
  }

  /** How many rows wait after an attempt, and whether one was taken out unwritten. */
  function AfterAttempt(waiting: nat, stuck: bool, s: Setup, msg: Option<Message>, w: World): (nat, bool) {
    var now := waiting + if Opened(s, msg, w) then 1 else 0;
    if PopsRow(s, msg, w) && now > 0 then (now - 1, stuck || !PopWrites(w)) else (now, stuck)
  }

  lemma DepthSnoc(calls: seq<Call>, c: Call, route: Route)
    ensures Depth(calls + [c], route) ==
      (if Weight(c, route) == 1 then Depth(calls, route) + 1
       else if Weight(c, route) == -1 && Depth(calls, route) > 0 then Depth(calls, route) - 1
       else Depth(calls, route))
    ensures Stuck(calls + [c], route) <==>
      Stuck(calls, route) || (Fails(c, route) && Depth(calls, route) > 0)
  {
    hide ClosingStatus, Weight;
    WeightOf(c, route);
    assert (calls + [c])[..|calls|] == calls;
  }

  lemma {:induction false} AfterAttemptCalls(calls: seq<Call>, s: Setup, msg: Option<Message>, w: World, route: Route,
                                             other: Route)
    ensures
      var all := calls + AttemptCalls(s, msg, w, route);
      var (waiting, stuck) := AfterAttempt(Depth(calls, route), Stuck(calls, route), s, msg, w);
      && Depth(all, route) == waiting && (Stuck(all, route) <==> stuck)
      && (other != route ==> Depth(all, other) == Depth(calls, other) && (Stuck(all, other) <==> Stuck(calls, other)))
  {
    hide AttemptCalls, Opened, PopsRow, Depth, Stuck, Weight, PopWrites;
    var more := AttemptCalls(s, msg, w, route);
    AttemptWeights(s, msg, w, route, route);
    AttemptWeights(s, msg, w, route, other);
    AttemptFails(s, msg, w, route, route);
    AttemptFails(s, msg, w, route, other);
    ShortList(more);
    if |more| == 0 {
      assert calls + [] == calls;
    } else {
      DepthSnoc(calls, more[0], route);
      DepthSnoc(calls, more[0], other);
      if |more| == 2 {
        DepthSnoc(calls + [more[0]], more[1], route);
        DepthSnoc(calls + [more[0]], more[1], other);
        assert calls + more == calls + [more[0]] + [more[1]];
      }
    }
  }

  lemma AttemptFails(s: Setup, msg: Option<Message>, w: World, route: Route, other: Route)
    ensures
      var calls := AttemptCalls(s, msg, w, route);
      && |calls| <= 2 && (|calls| >= 1 ==> !Fails(calls[0], other))
      && (|calls| == 2 ==> (Fails(calls[1], other) <==> route == other && PopsRow(s, msg, w) && !PopWrites(w)))
  {
    hide Enters, ObservationSendStatus;
    EntersIsReached(s, msg, w);
    if Notes(s) && Enters(s, msg, w) && Ends(msg.value, w) { StatusIsEvidence(w.messenger.value); }
  }

  /** A send on its own leaves a row in sending exactly if an attempt opens one and none is closed for it, unless the
      retry closes the first attempt's row in place of one it could not open. */
  lemma {:induction false} SendLeavesRowIff(x: Send)
    ensures LeavesSending(SendCalls(x)) <==>
      || (Leaves(x.setup, x.msg, x.w) && !Rescues(x))
      || (Repeats(x) && Leaves(x.setup, Retried(x.msg, x.w), x.again))
  {
    hide AttemptCalls, Opened, PopsRow, PopWrites, Repeats, Depth, Stuck, LeavesSending;
    var calls, kept := SendCalls(x), Retried(x.msg, x.w);
    RowLeftIff(calls);
    var none: seq<Call> := [];
    assert none + FirstCalls(x) == FirstCalls(x) && FirstCalls(x) + none == FirstCalls(x);
    forall other
      ensures other != x.route ==> !LeftOn(calls, other)
      ensures var (waiting, stuck) := AfterAttempt(0, false, x.setup, x.msg, x.w);
        var (d, t) := if Repeats(x) then AfterAttempt(waiting, stuck, x.setup, kept, x.again) else (waiting, stuck);
        Depth(calls, x.route) == d && (Stuck(calls, x.route) <==> t)
    {
      NothingYet(x.route);
      NothingYet(other);
      AfterAttemptCalls(none, x.setup, x.msg, x.w, x.route, other);
      AfterAttemptCalls(FirstCalls(x), x.setup, kept, x.again, x.route, other);
    }
    assert LeavesSending(calls) <==> LeftOn(calls, x.route);
  }

  lemma NothingYet(route: Route)
    ensures Depth([], route) == 0 && !Stuck([], route)
  {
  }

  // ---- Many sends at once ----

  /** A hook call and the thread that made it. */
  datatype Tagged = Tagged(thread: nat, call: Call)

  function Untagged(calls: seq<Tagged>): (plain: seq<Call>)
    ensures |plain| == |calls| && forall k | 0 <= k < |calls| :: plain[k] == calls[k].call
  {
    seq(|calls|, k requires 0 <= k < |calls| => calls[k].call)
  }

  function Of(calls: seq<Tagged>, thread: nat): seq<Call> {
    if calls == [] then [] else
    Of(calls[..|calls| - 1], thread)
    + if calls[|calls| - 1].thread == thread then [calls[|calls| - 1].call] else []
  }

  // What a thread keeps to.

  ghost predicate ThreadSettled(calls: seq<Tagged>, t: nat) {
    Settled(Of(calls, t))
  }

  ghost predicate ThreadAhead(calls: seq<Tagged>, t: nat) {
    Ahead(Of(calls, t))
  }

  ghost predicate ThreadWritten(calls: seq<Tagged>, t: nat) {
    Written(Of(calls, t))
  }

  ghost predicate ThreadClosed(calls: seq<Tagged>, t: nat) {
    AllClosed(Of(calls, t))
  }

  predicate ThreadClosedOn(calls: seq<Tagged>, t: nat, route: Route) {
    ClosedOn(Of(calls, t), route)
  }

  function SumBalance(calls: seq<Tagged>, n: nat, route: Route): int {
    if n == 0 then 0 else SumBalance(calls, n - 1, route) + Balance(Of(calls, n - 1), route)
  }

  lemma BalanceSnoc(calls: seq<Call>, c: Call, route: Route)
    ensures Balance(calls + [c], route) == Balance(calls, route) + Weight(c, route)
  {
    assert (calls + [c])[..|calls|] == calls;
  }

  lemma {:induction false} SumAppend(calls: seq<Tagged>, n: nat, route: Route)
    requires calls != []
    ensures SumBalance(calls, n, route) == SumBalance(calls[..|calls| - 1], n, route)
      + if calls[|calls| - 1].thread < n then Weight(calls[|calls| - 1].call, route) else 0
  {
    hide Weight, Balance;
    if n > 0 {
      SumAppend(calls, n - 1, route);
      BalanceSnoc(Of(calls[..|calls| - 1], n - 1), calls[|calls| - 1].call, route);
      assert Of(calls[..|calls| - 1], n - 1) + [] == Of(calls[..|calls| - 1], n - 1);
    }
  }

  lemma {:induction false} SumEmpty(n: nat, route: Route)
    ensures SumBalance([], n, route) == 0
  {
    if n > 0 { SumEmpty(n - 1, route); }
  }

  ghost predicate ThreadsBelow(calls: seq<Tagged>, n: nat) {
    forall k | 0 <= k < |calls| :: calls[k].thread < n
  }

  /** However the calls interleave, the threads' balances add up. */
  lemma {:induction false} BalancesAddUp(calls: seq<Tagged>, n: nat, route: Route)
    requires ThreadsBelow(calls, n)
    ensures Balance(Untagged(calls), route) == SumBalance(calls, n, route)
  {
    hide Balance, Weight;
    if calls == [] {
      SumEmpty(n, route);
      BalanceEmpty(route);
      assert Untagged(calls) == [];
    } else {
      var before := calls[..|calls| - 1];
      BalancesAddUp(before, n, route);
      SumAppend(calls, n, route);
      BalanceSnoc(Untagged(before), calls[|calls| - 1].call, route);
      assert Untagged(calls) == Untagged(before) + [calls[|calls| - 1].call];
    }
  }

  lemma {:induction false} OfCut(calls: seq<Tagged>, thread: nat, k: nat)
    requires k <= |calls|
    ensures Of(calls, thread) == Of(calls[..k], thread) + Of(calls[k..], thread)
  {
    if k == |calls| {
      assert calls[..k] == calls && calls[k..] == [];
    } else {
      var n := |calls| - 1;
      OfCut(calls[..n], thread, k);
      assert calls[..n][..k] == calls[..k];
      assert calls[k..][..n - k] == calls[..n][k..];
    }
  }

  /** Along a prefix the threads' balances stay on the side each thread keeps to; likewise along a suffix. */
  lemma {:induction false} SumSigns(calls: seq<Tagged>, k: nat, n: nat, route: Route)
    requires k <= |calls|
    ensures (forall t | 0 <= t < n :: ThreadAhead(calls, t)) ==> SumBalance(calls[..k], n, route) >= 0
    ensures (forall t | 0 <= t < n :: ThreadSettled(calls, t)) ==> SumBalance(calls[k..], n, route) <= 0
  {
    hide Balance, Of;
    if n > 0 {
      SumSigns(calls, k, n - 1, route);
      OfCut(calls, n - 1, k);
      var m := |Of(calls[..k], n - 1)|;
      assert Of(calls, n - 1)[..m] == Of(calls[..k], n - 1) && Of(calls, n - 1)[m..] == Of(calls[k..], n - 1);
      if forall t | 0 <= t < n :: ThreadAhead(calls, t) {
        assert ThreadAhead(calls, n - 1) && NeverAhead(Of(calls, n - 1), route);
        assert Balance(Of(calls, n - 1)[..m], route) >= 0;
      }
      if forall t | 0 <= t < n :: ThreadSettled(calls, t) {
        assert ThreadSettled(calls, n - 1) && NeverBehind(Of(calls, n - 1), route);
        assert Balance(Of(calls, n - 1)[m..], route) <= 0;
      }
    }
  }

  lemma BelowCut(calls: seq<Tagged>, n: nat, k: nat)
    requires ThreadsBelow(calls, n) && k <= |calls|
    ensures ThreadsBelow(calls[..k], n) && ThreadsBelow(calls[k..], n)
    ensures Untagged(calls[..k]) == Untagged(calls)[..k]
    ensures Untagged(calls[k..]) == Untagged(calls)[k..]
  {
  }

  /** What every thread keeps to holds in every interleaving of them. */
  lemma {:induction false} InterleavingKeeps(calls: seq<Tagged>, n: nat)
    requires ThreadsBelow(calls, n)
    ensures (forall t | 0 <= t < n :: ThreadSettled(calls, t)) ==> Settled(Untagged(calls))
    ensures (forall t | 0 <= t < n :: ThreadAhead(calls, t)) ==> Ahead(Untagged(calls))
  {
    hide Balance, Of, Untagged, SumBalance, Settled, Ahead;
    var plain := Untagged(calls);
    forall route, k: nat | k <= |plain|
      ensures (forall t | 0 <= t < n :: ThreadSettled(calls, t)) ==> Balance(plain[k..], route) <= 0
      ensures (forall t | 0 <= t < n :: ThreadAhead(calls, t)) ==> Balance(plain[..k], route) >= 0
    {
      BelowCut(calls, n, k);
      BalancesAddUp(calls[..k], n, route);
      BalancesAddUp(calls[k..], n, route);
      SumSigns(calls, k, n, route);
    }
    if forall t | 0 <= t < n :: ThreadSettled(calls, t) { SettledBy(plain); }
    if forall t | 0 <= t < n :: ThreadAhead(calls, t) { AheadBy(plain); }
  }

  lemma SettledBy(calls: seq<Call>)
    requires forall route, k: nat | k <= |calls| :: Balance(calls[k..], route) <= 0
    ensures Settled(calls)
  {
    hide Balance;
  }

  lemma AheadBy(calls: seq<Call>)
    requires forall route, k: nat | k <= |calls| :: Balance(calls[..k], route) >= 0
    ensures Ahead(calls)
  {
    hide Balance;
  }

  lemma {:induction false} CallIsOfItsThread(calls: seq<Tagged>, k: nat)
    requires k < |calls|
    ensures calls[k].call in Of(calls, calls[k].thread)
  {
    if k < |calls| - 1 { CallIsOfItsThread(calls[..|calls| - 1], k); }
  }

  lemma {:induction false} ThreadCallIsThere(calls: seq<Tagged>, thread: nat, call: Call)
    requires call in Of(calls, thread)
    ensures exists k | 0 <= k < |calls| :: calls[k].call == call
  {
    var n := |calls| - 1;
    if call in Of(calls[..n], thread) {
      ThreadCallIsThere(calls[..n], thread, call);
      var k :| 0 <= k < n && calls[..n][k].call == call;
      assert calls[k].call == call;
    } else {
      assert calls[n].call == call;
    }
  }

  lemma {:induction false} WrittenByThreads(calls: seq<Tagged>, n: nat)
    requires ThreadsBelow(calls, n)
    ensures Written(Untagged(calls)) <==> forall t | 0 <= t < n :: ThreadWritten(calls, t)
  {
    hide Of, ClosingStatus;
    if Written(Untagged(calls)) {
      forall t, j: nat | 0 <= t < n && j < |Of(calls, t)| && Closes(Of(calls, t)[j])
        ensures ClosingStatus(Of(calls, t)[j]) != Sending
      {
        ThreadCallIsThere(calls, t, Of(calls, t)[j]);
        var k :| 0 <= k < |calls| && calls[k].call == Of(calls, t)[j];
        assert Untagged(calls)[k] == calls[k].call;
      }
    }
    if forall t | 0 <= t < n :: ThreadWritten(calls, t) {
      forall k | 0 <= k < |calls| && Closes(Untagged(calls)[k]) ensures ClosingStatus(Untagged(calls)[k]) != Sending {
        CallIsOfItsThread(calls, k);
        assert ThreadWritten(calls, calls[k].thread);
      }
    }
  }

  lemma {:induction false} SumZero(calls: seq<Tagged>, n: nat, route: Route)
    requires forall t | 0 <= t < n :: ThreadAhead(calls, t)
    ensures SumBalance(calls, n, route) >= 0
    ensures SumBalance(calls, n, route) == 0 <==> forall t | 0 <= t < n :: ThreadClosedOn(calls, t, route)
  {
    hide Balance, Of;
    if n > 0 {
      SumZero(calls, n - 1, route);
      assert ThreadAhead(calls, n - 1) && NeverAhead(Of(calls, n - 1), route);
      assert Of(calls, n - 1)[..|Of(calls, n - 1)|] == Of(calls, n - 1);
      assert ThreadClosedOn(calls, n - 1, route) <==> Balance(Of(calls, n - 1), route) == 0;
    }
  }

  lemma {:induction false} AllClosedByThreads(calls: seq<Tagged>, n: nat)
    requires ThreadsBelow(calls, n) && forall t | 0 <= t < n :: ThreadAhead(calls, t)
    ensures AllClosed(Untagged(calls)) <==> forall t | 0 <= t < n :: ThreadClosed(calls, t)
  {
    hide Balance, Of, Untagged, SumBalance;
    forall route
      ensures ClosedOn(Untagged(calls), route) <==> forall t | 0 <= t < n :: ThreadClosedOn(calls, t, route)
    {
      BalancesAddUp(calls, n, route);
      SumZero(calls, n, route);
    }
    if AllClosed(Untagged(calls)) {
      forall t, route | 0 <= t < n ensures ThreadClosedOn(calls, t, route) { assert ClosedOn(Untagged(calls), route); }
      forall t | 0 <= t < n ensures ThreadClosed(calls, t) {
        forall route ensures ClosedOn(Of(calls, t), route) { assert ThreadClosedOn(calls, t, route); }
      }
    }
    if forall t | 0 <= t < n :: ThreadClosed(calls, t) {
      forall route ensures ClosedOn(Untagged(calls), route) {
        forall t | 0 <= t < n ensures ThreadClosedOn(calls, t, route) {
          assert ThreadClosed(calls, t) && ClosedOn(Of(calls, t), route);
        }
      }
    }
  }

  /** The calls are an interleaving of the sends' own calls. */
  ghost predicate Interleaves(calls: seq<Tagged>, sends: seq<Send>) {
    && ThreadsBelow(calls, |sends|)
    && forall t | 0 <= t < |sends| :: Of(calls, t) == SendCalls(sends[t])
  }

  /** Sends on any routes, overlapping in any way: if all are clean, however openings fail, none is left in sending. */
  lemma {:induction false} OverlappingSendsLeaveNoneSending(calls: seq<Tagged>, sends: seq<Send>)
    requires Interleaves(calls, sends) && forall t | 0 <= t < |sends| :: CleanSend(sends[t])
    ensures !LeavesSending(Untagged(calls))
  {
    hide Of, SendCalls, CleanSend, NeverBehind, Written, LeavesSending, Untagged;
    forall t | 0 <= t < |sends| ensures ThreadSettled(calls, t) && ThreadWritten(calls, t) { SendIsClean(sends[t]); }
    InterleavingKeeps(calls, |sends|);
    WrittenByThreads(calls, |sends|);
    SettledRunLeavesNoneSending(Untagged(calls));
  }

  /** And if their openings work, none is left in sending only then. */
  lemma {:induction false} OverlappingSendsLeaveNoneIff(calls: seq<Tagged>, sends: seq<Send>)
    requires Interleaves(calls, sends) && forall t | 0 <= t < |sends| :: OpeningsWork(sends[t])
    ensures !LeavesSending(Untagged(calls)) <==> forall t | 0 <= t < |sends| :: CleanSend(sends[t])
  {
    hide Of, SendCalls, CleanSend, OpeningsWork, NeverAhead, ClosedOn, Written, LeavesSending, Untagged;
    forall t | 0 <= t < |sends|
      ensures ThreadAhead(calls, t)
      ensures ThreadWritten(calls, t) && ThreadClosed(calls, t) <==> CleanSend(sends[t])
    {
      SendIsClean(sends[t]);
    }
    InterleavingKeeps(calls, |sends|);
    WrittenByThreads(calls, |sends|);
    AllClosedByThreads(calls, |sends|);
    EvenRunLeavesNoneIff(Untagged(calls));
  }

  // ---- Witnesses ----

  const PLAIN := Setup(true, true, false, false, false, true, true)

  /** A world in which all goes well. */
  function Fine(id: nat): World {
    var resp := SendResp(Some(GroupMessage(id, [], false, false)), false, Outcomes.Sent);
    World(Value(false), Panic, Panic, Returned(true, true), Value(resp), Returned(true, true), Value(()))
  }

  lemma PlainEnters(msg: Message, w: World)
    requires |msg| == 1 && msg[0].Some? && w.muted == Value(false)
    ensures Enters(PLAIN, Some(msg), w)
  {
    assert Present(msg) == [msg[0]] + Present(msg[1..]);
  }

  /** A panic inside the Messenger, then a retry that succeeds: a row stays in sending for good. */
  lemma {:induction false} MessengerPanicStrandsRow(text: string, route: Route, id: nat)
    ensures LeavesSending(SendCalls(
      Send(PLAIN, Some([Some(Shown(text))]), Fine(id).(messenger := Panic), Fine(id), route)))
  {
    hide SendCalls, AttemptCalls, LeavesSending, Enters, Retries;
    var msg := [Some(Shown(text))];
    var x := Send(PLAIN, Some(msg), Fine(id).(messenger := Panic), Fine(id), route);
    PlainEnters(msg, x.w);
    SendLeavesRowIff(x);
    PlainEnters(Retried(x.msg, x.w).value, x.again) by { assert Present(msg) == [msg[0]] + Present(msg[1..]); }
  }

  /** So does a panic of the closing hook call alone. */
  lemma {:induction false} HookPanicStrandsRow(text: string, route: Route, id: nat)
    ensures LeavesSending(SendCalls(
      Send(PLAIN, Some([Some(Shown(text))]), Fine(id).(onResult := Panicked(true, false)), Fine(id), route)))
  {
    hide SendCalls, AttemptCalls, LeavesSending, Enters, Retries;
    var x := Send(PLAIN, Some([Some(Shown(text))]), Fine(id).(onResult := Panicked(true, false)), Fine(id), route);
    PlainEnters([Some(Shown(text))], x.w);
    SendLeavesRowIff(x);
  }

  /** And a message the printer panics on, which is never sent. */
  lemma {:induction false} BrokenMessageStrandsRow(route: Route, id: nat)
    ensures LeavesSending(SendCalls(Send(PLAIN, Some([Some(Broken)]), Fine(id), Fine(id), route)))
    ensures PipelineGuarantees.Sends(SendOf(PLAIN, Some([Some(Broken)]), Fine(id), Fine(id)).events) == 0
  {
    hide SendCalls, AttemptCalls, LeavesSending, Enters, AttemptOf;
    var x := Send(PLAIN, Some([Some(Broken)]), Fine(id), Fine(id), route);
    PlainEnters([Some(Broken)], x.w);
    SendLeavesRowIff(x);
    PipelineGuarantees.AttemptSends(PLAIN, x.msg, x.w);
  }

  // ---- Whose result a row gets ----

  /** Which thread opened each row. */
  function Owners(calls: seq<Tagged>): map<nat, nat> {
    if calls == [] then map[] else
    var before, last := calls[..|calls| - 1], calls[|calls| - 1];
    if OpensOn(last.call, last.call.route) then Owners(before)[Run(Untagged(before)).0.nextID := last.thread]
    else Owners(before)
  }

  /** The threads that open rows of a route, in that order. */
  function Starters(calls: seq<Tagged>, route: Route): seq<nat> {
    if calls == [] then [] else
    Starters(calls[..|calls| - 1], route)
    + if OpensOn(calls[|calls| - 1].call, route) then [calls[|calls| - 1].thread] else []
  }

  /** The call at q takes a row from its route's queue. */
  predicate Takes(calls: seq<Tagged>, q: nat, route: Route)
    requires q < |calls|
  {
    ClosesOn(calls[q].call, route) && Lookup(Run(Untagged(calls[..q])).0.active, route) != []
  }

  /** The threads that take rows of a route out of its queue, in that order. */
  function Enders(calls: seq<Tagged>, route: Route): seq<nat> {
    if calls == [] then [] else
    Enders(calls[..|calls| - 1], route)
    + if Takes(calls, |calls| - 1, route) then [calls[|calls| - 1].thread] else []
  }

  /** The row taken at q is one that the same thread opened. */
  predicate TakesOwn(calls: seq<Tagged>, q: nat, route: Route)
    requires q < |calls|
  {
    Takes(calls, q, route) ==>
      var id := Lookup(Run(Untagged(calls[..q])).0.active, route)[0];
      id in Owners(calls[..q]) && Owners(calls[..q])[id] == calls[q].thread
  }

  ghost predicate OwnersFit(calls: seq<Tagged>, route: Route) {
    var h := Run(Untagged(calls)).1;
    && |Lookup(h.begun, route)| == |Starters(calls, route)|
    && |Lookup(h.ended, route)| == |Enders(calls, route)|
    && forall k | 0 <= k < |Starters(calls, route)| ::
         var id := Lookup(h.begun, route)[k];
         id in Owners(calls) && Owners(calls)[id] == Starters(calls, route)[k]
  }

  lemma RunTagged(calls: seq<Tagged>)
    requires calls != []
    ensures
      var n := |calls| - 1;
      && Untagged(calls)[..n] == Untagged(calls[..n])
      && Untagged(calls)[n] == calls[n].call
      && var (l, h) := Run(Untagged(calls[..n]));
         Run(Untagged(calls)) == (AfterCall(l, calls[n].call), Noted(l, h, calls[n].call))
  {
    hide AfterCall, Noted;
    assert Untagged(calls)[..|calls| - 1] == Untagged(calls[..|calls| - 1]);
  }

  lemma BegunStep(l: Ledger, h: History, c: Call, route: Route)
    ensures Lookup(Noted(l, h, c).begun, route)
         == Lookup(h.begun, route) + if OpensOn(c, route) then [l.nextID] else []
  {
  }

  lemma {:induction false} OwnersAlwaysFit(calls: seq<Tagged>, route: Route)
    ensures OwnersFit(calls, route)
  {
    hide AfterCall, Noted, Untagged, Run, Owners, Starters, Enders;
    if calls == [] {
      NoCallsFit(route);
    } else {
      var n := |calls| - 1;
      var before, c := calls[..n], calls[n].call;
      var (l, h) := Run(Untagged(before));
      OwnersAlwaysFit(before, route);
      RunTagged(calls);
      BegunStep(l, h, c, route);
      EndedStep(l, h, c, route);
      BooksAreKept(Untagged(before));
      var begun := Lookup(h.begun, route);
      forall k: nat | k < |begun| ensures begun[k] < l.nextID { BegunBelow(l, h, route, k); }
      OwnersStep(calls);
      EndersStep(calls, route);
      StartersStep(calls, route);
    }
  }

  lemma OwnersStep(calls: seq<Tagged>)
    requires calls != []
    ensures
      var n := |calls| - 1;
      var id := Run(Untagged(calls[..n])).0.nextID;
      && (forall other | other in Owners(calls[..n]) && other != id ::
            other in Owners(calls) && Owners(calls)[other] == Owners(calls[..n])[other])
      && (OpensOn(calls[n].call, calls[n].call.route) ==> id in Owners(calls) && Owners(calls)[id] == calls[n].thread)
  {
    hide Run, Untagged;
  }

  lemma StartersStep(calls: seq<Tagged>, route: Route)
    requires calls != []
    ensures
      var n := |calls| - 1;
      Starters(calls, route)
        == Starters(calls[..n], route) + if OpensOn(calls[n].call, route) then [calls[n].thread] else []
  {
  }

  lemma NoCallsFit(route: Route)
    ensures OwnersFit([], route)
  {
    assert Untagged([]) == [];
  }

  /** The row at the head of a route's queue belongs to the thread that began in the place the next ender takes. */
  lemma HeadOwner(calls: seq<Tagged>, route: Route)
    requires Lookup(Run(Untagged(calls)).0.active, route) != []
    ensures
      var id := Lookup(Run(Untagged(calls)).0.active, route)[0];
      var k := |Enders(calls, route)|;
      && k < |Starters(calls, route)|
      && id in Owners(calls)
      && Owners(calls)[id] == Starters(calls, route)[k]
  {
    hide Run, Untagged, Starters, Enders, Owners;
    OwnersAlwaysFit(calls, route);
    BooksAreKept(Untagged(calls));
    var (l, h) := Run(Untagged(calls));
    assert RouteOk(l, h, route);
    assert Lookup(l.active, route)[0] == Lookup(h.begun, route)[|Lookup(h.ended, route)|];
  }

  /** All closing calls of the route reach rows of their own threads. */
  ghost predicate AllOwn(calls: seq<Tagged>, route: Route) {
    forall q | 0 <= q < |calls| :: TakesOwn(calls, q, route)
  }

  lemma AllOwnStep(calls: seq<Tagged>, route: Route)
    requires calls != []
    ensures AllOwn(calls, route) <==>
      AllOwn(calls[..|calls| - 1], route) && TakesOwn(calls, |calls| - 1, route)
  {
    hide Run, Owners, Lookup;
    var n := |calls| - 1;
    forall q | 0 <= q < n ensures TakesOwn(calls, q, route) <==> TakesOwn(calls[..n], q, route) {
      assert calls[..n][..q] == calls[..q];
    }
  }

  lemma {:induction false} EndersAreFewer(calls: seq<Tagged>, route: Route)
    ensures |Enders(calls, route)| <= |Starters(calls, route)|
  {
    hide Run, Enders, Starters, Owners;
    OwnersAlwaysFit(calls, route);
    BooksAreKept(Untagged(calls));
    assert RouteOk(Run(Untagged(calls)).0, Run(Untagged(calls)).1, route);
  }

  /** Every closing call reaches a row its own send opened exactly if on the route sends end in the order they began. */
  lemma {:induction false} OwnResultIffInOrder(calls: seq<Tagged>, route: Route)
    ensures AllOwn(calls, route) <==> Enders(calls, route) <= Starters(calls, route)
  {
    hide Run, Owners, Untagged, AllOwn, OpensOn, ClosesOn, Enders, Starters;
    if calls == [] {
      NothingOwn(route);
    } else {
      var n := |calls| - 1;
      var before, last := calls[..n], calls[n];
      OwnResultIffInOrder(before, route);
      AllOwnStep(calls, route);
      var a, b := Enders(before, route), Starters(before, route);
      EndersAreFewer(before, route);
      EndersStep(calls, route);
      if Takes(calls, n, route) {
        HeadOwner(before, route);
        assert TakesOwn(calls, n, route) <==> b[|a|] == last.thread;
      } else {
        var all := Starters(calls, route);
        assert b + all[|b|..] == all;
        assert TakesOwn(calls, n, route);
      }
    }
  }

  lemma EndersStep(calls: seq<Tagged>, route: Route)
    requires calls != []
    ensures
      var n := |calls| - 1;
      var a, b := Enders(calls[..n], route), Starters(calls[..n], route);
      && Enders(calls, route) == (if Takes(calls, n, route) then a + [calls[n].thread] else a)
      && b <= Starters(calls, route) && (Takes(calls, n, route) ==> Starters(calls, route) == b)
  {
    hide Run, Untagged;
    var n := |calls| - 1;
    assert Enders(calls[..n], route) + [] == Enders(calls[..n], route);
    assert Starters(calls[..n], route) + [] == Starters(calls[..n], route);
  }

  lemma NothingOwn(route: Route)
    ensures AllOwn([], route)
    ensures Enders([], route) == []
    ensures Starters([], route) == []
  {
  }
}
