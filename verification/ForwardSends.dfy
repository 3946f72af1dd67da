/** What holds of forward messages, which pass the hooks on a path of their own (lsp/module.go). */
module ForwardSends {
  import opened DeliveryLedger
  import opened SendPipeline
  import opened PipelineGuarantees
  import opened LedgerOfSends

  predicate ForwardLetThrough(s: Setup, w: World) {
    s.forwardHook ==> w.hold == Value(Hold(false, false))
  }

  /** Nothing stands between a forward to a group and the Messenger. */
  predicate ForwardEnters(s: Setup, w: World) {
    s.bot && !Dropped(s, w) && ForwardLetThrough(s, w)
  }

  function Forwards(events: seq<Event>): nat {
    if events == [] then 0 else (if events[0].Forwarded? then 1 else 0) + Forwards(events[1..])
  }

  lemma {:induction false} ForwardsConcat(a: seq<Event>, b: seq<Event>)
    ensures Forwards(a + b) == Forwards(a) + Forwards(b)
  {
    if a == [] {
      assert a + b == b;
    } else {
      assert (a + b)[1..] == a[1..] + b;
      ForwardsConcat(a[1..], b);
    }
  }

  // ---- Fail open ----

  lemma ForwardStageFailsOpen(s: Setup, w: World)
    ensures Core(ForwardStage(s, w).events) == ForwardStage(Without(s), w).events
    ensures ForwardStage(Without(s), w).outcome == ForwardStage(s, w).outcome
    ensures ForwardStage(s, w).events != []
  {
    hide HookEvents, RemoteID, Core, ForwardStatus;
    var first, sent := HookEvents(s, Sending, "", ""), [Forwarded];
    NotedIsNotCore(s, Sending, "", "");
    HooksAreSilent(Without(s), Sending, "", "");
    CoreConcat(first, sent);
    CoreOne(Forwarded);
    var none: seq<Event> := [];
    assert none + sent == sent && sent + none == sent;
    if w.messenger.Value? {
      var resp := w.messenger.value;
      var (status, code) := ForwardStatus(resp.outcome);
      var last := HookEvents(s, status, code, RemoteID(resp));
      NotedIsNotCore(s, status, code, RemoteID(resp));
      HooksAreSilent(Without(s), status, code, RemoteID(resp));
      CoreConcat(first + sent, last);
      CoreConcat(first + sent + last, [Observed(status, code)]);
      CoreOne(Observed(status, code));
    }
  }

  lemma ForwardHoldFailsOpen(s: Setup, w: World)
    ensures Core(ForwardHoldStage(s, w).events) == ForwardHoldStage(Without(s), w).events
    ensures ForwardHoldStage(Without(s), w).outcome == ForwardHoldStage(s, w).outcome
    ensures ForwardHoldStage(Without(s), w).events != []
    ensures Core([EnforceAsked] + ForwardHoldStage(s, w).events) == Core(ForwardHoldStage(s, w).events)
  {
    hide ForwardStage, Core;
    ForwardStageFailsOpen(s, w);
    ForwardStageFailsOpen(Without(s), w);
    CoreConcat([HoldAsked], ForwardStage(s, w).events);
    CoreConcat([EnforceAsked], ForwardHoldStage(s, w).events);
    CoreOne(HoldAsked);
    CoreOne(EnforceAsked);
    CoreOne(Observed(MigrationHeld, "migration_held"));
    CoreConcat([HoldAsked], [Observed(MigrationHeld, "migration_held")]);
    assert [HoldAsked] + [Observed(MigrationHeld, "migration_held")]
        == [HoldAsked, Observed(MigrationHeld, "migration_held")];
    assert [] + Core(ForwardHoldStage(s, w).events) == Core(ForwardHoldStage(s, w).events);
  }

  /** A forward does what it would do without the enforce and delivery hooks, exactly when enforce did not drop it. */
  lemma {:induction false} ForwardFailsOpenIff(s: Setup, target: Destination, w: World)
    ensures Trace(Core(ForwardOf(s, target, w).events), ForwardOf(s, target, w).outcome)
            == ForwardOf(Without(s), target, w)
       <==> !(target.ToGroup? && s.bot && Dropped(s, w))
  {
    assert Core([]) == [];
    hide ForwardHoldStage, Core, Dropped;
    ForwardHoldFailsOpen(s, w);
    CoreOne(Forwarded);
    CoreOne(EnforceAsked);
    DroppedNeedsHook(s, w);
    DroppedNeedsHook(Without(s), w);
  }

  // ---- At most once ----

  lemma NoForwardNoted(s: Setup, status: Status, code: string, remoteID: string)
    ensures Forwards(HookEvents(s, status, code, remoteID)) == 0
  {
  }

  lemma ForwardStageSendsOnce(s: Setup, w: World)
    ensures Forwards(ForwardStage(s, w).events) == 1
  {
    hide HookEvents, RemoteID, ForwardStatus;
    var first := HookEvents(s, Sending, "", "");
    NoForwardNoted(s, Sending, "", "");
    ForwardsConcat(first, [Forwarded]);
    if w.messenger.Value? {
      var resp := w.messenger.value;
      var (status, code) := ForwardStatus(resp.outcome);
      var last := HookEvents(s, status, code, RemoteID(resp));
      NoForwardNoted(s, status, code, RemoteID(resp));
      ForwardsConcat(first + [Forwarded], last);
      ForwardsConcat(first + [Forwarded] + last, [Observed(status, code)]);
    }
  }

  /** A forward reaches the Messenger once, or never if a hook stands in its way; a panic never sends it again. */
  lemma {:induction false} ForwardSentOnce(s: Setup, target: Destination, w: World)
    ensures Forwards(ForwardOf(s, target, w).events) ==
      if (if target.ToGroup? then ForwardEnters(s, w) else s.bot) then 1 else 0
  {
    hide ForwardStage;
    ForwardStageSendsOnce(s, w);
    ForwardsConcat([HoldAsked], ForwardStage(s, w).events);
    ForwardsConcat([EnforceAsked], ForwardHoldStage(s, w).events);
  }

  // ---- The rows of a forward ----

  /** The hook calls of a forward to a group: an opening and, if the Messenger returns, a closing. */
  function ForwardCalls(s: Setup, w: World, route: Route): seq<Call> {
    if !(Notes(s) && ForwardEnters(s, w)) then []
    else if w.messenger.Panic? then Opening(w, route)
    else Opening(w, route) + [HookCall(w.onResult, route, ForwardStatus(w.messenger.value.outcome).0)]
  }

  lemma ForwardStageCalls(s: Setup, w: World, route: Route)
    requires Notes(s) ==> ForwardEnters(s, w)
    ensures CallsOf(ForwardStage(s, w).events, w, route) == ForwardCalls(s, w, route)
  {
    hide HookEvents, RemoteID, CallsOf, HookCall, ForwardEnters;
    var first, sent := HookEvents(s, Sending, "", ""), [Forwarded];
    var none: seq<Call> := [];
    CallsOfOne(Forwarded, w, route);
    CallsOfNoted(s, Sending, "", "", w, route);
    CallsConcat(first, sent, w, route);
    assert none + none == none && Opening(w, route) + none == Opening(w, route);
    if w.messenger.Value? {
      var resp := w.messenger.value;
      var (status, code) := ForwardStatus(resp.outcome);
      var last := HookEvents(s, status, code, RemoteID(resp));
      CallsOfOne(Observed(status, code), w, route);
      CallsOfNoted(s, status, code, RemoteID(resp), w, route);
      CallsConcat(first + sent, last, w, route);
      CallsConcat(first + sent + last, [Observed(status, code)], w, route);
      var both := ForwardCalls(s, w, route);
      assert both + none == both;
    }
  }

  /** These are the hook calls among the events of the forward. */
  lemma {:induction false} ForwardMakesCalls(s: Setup, w: World, route: Route)
    ensures CallsOf(ForwardOf(s, ToGroup, w).events, w, route) == ForwardCalls(s, w, route)
  {
    hide ForwardStage, CallsOf, HookCall, Dropped;
    var stage, held := ForwardStage(s, w).events, ForwardHoldStage(s, w).events;
    if ForwardEnters(s, w) { ForwardStageCalls(s, w, route); }
    DroppedNeedsHook(s, w);
    NoCalls(w, route);
    CallsOfOne(HoldAsked, w, route);
    CallsOfOne(EnforceAsked, w, route);
    CallsOfOne(Observed(MigrationHeld, "migration_held"), w, route);
    CallsConcat([HoldAsked], stage, w, route);
    CallsConcat([EnforceAsked], held, w, route);
    CallsConcat([HoldAsked], [Observed(MigrationHeld, "migration_held")], w, route);
    assert [HoldAsked] + [Observed(MigrationHeld, "migration_held")]
        == [HoldAsked, Observed(MigrationHeld, "migration_held")];
    assert [] + CallsOf(stage, w, route) == CallsOf(stage, w, route);
    assert [] + CallsOf(held, w, route) == CallsOf(held, w, route);
  }

  /** The forward opens a row, and its closing call does not rewrite it: the Messenger or the hook panics, or the write
      fails. */
  predicate ForwardLeaves(s: Setup, w: World) {
    && Notes(s) && ForwardEnters(s, w) && w.onSending == Returned(true, true)
    && !(w.messenger.Value? && PopWrites(w))
  }

  lemma ForwardStep(calls: seq<Call>, c: Call, route: Route)
    requires Depth(calls, route) <= 1
    ensures Depth(calls + [c], route) ==
      (if OpensOn(c, route) then Depth(calls, route) + 1 else if ClosesOn(c, route) then 0 else Depth(calls, route))
    ensures Stuck(calls + [c], route) <==>
      Stuck(calls, route) || (ClosesOn(c, route) && Depth(calls, route) > 0 && ClosingStatus(c) == Sending)
  {
    assert (calls + [c])[..|calls|] == calls;
  }

  /** A forward on its own leaves a row in sending exactly then: nothing is tried again, so nothing rescues the row. */
  lemma {:induction false} ForwardLeavesRowIff(s: Setup, w: World, route: Route)
    ensures LeavesSending(ForwardCalls(s, w, route)) <==> ForwardLeaves(s, w)
  {
    hide Depth, Stuck, LeavesSending, ForwardEnters;
    var calls := ForwardCalls(s, w, route);
    RowLeftIff(calls);
    var none: seq<Call> := [];
    forall other ensures LeftOn(calls, other) <==> other == route && ForwardLeaves(s, w) {
      NothingYet(other);
      if calls != [] {
        ForwardStep(none, calls[0], other);
        assert none + [calls[0]] == [calls[0]];
        if |calls| == 2 {
          ForwardStep([calls[0]], calls[1], other);
          assert [calls[0]] + [calls[1]] == calls;
        }
      }
    }
    assert LeftOn(calls, route) <==> ForwardLeaves(s, w);
  }
}
