/** The two hooks asked before a send: the enforced drop (admin/phase5_integration.go)
    and the migration hold (admin/migration_hold.go). */
module PreSendHooks {
  import opened Common
  import Spaces
  import opened SendPipeline
  import PipelineGuarantees

  // ---- Which target a group is ----

  datatype Target = Target(id: string, group: bool, externalID: string, status: string, connectorID: string)

  predicate Matches(value: Target, externalID: string) {
    && value.group && Spaces.TrimSpace(value.externalID) == Spaces.TrimSpace(externalID)
    && (value.status == "" || value.status == "resolved")
  }

  /** A target matches exactly if it is a resolved group whose id is the wanted one but for spaces around them. */
  lemma {:induction false} MatchesIff(value: Target, externalID: string)
    ensures Matches(value, externalID) <==>
      && value.group && value.status in {"", "resolved"}
      && exists core :: Spaces.IsCore(value.externalID, core) && Spaces.IsCore(externalID, core)
  {
    hide Spaces.TrimSpace, Spaces.IsCore;
    var core := Spaces.TrimSpace(externalID);
    Spaces.TrimFindsCore(externalID, core);
    Spaces.TrimFindsCore(value.externalID, core);
    if other :| Spaces.IsCore(value.externalID, other) && Spaces.IsCore(externalID, other) {
      Spaces.TrimFindsCore(value.externalID, other);
      Spaces.TrimFindsCore(externalID, other);
    }
  }

  /** The i-th target is the only one that matches. */
  ghost predicate OnlyMatch(values: seq<Target>, externalID: string, i: nat) {
    i < |values| && forall j | 0 <= j < |values| :: Matches(values[j], externalID) <==> j == i
  }

  /** Exactly one target matches. */
  ghost predicate Unique(values: seq<Target>, externalID: string) {
    exists i: nat :: OnlyMatch(values, externalID, i)
  }

  /** values is None when there is no repository or it cannot be read. */
  method TargetForLegacyGroup(values: Option<seq<Target>>, externalID: string) returns (found: Option<Target>)
    ensures found.Some? <==> values.Some? && !Spaces.Blank(externalID) && Unique(values.value, externalID)
    ensures found.Some? ==> found.value in values.value && Matches(found.value, externalID)
  {
    hide Spaces.TrimSpace, Spaces.Blank, Spaces.IsSpace, Unique, OnlyMatch;
    if values.None? || Spaces.TrimSpace(externalID) == "" {
      return None;
    }
    var list := values.value;
    var last: nat, count := 0, 0;
    ghost var earlier: nat := 0;
    for k := 0 to |list|
      invariant count == 0 ==> forall j | 0 <= j < k :: !Matches(list[j], externalID)
      invariant count > 0 ==> last < k && Matches(list[last], externalID)
      invariant count == 1 ==> forall j | 0 <= j < k :: Matches(list[j], externalID) <==> j == last
      invariant count > 1 ==> earlier < last && Matches(list[earlier], externalID)
    {
      if !list[k].group || Spaces.TrimSpace(list[k].externalID) != Spaces.TrimSpace(externalID) {
        assert !Matches(list[k], externalID);
        continue;
      }
      if list[k].status != "" && list[k].status != "resolved" {
        continue;
      }
      assert Matches(list[k], externalID);
      earlier := last;
      last := k;
      count := count + 1;
    }
    if count == 1 {
      OneMatch(list, externalID, last);
      return Some(list[last]);
    }
    NotOneMatch(list, externalID, count, earlier, last);
    found := None;
  }

  lemma OneMatch(list: seq<Target>, externalID: string, last: nat)
    requires last < |list| && forall j | 0 <= j < |list| :: Matches(list[j], externalID) <==> j == last
    ensures Unique(list, externalID)
  {
    hide Matches;
    assert OnlyMatch(list, externalID, last);
  }

  lemma NotOneMatch(list: seq<Target>, externalID: string, count: nat, earlier: nat, last: nat)
    requires count != 1
    requires count == 0 ==> forall j | 0 <= j < |list| :: !Matches(list[j], externalID)
    requires count > 1 ==>
      earlier < last < |list| && Matches(list[earlier], externalID) && Matches(list[last], externalID)
    ensures !Unique(list, externalID)
  {
    hide Matches;
    forall i: nat ensures !OnlyMatch(list, externalID, i) {
      if i < |list| { assert Matches(list[i], externalID) || !Matches(list[i], externalID); }
    }
  }

  // ---- The enforced drop ----

  datatype RouteResult = RouteResult(suppressSend: bool, persisted: bool, reason: string)

  /** What the repositories and the runtime answer; None is an error or a missing part. */
  datatype Facts = Facts(runtime: bool, traceValid: bool, groupTarget: bool, traceSnapshot: Option<string>,
                         stored: Option<string>, normalizes: bool, targets: Option<seq<Target>>, externalID: string,
                         source: Option<string>, projection: Option<string>, layers: Option<string>,
                         results: Option<seq<RouteResult>>)

  /** Only a single result that asks for suppression and is already stored drops a message. */
  ghost predicate PersistedDrop(f: Facts) {
    && f.results.Some? && |f.results.value| == 1
    && f.results.value[0].suppressSend && f.results.value[0].persisted
  }

  predicate Available(f: Facts) {
    f.runtime && f.traceValid && f.groupTarget
  }

  predicate Observable(f: Facts) {
    Available(f) && (f.traceSnapshot.Some? || f.stored.Some?)
  }

  ghost predicate Unambiguous(f: Facts) {
    && Observable(f) && f.normalizes
    && f.targets.Some? && !Spaces.Blank(f.externalID) && Unique(f.targets.value, f.externalID)
    && f.source.Some? && !Spaces.Blank(f.source.value)
    && f.projection.Some? && !Spaces.Blank(f.projection.value)
  }

  ghost predicate MustDrop(f: Facts) {
    Unambiguous(f) && f.layers == Some("enforce") && PersistedDrop(f)
  }

  method EvaluateEnforceRoute(f: Facts) returns (drop: bool, reason: string)
    ensures drop <==> MustDrop(f)
    ensures drop ==> reason == f.results.value[0].reason
    ensures !drop ==> reason != ""
    ensures !Available(f) ==> reason == "phase5_unavailable"
    ensures Available(f) && f.traceSnapshot.None? && f.stored.None? ==> reason == "observation_unavailable"
    ensures Observable(f) && !f.normalizes ==> reason == "invalid_public_snapshot"
    ensures Observable(f) && f.normalizes && !Unambiguous(f) ==> reason == "ambiguous_route"
    ensures Unambiguous(f) && f.layers.None? ==> reason == "policy_unavailable"
    ensures Unambiguous(f) && f.layers.Some? && f.layers.value != "enforce" ==> reason == "ai_mode_" + f.layers.value
    ensures Unambiguous(f) && f.layers == Some("enforce") && (f.results.None? || |f.results.value| != 1) ==>
      reason == "enforce_evaluation_unavailable"
    ensures Unambiguous(f) && f.layers == Some("enforce") && f.results.Some? && |f.results.value| == 1 ==>
      reason == f.results.value[0].reason || (f.results.value[0].reason == "" && reason == "pass")
  {
    hide Unique, Spaces.Blank, Spaces.TrimSpace;
    if !f.runtime || !f.traceValid || !f.groupTarget {
      return false, "phase5_unavailable";
    }
    var observed := if f.traceSnapshot.Some? then f.traceSnapshot else f.stored;
    if observed.None? {
      return false, "observation_unavailable";
    }
    if !f.normalizes {
      return false, "invalid_public_snapshot";
    }
    var target := TargetForLegacyGroup(f.targets, f.externalID);
    if target.None? {
      return false, "ambiguous_route";
    }
    if f.source.None? || Spaces.TrimSpace(f.source.value) == "" {
      return false, "ambiguous_route";
    }
    if f.projection.None? || Spaces.TrimSpace(f.projection.value) == "" {
      return false, "ambiguous_route";
    }
    if f.layers.None? {
      return false, "policy_unavailable";
    }
    if f.layers.value != "enforce" {
      return false, "ai_mode_" + f.layers.value;
    }
    if f.results.None? || |f.results.value| != 1 {
      return false, "enforce_evaluation_unavailable";
    }
    var result := f.results.value[0];
    if result.suppressSend && result.persisted {
      return true, result.reason;
    }
    return false, if result.reason == "" then "pass" else result.reason;
  }

  // ---- The migration hold ----

  /** A read finds a row, finds none, or fails. */
  datatype Read<T> = Row(row: T) | Missing | ReadError

  datatype Migration = Migration(committing: bool, id: string)

  /** What the repositories answer at one moment. */
  datatype Moment = Moment(configured: bool, active: Read<Migration>, target: Read<string>,
                           oldTargets: Option<seq<string>>)

  datatype Current = Unaffected | Affected | Failing

  /** A committing migration maps the target away. */
  predicate Owns(m: Moment) {
    && m.configured && m.active.Row? && m.active.row.committing && m.target.Row?
    && m.oldTargets.Some? && m.target.row in m.oldTargets.value
  }

  /** A repository needed for the answer cannot be read. */
  predicate Unreadable(m: Moment) {
    && m.configured
    && (|| m.active.ReadError?
        || (m.active.Row? && m.active.row.committing
            && (m.target.ReadError? || (m.target.Row? && m.oldTargets.None?))))
  }

  function CurrentOf(m: Moment, observed: bool): Current {
    if Unreadable(m) then Failing
    else if !Owns(m) then Unaffected
    else if observed then Affected
    else Failing
  }

  method CurrentMigration(m: Moment, observed: bool) returns (c: Current)
    ensures c == CurrentOf(m, observed)
  {
    if !m.configured {
      return Unaffected;
    }
    match m.active {
      case Missing => return Unaffected;
      case ReadError => return Failing;
      case Row(migration) =>
        if !migration.committing {
          return Unaffected;
        }
    }
    match m.target {
      case Missing => return Unaffected;
      case ReadError => return Failing;
      case Row(_) =>
    }
    if m.oldTargets.None? {
      return Failing;
    }
    var affected := false;
    for k := 0 to |m.oldTargets.value|
      invariant m.target.row !in m.oldTargets.value[..k]
    {
      if m.oldTargets.value[k] == m.target.row {
        affected := true;
        break;
      }
    }
    if !affected {
      return Unaffected;
    }
    c := if observed then Affected else Failing;
  }

  /** The three moments the hook may ask at, and the outcomes of its other steps. */
  datatype HoldFacts = HoldFacts(group: bool, first: Moment, serializes: bool, second: Moment, third: Moment,
                                 idMade: bool, routeEncodes: bool, coordinator: Hold)

  const PASS := Hold(false, false)

  function HoldOf(f: HoldFacts, observed: bool): Hold {
    if !f.group then PASS else
    match CurrentOf(f.first, observed)
    case Unaffected => PASS
    case Failing => Hold(false, true)
    case Affected =>
      if !f.serializes then Hold(false, !CurrentOf(f.second, observed).Unaffected?) else
      match CurrentOf(f.third, observed)
      case Unaffected => PASS
      case Failing => Hold(false, true)
      case Affected => if f.idMade && f.routeEncodes then f.coordinator else Hold(false, true)
  }

  method HoldMessage(f: HoldFacts, observed: bool) returns (hold: Hold)
    ensures hold == HoldOf(f, observed)
  {
    if !f.group {
      return PASS;
    }
    var current := CurrentMigration(f.first, observed);
    if current != Affected {
      return Hold(false, current.Failing?);
    }
    if !f.serializes {
      var still := CurrentMigration(f.second, observed);
      return Hold(false, !still.Unaffected?);
    }
    var now := CurrentMigration(f.third, observed);
    if now != Affected {
      return Hold(false, now.Failing?);
    }
    if !f.idMade || !f.routeEncodes {
      return Hold(false, true);
    }
    hold := f.coordinator;
  }

  /** The migration may own the target: it does, or nobody can tell. */
  predicate MayOwn(m: Moment) {
    Owns(m) || Unreadable(m)
  }

  /** At every moment asked the migration may own the target, and the coordinator does not let the message go. */
  predicate StaysOwned(f: HoldFacts) {
    f.group && MayOwn(f.first) && MayOwn(f.second) && MayOwn(f.third) && f.coordinator != PASS
  }

  /** A group message is let through only by a moment that surely does not own it or by the coordinator. */
  lemma {:induction false} PassNeedsAMoment(f: HoldFacts, observed: bool)
    requires f.group && HoldOf(f, observed) == PASS
    ensures !MayOwn(f.first) || !MayOwn(f.second) || !MayOwn(f.third)
         || (Owns(f.first) && Owns(f.third) && observed && f.coordinator == PASS)
  {
  }

  /** The migration surely owns the target, and the send is observed. */
  predicate SurelyOwns(m: Moment, observed: bool) {
    Owns(m) && !Unreadable(m) && observed
  }

  /** Nobody can tell whether it does, or it does and the send is not observed. */
  predicate CannotTell(m: Moment, observed: bool) {
    Unreadable(m) || (Owns(m) && !observed)
  }

  /** Exactly when the hook fails, and when it holds: only the coordinator can hold a message, and whatever cannot be
      decided fails. */
  lemma {:induction false} HoldSaysIff(f: HoldFacts, observed: bool)
    ensures
      var hold := HoldOf(f, observed);
      var asked := f.group && SurelyOwns(f.first, observed);
      var coordinates := asked && f.serializes && SurelyOwns(f.third, observed);
      && (hold.failed <==>
            || (f.group && CannotTell(f.first, observed))
            || (asked && !f.serializes && MayOwn(f.second))
            || (asked && f.serializes && CannotTell(f.third, observed))
            || (coordinates && !(f.idMade && f.routeEncodes))
            || (coordinates && f.idMade && f.routeEncodes && f.coordinator.failed))
      && (hold.held <==> coordinates && f.idMade && f.routeEncodes && f.coordinator.held)
  {
  }

  /** An unaffected target is never touched, whatever the message or the later steps. */
  lemma {:induction false} UnownedPasses(f: HoldFacts, observed: bool)
    requires !f.group || !MayOwn(f.first)
    ensures HoldOf(f, observed) == PASS
  {
  }

  /** The hook answers with the decision on the facts, or panics. */
  ghost predicate HoldDecides(answer: Answer<Hold>, f: HoldFacts, observed: bool) {
    answer.Panic? || answer == Value(HoldOf(f, observed))
  }

  /** While a committing migration may own the target the message never reaches the Messenger, not even on the retry. */
  lemma {:induction false} OwnedIsNeverSent(s: Setup, msg: Option<Message>, w: World, again: World, f: HoldFacts,
                                            g: HoldFacts)
    requires s.migrationHook && StaysOwned(f) && StaysOwned(g)
    requires HoldDecides(w.hold, f, s.observed) && HoldDecides(again.hold, g, s.observed)
    ensures PipelineGuarantees.Sends(SendOf(s, msg, w, again).events) == 0
  {
    hide SendOf, PipelineGuarantees.Sends, HoldOf, Owns, Unreadable;
    if HoldOf(f, s.observed) == PASS { PassNeedsAMoment(f, s.observed); }
    if HoldOf(g, s.observed) == PASS { PassNeedsAMoment(g, s.observed); }
    PipelineGuarantees.HoldFailsClosed(s, msg, w, again);
  }

  // ---- The drop decided by the route's facts ----

  /** The hook answers with the decision on the facts, or panics. */
  ghost predicate Decides(answer: Answer<Drop>, f: Facts) {
    answer.Panic? || answer == Value(Drop(MustDrop(f), false))
  }

  /** Unless the facts of an attempt are a persisted drop on an unambiguous enforced route, the whole send is
      the one without the two hooks; a reached attempt whose facts are that is not. */
  lemma {:induction false} NoDropNoDifference(s: Setup, msg: Option<Message>, w: World, again: World, f: Facts,
                                              g: Facts)
    requires Decides(w.enforce, f) && Decides(again.enforce, g)
    requires !MustDrop(f) && !MustDrop(g)
    ensures PipelineGuarantees.Core(SendOf(s, msg, w, again).events)
         == SendOf(PipelineGuarantees.Without(s), msg, w, again).events
    ensures SendOf(s, msg, w, again).outcome == SendOf(PipelineGuarantees.Without(s), msg, w, again).outcome
  {
    hide SendOf, PipelineGuarantees.Core, MustDrop;
    PipelineGuarantees.FailOpen(s, msg, w, again);
  }

  /** A reached attempt is dropped exactly if its facts are such a drop and the hook does not panic. */
  lemma {:induction false} DroppedIffFacts(s: Setup, msg: Option<Message>, w: World, f: Facts)
    requires s.enforceHook && s.observed && PipelineGuarantees.Reached(s, msg, w) && Decides(w.enforce, f)
    ensures AttemptOf(s, msg, w) == Trace([EnforceAsked], Value(GroupMessage(0, Present(msg.value), true, false)))
       <==> MustDrop(f) && w.enforce.Value?
  {
    hide HoldStage, MustDrop;
    PipelineGuarantees.HoldStageFailsOpen(s, Present(msg.value), w);
  }
}
