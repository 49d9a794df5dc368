/** Scheduler-side request state: manifest lookup, planning, and the metadata handed to the worker. */
module Scheduler {
  import opened Common
  import opened TransferTypes
  import opened Planner

  datatype Status =
    | Init | Miss | HitPlanned | CriticalLoading | CriticalReady | Refining | Done | Failed | RecomputeStatus

  datatype RequestState = RequestState(
    prefixKey: Option<string>,
    matchedTokens: int,
    matchedBlocks: seq<int>,
    plan: Option<TransferPlan>,
    manifest: Option<PrefixManifest>,
    status: Status,
    startTimeMs: int,
    allocatedBlockIds: seq<int>,
    requestFinished: bool,
    fallbackReason: Option<string>)

  type States = map<string, RequestState>

  const NEW_STATE := RequestState(None, 0, [], None, None, Init, 0, [], false, None)

  datatype Config = Config(settings: Settings, enableRefinement: bool, numLayers: int)

  /** One call to prepare_request_state: the request, and what the manifest service and the estimator answer. */
  datatype Query = Query(
    request: string,
    prompt: seq<int>,
    prefixKey: string,
    computedTokens: int,
    found: Option<PrefixManifest>,
    estimate: Estimate,
    now: int)

  function StateOf(states: States, r: string): RequestState { if r in states then states[r] else NEW_STATE }

  /** The prompt is long enough, and the request is not already planned or set to recompute. */
  predicate NeedsLookup(cfg: Config, states: States, q: Query) {
    && q.prompt != [] && |q.prompt| >= cfg.settings.minPrefixTokens
    && !(q.request in states && states[q.request].status in {HitPlanned, RecomputeStatus})
  }

  /** The request's state after a lookup, and the number of tokens reported or the planner's exception. */
  function Looked(cfg: Config, s: RequestState, q: Query): (Result<int>, RequestState) {
    var known := s.(startTimeMs := q.now, prefixKey := Some(q.prefixKey));
    if q.found.None? then (Ok(0), known.(status := Miss, fallbackReason := Some("no_match"), matchedTokens := 0))
    else
      var m := q.found.value;
      var hit := known.(manifest := Some(m), status := HitPlanned,
                        matchedTokens := m.matchedTokens, matchedBlocks := m.matchedBlocks);
      match Plan(q.estimate, m, cfg.settings, cfg.enableRefinement)
      case Err(e) => (Err(e), hit)
      case Ok(plan) =>
        if plan.mode == Recompute then
          (Ok(0), hit.(status := Miss, fallbackReason := Some(plan.reasonCode), matchedTokens := 0))
        else
          var left := plan.matchedTokens - q.computedTokens;
          (Ok(if left > 0 then left else 0), hit.(plan := Some(plan)))
  }

  function Prepared(cfg: Config, states: States, q: Query): (Result<int>, States) {
    if NeedsLookup(cfg, states, q) then
      var (r, s) := Looked(cfg, StateOf(states, q.request), q);
      (r, states[q.request := s])
    else if q.prompt != [] && |q.prompt| >= cfg.settings.minPrefixTokens then
      (Ok(states[q.request].matchedTokens), states)
    else (Ok(0), states)
  }

  function Bound(states: States, r: string, blocks: seq<int>): States {
    if r in states then states[r := states[r].(allocatedBlockIds := blocks)] else states
  }

  function MarkedDone(states: States, r: string): States {
    if r in states then states[r := states[r].(status := Done, requestFinished := true)] else states
  }

  function Unfinished(states: States): States { map r | r in states && !states[r].requestFinished :: states[r] }

  // ---------- Metadata ----------

  function BuildMetadata(r: string, s: RequestState): Option<ConnectorMetadata> {
    if s.manifest.None? || s.plan.None? then None
    else
      var m, plan := s.manifest.value, s.plan.value;
      var refine := plan.mode in {CriticalInt8ThenFp16, FullFp16} && m.refinementObjectId.Some?;
      Some(ConnectorMetadata(
        r,
        if s.prefixKey.Some? && s.prefixKey.value != "" then s.prefixKey.value else m.prefixKey,
        plan.mode,
        m.matchedTokens,
        m.matchedBlocks,
        m.numLayers,
        m.criticalObjectId,
        m.criticalCodec,
        m.criticalNbytes,
        if refine then m.refinementObjectId else None,
        if refine then m.refinementCodec else None,
        if refine then m.refinementNbytes else None,
        refine,
        plan.criticalDeadlineMs,
        s.allocatedBlockIds))
  }

  /** build_request_metadata: only for a request whose status is HIT_PLANNED. */
  function RequestMetadata(states: States, r: string): Option<ConnectorMetadata> {
    if r !in states || states[r].status != HitPlanned then None else BuildMetadata(r, states[r])
  }

  function Validate(md: ConnectorMetadata): (bool, string) {
    if md.requestId == "" then (false, "request_id is required")
    else if md.prefixKey == "" then (false, "prefix_key is required")
    else if md.matchedTokens <= 0 then (false, "matched_tokens must be positive")
    else if md.criticalObjectId == "" then (false, "critical_object_id is required")
    else if md.needRefinement && (md.refinementObjectId.None? || md.refinementObjectId.value == "") then
      (false, "refinement_object_id required when need_refinement=True")
    else (true, "")
  }

  // ---------- The stateful components ----------

  class StateManager {
    var states: States

    constructor ()
      ensures states == map[]
    {
      states := map[];
    }

    method CreateOrGet(r: string) returns (s: RequestState)
      modifies this
      ensures s == StateOf(old(states), r) && states == old(states)[r := s]
    {
      if r !in states {
        states := states[r := NEW_STATE];
      }
      s := states[r];
    }

    method Store(r: string, s: RequestState)
      modifies this
      ensures states == old(states)[r := s]
    {
      states := states[r := s];
    }

    method MarkManifestHit(r: string, manifest: PrefixManifest)
      modifies this
      ensures states == if r in old(states)
                        then old(states)[r := old(states)[r].(manifest := Some(manifest), status := HitPlanned)]
                        else old(states)
    {
      if r in states {
        states := states[r := states[r].(manifest := Some(manifest), status := HitPlanned)];
      }
    }

    /** mark_manifest_miss and mark_recompute: both set the status to MISS. */
    method MarkMiss(r: string, reason: string)
      modifies this
      ensures states == if r in old(states)
                        then old(states)[r := old(states)[r].(status := Miss, fallbackReason := Some(reason))]
                        else old(states)
    {
      if r in states {
        states := states[r := states[r].(status := Miss, fallbackReason := Some(reason))];
      }
    }

    method SetPlan(r: string, plan: TransferPlan)
      modifies this
      ensures states == if r in old(states) then old(states)[r := old(states)[r].(plan := Some(plan))] else old(states)
    {
      if r in states {
        states := states[r := states[r].(plan := Some(plan))];
      }
    }

    method SetAllocatedBlocks(r: string, blocks: seq<int>)
      modifies this
      ensures states == if r in old(states) then old(states)[r := old(states)[r].(allocatedBlockIds := blocks)]
                        else old(states)
    {
      if r in states {
        states := states[r := states[r].(allocatedBlockIds := blocks)];
      }
    }

    method MarkDone(r: string)
      modifies this
      ensures states == if r in old(states)
                        then old(states)[r := old(states)[r].(status := Done, requestFinished := true)]
                        else old(states)
    {
      if r in states {
        states := states[r := states[r].(status := Done, requestFinished := true)];
      }
    }

    method GcFinished()
      modifies this
      ensures states == Unfinished(old(states))
      ensures forall r :: r in states <==> r in old(states) && !old(states)[r].requestFinished
      ensures forall r :: r in states ==> states[r] == old(states)[r]
    {
      var todo := states.Keys;
      var finished: set<string> := {};
      while todo != {}
        invariant todo <= states.Keys
        invariant forall r :: r in finished <==> r in states.Keys - todo && states[r].requestFinished
        decreases |todo|
      {
        var r :| r in todo;
        if states[r].requestFinished {
          finished := finished + {r};
        }
        todo := todo - {r};
      }
      states := states - finished;
    }
  }

  lemma Overwrite(states: States, r: string, s: RequestState)
    ensures forall t {:trigger states[r := t]} :: states[r := t][r := s] == states[r := s]
  {
  }

  class SchedulerSide {
    const cfg: Config
    const manager: StateManager

    constructor (cfg: Config)
      ensures this.cfg == cfg && fresh(manager) && manager.states == map[]
    {
      this.cfg := cfg;
      manager := new StateManager();
    }

    method PrepareRequestState(q: Query) returns (r: Result<int>)
      modifies manager
      ensures (r, manager.states) == Prepared(cfg, old(manager.states), q)
      ensures r == if q.prompt == [] || |q.prompt| < cfg.settings.minPrefixTokens then Ok(0)
                   else if q.request in old(manager.states)
                           && old(manager.states)[q.request].status in {HitPlanned, RecomputeStatus}
                   then Ok(old(manager.states)[q.request].matchedTokens)
                   else if PlannerFails(cfg, q) then Err(ZeroDivision)
                   else if Accepted(cfg, q) && q.found.value.matchedTokens > q.computedTokens
                   then Ok(q.found.value.matchedTokens - q.computedTokens)
                   else Ok(0)
    {
      if q.found.Some? { FailureIsDivision(cfg, q); }
      if Accepted(cfg, q) { AcceptedPlan(cfg, q.estimate, q.found.value); }
      hide Plan;
      if q.prompt == [] || |q.prompt| < cfg.settings.minPrefixTokens { return Ok(0); }
      if q.request in manager.states && manager.states[q.request].status in {HitPlanned, RecomputeStatus} {
        return Ok(manager.states[q.request].matchedTokens);
      }
      ghost var base := manager.states;
      var s := manager.CreateOrGet(q.request);
      s := s.(startTimeMs := q.now, prefixKey := Some(q.prefixKey));
      manager.Store(q.request, s);
      Overwrite(base, q.request, s);
      if q.found.None? {
        manager.MarkMiss(q.request, "no_match");
        Overwrite(base, q.request, manager.states[q.request]);
        s := s.(status := Miss, fallbackReason := Some("no_match"), matchedTokens := 0);
        manager.Store(q.request, s);
        Overwrite(base, q.request, s);
        return Ok(0);
      }
      var m := q.found.value;
      manager.MarkManifestHit(q.request, m);
      Overwrite(base, q.request, manager.states[q.request]);
      s := manager.states[q.request].(matchedTokens := m.matchedTokens, matchedBlocks := m.matchedBlocks);
      manager.Store(q.request, s);
      Overwrite(base, q.request, s);
      var plan := Plan(q.estimate, m, cfg.settings, cfg.enableRefinement);
      if plan.Err? { return Err(plan.error); }
      if plan.value.mode == Recompute {
        manager.MarkMiss(q.request, plan.value.reasonCode);
        Overwrite(base, q.request, manager.states[q.request]);
        s := manager.states[q.request].(matchedTokens := 0);
        manager.Store(q.request, s);
        Overwrite(base, q.request, s);
        return Ok(0);
      }
      manager.SetPlan(q.request, plan.value);
      Overwrite(base, q.request, manager.states[q.request]);
      var left := plan.value.matchedTokens - q.computedTokens;
      r := Ok(if left > 0 then left else 0);
    }

    method BindAllocatedBlocks(r: string, blocks: seq<int>)
      modifies manager
      ensures manager.states == if r in old(manager.states)
                                then old(manager.states)[r := old(manager.states)[r].(allocatedBlockIds := blocks)]
                                else old(manager.states)
    {
      if r !in manager.states { return; }
      manager.SetAllocatedBlocks(r, blocks);
    }

    method BuildRequestMetadata(r: string) returns (md: Option<ConnectorMetadata>)
      ensures md == RequestMetadata(manager.states, r)
    {
      if r !in manager.states { return None; }
      var state := manager.states[r];
      if state.status != HitPlanned { return None; }
      if state.manifest.None? || state.plan.None? { return None; }
      md := BuildMetadata(r, state);
    }
  }

  // ---------- Safety of planning ----------

  /** A planned request has a manifest and an accepted plan for that manifest. */
  ghost predicate Planned(cfg: Config, s: RequestState) {
    s.status == HitPlanned ==>
      && s.manifest.Some? && s.plan.Some? && s.plan.value.mode != Recompute
      && s.plan.value.matchedTokens == s.manifest.value.matchedTokens == s.matchedTokens
      && s.plan.value.matchedBlocks == s.manifest.value.matchedBlocks == s.matchedBlocks
      && s.matchedTokens >= cfg.settings.minPrefixTokens
  }

  ghost predicate AllPlanned(cfg: Config, states: States) { forall r :: r in states ==> Planned(cfg, states[r]) }

  /** The planner raises for this query. */
  predicate PlannerFails(cfg: Config, q: Query) {
    q.found.Some? && Plan(q.estimate, q.found.value, cfg.settings, cfg.enableRefinement).Err?
  }

  lemma PlannerFailsIff(cfg: Config, q: Query)
    ensures PlannerFails(cfg, q) <==>
      q.found.Some? && q.found.value.matchedTokens >= cfg.settings.minPrefixTokens && q.estimate.bandwidthBps == 0.0
  {
    hide TransferMs;
  }

  lemma FailureIsDivision(cfg: Config, q: Query)
    requires q.found.Some?
    ensures var p := Plan(q.estimate, q.found.value, cfg.settings, cfg.enableRefinement);
            p.Err? ==> p.error == ZeroDivision
  {
    hide TransferMs;
  }

  lemma AcceptedPlan(cfg: Config, e: Estimate, m: PrefixManifest)
    requires Plan(e, m, cfg.settings, cfg.enableRefinement).Ok?
    ensures var p := Plan(e, m, cfg.settings, cfg.enableRefinement).value;
            p.mode != Recompute ==>
              p.matchedTokens == m.matchedTokens >= cfg.settings.minPrefixTokens && p.matchedBlocks == m.matchedBlocks
  {
    hide TransferMs;
  }

  /** The plan that the request still holds from an earlier match happens to fit the manifest now found. */
  predicate FitsAnyway(cfg: Config, states: States, q: Query) {
    var plan := StateOf(states, q.request).plan;
    && plan.Some? && plan.value.mode != Recompute && q.found.Some?
    && plan.value.matchedTokens == q.found.value.matchedTokens
    && plan.value.matchedBlocks == q.found.value.matchedBlocks
  }

  /** No lookup is made, or the planner answers, or the request still holds a plan that fits. */
  predicate KeepsPlanned(cfg: Config, states: States, q: Query) {
    !NeedsLookup(cfg, states, q) || !PlannerFails(cfg, q) || FitsAnyway(cfg, states, q)
  }

  /** Preparing a request keeps every planned request soundly planned exactly when no lookup is made, or the planner
      does not raise, or a plan left from an earlier match of the request fits the manifest found. */
  lemma PreparedPlanned(cfg: Config, states: States, q: Query)
    requires AllPlanned(cfg, states)
    ensures AllPlanned(cfg, Prepared(cfg, states, q).1) <==> KeepsPlanned(cfg, states, q)
  {
    PlannerFailsIff(cfg, q);
    hide Plan, PlannerFails;
    if NeedsLookup(cfg, states, q) {
      var after := Prepared(cfg, states, q).1;
      assert q.request in after;
      LookedPlanned(cfg, StateOf(states, q.request), q);
      if KeepsPlanned(cfg, states, q) {
        forall r | r in after
          ensures Planned(cfg, after[r])
        {
          assert r != q.request ==> r in states && after[r] == states[r];
        }
      }
    }
  }

  lemma LookedPlanned(cfg: Config, s: RequestState, q: Query)
    ensures Planned(cfg, Looked(cfg, s, q).1) <==>
      !PlannerFails(cfg, q) ||
      (s.plan.Some? && s.plan.value.mode != Recompute
       && s.plan.value.matchedTokens == q.found.value.matchedTokens
       && s.plan.value.matchedBlocks == q.found.value.matchedBlocks)
  {
    PlannerFailsIff(cfg, q);
    if q.found.Some? && !PlannerFails(cfg, q) { AcceptedPlan(cfg, q.estimate, q.found.value); }
    hide Plan;
  }

  /** The planner takes up the manifest found. */
  predicate Accepted(cfg: Config, q: Query) {
    && q.found.Some? && !PlannerFails(cfg, q)
    && Plan(q.estimate, q.found.value, cfg.settings, cfg.enableRefinement).value.mode != Recompute
  }

  /** What a lookup does: the tokens reported, the state it leaves the request in, and nothing else. */
  lemma LookupOutcome(cfg: Config, states: States, q: Query)
    requires NeedsLookup(cfg, states, q)
    ensures var (r, after) := Prepared(cfg, states, q);
            var s := after[q.request];
            && (r.Err? <==> PlannerFails(cfg, q))
            && (r.Ok? ==> r.value == if Accepted(cfg, q) && q.found.value.matchedTokens > q.computedTokens
                                     then q.found.value.matchedTokens - q.computedTokens else 0)
            && s.status == (if PlannerFails(cfg, q) || Accepted(cfg, q) then HitPlanned else Miss)
            && s.prefixKey == Some(q.prefixKey) && s.startTimeMs == q.now
            && (q.found.Some? ==> s.manifest == q.found && s.matchedBlocks == q.found.value.matchedBlocks)
            && (Accepted(cfg, q) ==>
                  s.plan == Some(Plan(q.estimate, q.found.value, cfg.settings, cfg.enableRefinement).value))
            && s.matchedTokens == (if s.status == HitPlanned then q.found.value.matchedTokens else 0)
            && (s.status == Miss ==> s.fallbackReason == Some(
                  if q.found.None? then "no_match"
                  else Plan(q.estimate, q.found.value, cfg.settings, cfg.enableRefinement).value.reasonCode))
            && after.Keys == states.Keys + {q.request}
            && forall x :: x in states && x != q.request ==> after[x] == states[x]
  {
    if q.found.Some? && !PlannerFails(cfg, q) { AcceptedPlan(cfg, q.estimate, q.found.value); }
    hide Plan;
  }

  /** A lookup reports tokens exactly when the planner takes up a manifest with more tokens than were already
      computed, and then that many more; asked again, the scheduler reports the manifest's full count and changes
      nothing. */
  lemma ReportedTokens(cfg: Config, states: States, q: Query, again: Query)
    requires NeedsLookup(cfg, states, q) && again.request == q.request && |again.prompt| >= cfg.settings.minPrefixTokens
    requires again.prompt != []
    ensures var (r, after) := Prepared(cfg, states, q);
            && (r.Ok? && r.value > 0 <==> Accepted(cfg, q) && q.found.value.matchedTokens > q.computedTokens)
            && (r.Ok? && r.value > 0 ==> r.value == q.found.value.matchedTokens - q.computedTokens)
            && (r.Ok? && r.value <= 0 ==> r.value == 0)
            && (Accepted(cfg, q) ==> Prepared(cfg, after, again) == (Ok(q.found.value.matchedTokens), after))
  {
    LookupOutcome(cfg, states, q);
    hide Plan, Looked;
  }

  /** A planner that raises leaves the request marked as planned with whatever plan it held before. Without one it
      gets no metadata; with one, left by an earlier match, it gets metadata that joins that plan to the manifest now
      found. */
  lemma FailedPlannerLeavesHit(cfg: Config, states: States, q: Query)
    requires NeedsLookup(cfg, states, q) && PlannerFails(cfg, q)
    ensures var after, held, m := Prepared(cfg, states, q).1, StateOf(states, q.request).plan, q.found.value;
            var md := RequestMetadata(after, q.request);
            && q.request in after && after[q.request].status == HitPlanned && after[q.request].plan == held
            && (md.Some? <==> held.Some?)
            && (md.Some? ==>
                  && md.value.planMode == held.value.mode && md.value.loadDeadlineMs == held.value.criticalDeadlineMs
                  && md.value.matchedTokens == m.matchedTokens && md.value.matchedBlocks == m.matchedBlocks
                  && md.value.criticalObjectId == m.criticalObjectId)
  {
    hide Plan;
  }

  /** Helper: in a sound state metadata exists exactly for the planned requests, and never for a plan to recompute. */
  lemma MetadataIffPlanned(cfg: Config, states: States, r: string)
    requires AllPlanned(cfg, states)
    ensures RequestMetadata(states, r).Some? <==> r in states && states[r].status == HitPlanned
    ensures RequestMetadata(states, r).Some? ==>
              && RequestMetadata(states, r).value.planMode != Recompute
              && RequestMetadata(states, r).value.matchedTokens == states[r].plan.value.matchedTokens
  {
    if r in states { assert Planned(cfg, states[r]); }
  }

  /** A manifest whose own fields a worker can use. */
  predicate WellFormed(m: PrefixManifest) {
    m.matchedTokens > 0 && m.criticalObjectId != "" && m.refinementObjectId != Some("")
  }

  /** Metadata built from any manifest passes validation exactly when request and prefix have names, there are tokens
      and a critical object, and a plan that refines does not meet an empty refinement id. */
  lemma ValidatesIff(r: string, s: RequestState)
    requires s.manifest.Some? && s.plan.Some?
    ensures BuildMetadata(r, s).Some?
    ensures Validate(BuildMetadata(r, s).value).0 <==>
      && r != "" && ((s.prefixKey.Some? && s.prefixKey.value != "") || s.manifest.value.prefixKey != "")
      && s.manifest.value.matchedTokens > 0 && s.manifest.value.criticalObjectId != ""
      && (s.plan.value.mode in {CriticalInt8ThenFp16, FullFp16} ==> s.manifest.value.refinementObjectId != Some(""))
  {
  }

  /** Metadata built from a well-formed manifest passes validation exactly when the request and the prefix have names.
      */
  lemma WellFormedValidates(r: string, s: RequestState)
    requires s.manifest.Some? && s.plan.Some? && WellFormed(s.manifest.value)
    ensures BuildMetadata(r, s).Some?
    ensures Validate(BuildMetadata(r, s).value).0
       <==> r != "" && ((s.prefixKey.Some? && s.prefixKey.value != "") || s.manifest.value.prefixKey != "")
  {
    ValidatesIff(r, s);
    hide BuildMetadata, Validate;
  }
}
