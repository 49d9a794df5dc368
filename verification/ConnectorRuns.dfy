/** Properties of whole runs of the connector, with the lifecycle calls of many requests interleaved in any order. */
module ConnectorRuns {
  import opened Common
  import opened TransferTypes
  import opened Planner
  import opened Scheduler
  import opened Connector
  import opened Int8Codec
  import SS = SaveSession

  const EMPTY := State(map[], map[], map[], [], map[], map[], {}, map[])

  function Run(cfg: Config, s: State, events: seq<Event>): State {
    if events == [] then s else Step(cfg, Run(cfg, s, events[..|events| - 1]), events[|events| - 1])
  }

  /** Pending metadata belongs to the request it is filed under. */
  ghost predicate Keyed(s: State) { forall r :: r in s.pending ==> s.pending[r].requestId == r }

  lemma StepKeyed(cfg: Config, s: State, e: Event)
    requires Keyed(s)
    ensures Keyed(Step(cfg, s, e))
  {
  }

  lemma {:induction false} RunKeyed(cfg: Config, s: State, events: seq<Event>)
    requires Keyed(s)
    ensures Keyed(Run(cfg, s, events))
  {
    if events != [] {
      RunKeyed(cfg, s, events[..|events| - 1]);
      StepKeyed(cfg, Run(cfg, s, events[..|events| - 1]), events[|events| - 1]);
    }
  }

  // ---------- One request's share of the state ----------

  datatype Share = Share(
    state: Option<RequestState>,
    pending: Option<ConnectorMetadata>,
    result: Option<LoadResult>,
    active: Option<ConnectorMetadata>,
    loaded: Option<seq<Tensor>>,
    future: bool,
    session: Option<SS.Session>)

  function At<V>(m: map<string, V>, r: string): Option<V> { if r in m then Some(m[r]) else None }

  function ShareOf(s: State, r: string): Share {
    Share(At(s.states, r), At(s.pending, r), At(s.results, r), At(s.active, r), At(s.loaded, r),
          r in s.futures, At(s.sessions, r))
  }

  /** The call is about request r, or is the collection of finished states. */
  predicate Concerns(e: Event, r: string) {
    match e
    case Match(q) => q.request == r
    case Alloc(x, _) => x == r
    case BuildMeta(x) => x == r
    case WorkerReport(x, _) => x == r
    case StartLoad(x, _) => x == r
    case SaveLayer(x, _, _) => x == r
    case Finish(x) => x == r
    case GetFinished => false
    case Collect => true
  }

  /** A call about other requests changes nothing of r's. */
  lemma StepForeign(cfg: Config, s: State, e: Event, r: string)
    requires Keyed(s) && !Concerns(e, r)
    ensures ShareOf(Step(cfg, s, e), r) == ShareOf(s, r)
  {
    hide Looked, BuildMetadata, RequestMetadata, SS.Step, NeedsLookup, WantsRefinement, DefaultSession;
  }

  /** The connector as seen by request r alone: what a call about r does to r's share. */
  function StepShare(cfg: Config, r: string, sh: Share, e: Event): Share {
    match e
    case Match(q) => sh.(state := At(Prepared(cfg, if sh.state.Some? then map[r := sh.state.value] else map[], q).1, r))
    case Alloc(_, blocks) =>
      if blocks == [] || sh.state.None? then sh else sh.(state := Some(sh.state.value.(allocatedBlockIds := blocks)))
    case BuildMeta(_) =>
      if sh.state.None? || sh.state.value.status != HitPlanned || BuildMetadata(r, sh.state.value).None? then sh
      else sh.(pending := BuildMetadata(r, sh.state.value))
    case WorkerReport(_, result) => if result.None? then sh else sh.(result := result)
    case StartLoad(_, kvs) =>
      if r == "" || sh.pending.None? then sh
      else if kvs.None? then sh.(active := None)
      else
        var md := sh.pending.value;
        sh.(active := Some(md), loaded := kvs, future := sh.future || WantsRefinement(md))
    case SaveLayer(_, name, kv) =>
      if r == "" then sh
      else
        var session := if sh.session.Some? then sh.session.value else DefaultSession(cfg);
        var op := if kv.Some? then SS.AddLayer(name, kv.value) else SS.Abort("extraction failed");
        sh.(session := Some(SS.Step(session, op).1))
    case Finish(_) =>
      Share(if sh.state.Some? then Some(sh.state.value.(status := Done, requestFinished := true)) else None,
            None, None, None, None, false, None)
    case GetFinished => sh
    case Collect => if sh.state.Some? && sh.state.value.requestFinished then sh.(state := None) else sh
  }

  lemma PreparedShare(cfg: Config, states: States, q: Query)
    ensures var r := q.request;
            At(Prepared(cfg, states, q).1, r)
            == At(Prepared(cfg, if At(states, r).Some? then map[r := At(states, r).value] else map[], q).1, r)
  {
    hide Looked;
  }

  lemma LoadOwn(cfg: Config, s: State, r: string, kvs: Option<seq<Tensor>>)
    requires Keyed(s)
    ensures ShareOf(Step(cfg, s, StartLoad(r, kvs)), r) == StepShare(cfg, r, ShareOf(s, r), StartLoad(r, kvs))
  {
    PendingKeyed(s, r);
    hide Keyed, WantsRefinement;
  }

  lemma SaveOwn(cfg: Config, s: State, r: string, name: string, kv: Option<Tensor>)
    ensures ShareOf(Step(cfg, s, SaveLayer(r, name, kv)), r) == StepShare(cfg, r, ShareOf(s, r), SaveLayer(r, name, kv))
  {
    hide SS.Step, DefaultSession;
  }

  lemma PendingKeyed(s: State, r: string)
    requires Keyed(s)
    ensures r in s.pending ==> s.pending[r].requestId == r
  {
  }

  lemma StepOwn(cfg: Config, s: State, e: Event, r: string)
    requires Keyed(s) && Concerns(e, r)
    ensures ShareOf(Step(cfg, s, e), r) == StepShare(cfg, r, ShareOf(s, r), e)
  {
    if e.StartLoad? {
      LoadOwn(cfg, s, r, e.kvs);
    } else if e.SaveLayer? {
      SaveOwn(cfg, s, r, e.name, e.kv);
    } else {
      hide Prepared, BuildMetadata, SS.Step, LoadStarted, LayerSaved;
      if e.Match? { PreparedShare(cfg, s.states, e.q); }
    }
  }

  /** The calls about r, run on r's share alone. */
  function RunShare(cfg: Config, r: string, sh: Share, events: seq<Event>): Share {
    if events == [] then sh
    else
      var before, e := RunShare(cfg, r, sh, events[..|events| - 1]), events[|events| - 1];
      if Concerns(e, r) then StepShare(cfg, r, before, e) else before
  }

  /** Requests do not interfere: after any interleaving of calls, everything held for r is what the calls about r alone
      produce. */
  lemma {:induction false} NonInterference(cfg: Config, s: State, events: seq<Event>, r: string)
    requires Keyed(s)
    ensures ShareOf(Run(cfg, s, events), r) == RunShare(cfg, r, ShareOf(s, r), events)
  {
    if events != [] {
      hide Step, StepShare, ShareOf, Concerns;
      var init, e := events[..|events| - 1], events[|events| - 1];
      NonInterference(cfg, s, init, r);
      RunKeyed(cfg, s, init);
      if Concerns(e, r) {
        StepOwn(cfg, Run(cfg, s, init), e, r);
      } else {
        StepForeign(cfg, Run(cfg, s, init), e, r);
      }
    }
  }

  // ---------- Finishing a request ----------

  lemma {:induction false} RunShareAppend(cfg: Config, r: string, sh: Share, a: seq<Event>, b: seq<Event>)
    ensures RunShare(cfg, r, sh, a + b) == RunShare(cfg, r, RunShare(cfg, r, sh, a), b)
  {
    if b == [] {
      assert a + b == a;
    } else {
      hide StepShare, Concerns;
      var init := b[..|b| - 1];
      assert (a + b)[..|a + b| - 1] == a + init;
      RunShareAppend(cfg, r, sh, a, init);
    }
  }

  /** The request's entries are gone from all six tables; at most its state is left, done and finished. */
  predicate Gone(sh: Share) {
    && sh == Share(sh.state, None, None, None, None, false, None)
    && (sh.state.Some? ==> sh.state.value.status == Done && sh.state.value.requestFinished)
  }

  lemma {:induction false} StaysGone(cfg: Config, r: string, sh: Share, events: seq<Event>)
    requires Gone(sh) && forall e :: e in events && Concerns(e, r) ==> e.Collect?
    ensures Gone(RunShare(cfg, r, sh, events))
  {
    if events != [] {
      assert events[|events| - 1] in events;
      StaysGone(cfg, r, sh, events[..|events| - 1]);
    }
  }

  lemma FinishShare(cfg: Config, r: string, sh: Share)
    ensures Gone(RunShare(cfg, r, sh, [Finish(r)]))
    ensures forall x :: x != r ==> RunShare(cfg, x, sh, [Finish(r)]) == sh
  {
    assert [Finish(r)][..0] == [];
    assert forall x :: RunShare(cfg, x, sh, []) == sh;
  }

  /** In any run, request_finished(r) removes r from all six tables until a later call about r, and for every other
      request the run ends as if that call had not been made. */
  lemma {:induction false} FinishedInRun(cfg: Config, s: State, before: seq<Event>, r: string, after: seq<Event>)
    requires Keyed(s)
    ensures var t := Run(cfg, s, before + [Finish(r)] + after);
            && ((forall e :: e in after && Concerns(e, r) ==> e.Collect?) ==> Gone(ShareOf(t, r)))
            && forall x :: x != r ==> ShareOf(t, x) == ShareOf(Run(cfg, s, before + after), x)
  {
    hide Run, RunShare, ShareOf, Gone, Keyed;
    forall x
      ensures ShareOf(Run(cfg, s, before + [Finish(r)] + after), x)
           == RunShare(cfg, x, RunShare(cfg, x, RunShare(cfg, x, ShareOf(s, x), before), [Finish(r)]), after)
      ensures ShareOf(Run(cfg, s, before + after), x)
           == RunShare(cfg, x, RunShare(cfg, x, ShareOf(s, x), before), after)
    {
      NonInterference(cfg, s, before + [Finish(r)] + after, x);
      NonInterference(cfg, s, before + after, x);
      RunShareAppend(cfg, x, ShareOf(s, x), before + [Finish(r)], after);
      RunShareAppend(cfg, x, ShareOf(s, x), before, [Finish(r)]);
      RunShareAppend(cfg, x, ShareOf(s, x), before, after);
    }
    forall x | x != r
      ensures ShareOf(Run(cfg, s, before + [Finish(r)] + after), x) == ShareOf(Run(cfg, s, before + after), x)
    {
      FinishShare(cfg, r, RunShare(cfg, x, ShareOf(s, x), before));
    }
    var mine := RunShare(cfg, r, ShareOf(s, r), before);
    FinishShare(cfg, r, mine);
    if forall e :: e in after && Concerns(e, r) ==> e.Collect? {
      StaysGone(cfg, r, RunShare(cfg, r, mine, [Finish(r)]), after);
    }
  }

  function FinishCalls(events: seq<Event>): seq<string> {
    if events == [] then []
    else FinishCalls(events[..|events| - 1]) + if events[|events| - 1].Finish? then [events[|events| - 1].r] else []
  }

  /** Everything the run's get_finished calls return, in order. */
  function Reported(cfg: Config, s: State, events: seq<Event>): seq<string> {
    if events == [] then []
    else
      var init := events[..|events| - 1];
      Reported(cfg, s, init) + if events[|events| - 1].GetFinished? then Run(cfg, s, init).finished else []
  }

  /** Finished requests are reported once per request_finished call, in the order of the calls, after those that were
      already waiting. */
  lemma {:induction false} FinishedAccounting(cfg: Config, s: State, events: seq<Event>)
    ensures Reported(cfg, s, events) + Run(cfg, s, events).finished == s.finished + FinishCalls(events)
  {
    if events == [] {
      assert [] + s.finished == s.finished == s.finished + [];
    } else {
      hide Prepared, LoadStarted, LayerSaved, RequestMetadata;
      var init, e := events[..|events| - 1], events[|events| - 1];
      FinishedAccounting(cfg, s, init);
      var reported, waiting := Reported(cfg, s, init), Run(cfg, s, init).finished;
      match e
      case Finish(r) =>
        Concat3(reported, waiting, [r]);
        Concat3(s.finished, FinishCalls(init), [r]);
        assert reported + [] == reported;
      case GetFinished => assert FinishCalls(init) + [] == FinishCalls(init);
      case _ =>
        assert reported + [] == reported;
        assert FinishCalls(init) + [] == FinishCalls(init);
    }
  }

  /** Nothing is loaded or about to be loaded for r, and r is not planned. */
  predicate Quiet(s: State, r: string) {
    && r !in s.pending && r !in s.active && r !in s.loaded && r !in s.futures
    && (r in s.states ==> s.states[r].status != HitPlanned)
  }

  lemma StepQuiet(cfg: Config, s: State, e: Event, r: string)
    requires Keyed(s) && Quiet(s, r) && !(e.Match? && e.q.request == r)
    ensures Quiet(Step(cfg, s, e), r)
  {
    hide Looked, BuildMetadata, SS.Step;
  }

  /** After a request has finished, no call starts a load for it until it is matched again. */
  lemma {:induction false} QuietUntilMatched(cfg: Config, s: State, events: seq<Event>, r: string)
    requires Keyed(s) && forall e :: e in events ==> !(e.Match? && e.q.request == r)
    ensures Quiet(Run(cfg, Step(cfg, s, Finish(r)), events), r)
  {
    var start := Step(cfg, s, Finish(r));
    StepKeyed(cfg, s, Finish(r));
    if events == [] {
    } else {
      hide Step, Quiet;
      var init, e := events[..|events| - 1], events[|events| - 1];
      assert e in events;
      QuietUntilMatched(cfg, s, init, r);
      RunKeyed(cfg, start, init);
      StepQuiet(cfg, Run(cfg, start, init), e, r);
    }
  }

  // ---------- The blocks a load is for ----------

  lemma {:induction false} ForeignShare(cfg: Config, r: string, sh: Share, events: seq<Event>)
    requires forall e :: e in events ==> !Concerns(e, r)
    ensures RunShare(cfg, r, sh, events) == sh
  {
    if events != [] {
      hide StepShare, Concerns;
      assert events[|events| - 1] in events;
      ForeignShare(cfg, r, sh, events[..|events| - 1]);
    }
  }

  /** Metadata handed out for a planned request names the blocks last allocated to it, whatever other requests do
      between. */
  lemma {:induction false} AllocatedBlocksServed(cfg: Config, s: State, r: string, blocks: seq<int>,
                                                   between: seq<Event>)
    requires Keyed(s) && RequestMetadata(s.states, r).Some? && blocks != []
    requires forall e :: e in between ==> !Concerns(e, r)
    ensures var t := Run(cfg, s, [Alloc(r, blocks)] + between + [BuildMeta(r)]);
            r in t.pending && t.pending[r] == RequestMetadata(s.states, r).value.(allocatedBlockIds := blocks)
  {
    BothConcern(r, blocks);
    BlocksShare(cfg, s, r, blocks);
    hide StepShare, Run, RunShare, RequestMetadata, Keyed, Concerns;
    var events := [Alloc(r, blocks)] + between + [BuildMeta(r)];
    var sh := ShareOf(s, r);
    var bound := StepShare(cfg, r, sh, Alloc(r, blocks));
    NonInterference(cfg, s, events, r);
    RunShareAppend(cfg, r, sh, [Alloc(r, blocks)] + between, [BuildMeta(r)]);
    RunShareAppend(cfg, r, sh, [Alloc(r, blocks)], between);
    OneShare(cfg, r, sh, Alloc(r, blocks));
    ForeignShare(cfg, r, bound, between);
    OneShare(cfg, r, bound, BuildMeta(r));
    assert ShareOf(Run(cfg, s, events), r) == StepShare(cfg, r, bound, BuildMeta(r));
  }

  lemma BothConcern(r: string, blocks: seq<int>)
    ensures Concerns(Alloc(r, blocks), r) && Concerns(BuildMeta(r), r)
  {
  }

  lemma BlocksShare(cfg: Config, s: State, r: string, blocks: seq<int>)
    requires RequestMetadata(s.states, r).Some? && blocks != []
    ensures StepShare(cfg, r, StepShare(cfg, r, ShareOf(s, r), Alloc(r, blocks)), BuildMeta(r)).pending
         == Some(RequestMetadata(s.states, r).value.(allocatedBlockIds := blocks))
  {
  }

  lemma OneShare(cfg: Config, r: string, sh: Share, e: Event)
    requires Concerns(e, r)
    ensures RunShare(cfg, r, sh, [e]) == StepShare(cfg, r, sh, e)
  {
    hide StepShare;
    assert [e][..0] == [];
    assert RunShare(cfg, r, sh, []) == sh;
  }

  // ---------- Which requests are soundly planned ----------

  function Prefix(cfg: Config, events: seq<Event>, k: nat): State
    requires k <= |events|
  {
    Run(cfg, EMPTY, events[..k])
  }

  lemma PrefixStep(cfg: Config, events: seq<Event>, k: nat)
    requires k < |events|
    ensures Prefix(cfg, events, k + 1) == Step(cfg, Prefix(cfg, events, k), events[k])
  {
    assert events[..k + 1][..k] == events[..k] && events[..k + 1][k] == events[k];
  }

  lemma PrefixAll(cfg: Config, events: seq<Event>)
    ensures Prefix(cfg, events, |events|) == Run(cfg, EMPTY, events)
  {
    assert events[..|events|] == events;
  }

  /** The call, made in this state, is not a match that spoils a planned request. */
  predicate Keeps(cfg: Config, s: State, e: Event) { e.Match? ==> KeepsPlanned(cfg, s.states, e.q) }

  lemma StepPlanned(cfg: Config, s: State, e: Event)
    requires AllPlanned(cfg, s.states)
    ensures AllPlanned(cfg, Step(cfg, s, e).states) <==> Keeps(cfg, s, e)
  {
    hide RequestMetadata, WantsRefinement, DefaultSession, SS.Step, Prepared, KeepsPlanned;
    if e.Match? { PreparedPlanned(cfg, s.states, e.q); }
  }

  /** Every planned request is soundly planned after every call of a run exactly when at each match, in the state it is
      made in, no lookup follows, or the planner does not raise, or an earlier plan fits. */
  lemma {:induction false} PlannedThroughout(cfg: Config, events: seq<Event>)
    ensures (forall k :: 0 <= k <= |events| ==> AllPlanned(cfg, Prefix(cfg, events, k).states))
       <==> forall k :: 0 <= k < |events| ==> Keeps(cfg, Prefix(cfg, events, k), events[k])
  {
    hide Step, Prefix, AllPlanned, Keeps;
    if forall k :: 0 <= k <= |events| ==> AllPlanned(cfg, Prefix(cfg, events, k).states) {
      forall k | 0 <= k < |events|
        ensures Keeps(cfg, Prefix(cfg, events, k), events[k])
      {
        PrefixStep(cfg, events, k);
        StepPlanned(cfg, Prefix(cfg, events, k), events[k]);
        assert AllPlanned(cfg, Prefix(cfg, events, k + 1).states);
      }
    }
    if forall k :: 0 <= k < |events| ==> Keeps(cfg, Prefix(cfg, events, k), events[k]) {
      forall k | 0 <= k <= |events|
        ensures AllPlanned(cfg, Prefix(cfg, events, k).states)
      {
        PlannedUpTo(cfg, events, k);
      }
    }
  }

  lemma EmptyPrefix(cfg: Config, events: seq<Event>)
    ensures AllPlanned(cfg, Prefix(cfg, events, 0).states)
  {
  }

  lemma {:induction false} PlannedUpTo(cfg: Config, events: seq<Event>, k: nat)
    requires k <= |events| && forall i :: 0 <= i < k ==> Keeps(cfg, Prefix(cfg, events, i), events[i])
    ensures AllPlanned(cfg, Prefix(cfg, events, k).states)
  {
    hide Step, Prefix, AllPlanned, Keeps;
    if k > 0 {
      PlannedUpTo(cfg, events, k - 1);
      PrefixStep(cfg, events, k - 1);
      StepPlanned(cfg, Prefix(cfg, events, k - 1), events[k - 1]);
    } else {
      EmptyPrefix(cfg, events);
    }
  }

  // ---------- Where a load comes from ----------

  predicate NeverRaises(cfg: Config, events: seq<Event>) {
    forall e :: e in events ==> !(e.Match? && PlannerFails(cfg, e.q))
  }

  predicate Finds(e: Event, r: string) { e.Match? && e.q.request == r && e.q.found.Some? }

  function PlanOf(cfg: Config, q: Query): Result<TransferPlan>
    requires q.found.Some?
  {
    Plan(q.estimate, q.found.value, cfg.settings, cfg.enableRefinement)
  }

  /** The call is a match of r for which the planner accepted the manifest with this plan. */
  predicate Accepts(cfg: Config, e: Event, r: string, plan: TransferPlan) {
    Finds(e, r) && PlanOf(cfg, e.q) == Ok(plan) && plan.mode != Recompute
  }

  /** Call i found the manifest and call j accepted the plan; they are the same call, or the planner raised at i. */
  predicate Origin(cfg: Config, events: seq<Event>, i: int, j: int, r: string, q: Query, plan: TransferPlan) {
    && 0 <= j <= i < |events| && events[i] == Match(q) && Finds(events[i], r) && Accepts(cfg, events[j], r, plan)
    && (i == j || PlannerFails(cfg, q))
  }

  /** The metadata's object and sizes are those of the manifest found for q, its prefix q's (or the manifest's), its
      mode and deadline the plan's. */
  predicate BuiltFrom(md: ConnectorMetadata, r: string, q: Query, plan: TransferPlan)
    requires q.found.Some?
  {
    var m := q.found.value;
    && md.prefixKey == (if q.prefixKey != "" then q.prefixKey else m.prefixKey)
    && md.requestId == r && md.planMode == plan.mode && md.loadDeadlineMs == plan.criticalDeadlineMs
    && md.matchedTokens == m.matchedTokens && md.matchedBlocks == m.matchedBlocks && md.numLayers == m.numLayers
    && md.criticalObjectId == m.criticalObjectId && md.criticalCodec == m.criticalCodec
    && md.criticalNbytes == m.criticalNbytes
    && md.needRefinement == (plan.mode in {CriticalInt8ThenFp16, FullFp16} && m.refinementObjectId.Some?)
    && md.refinementObjectId == (if md.needRefinement then m.refinementObjectId else None)
    && md.refinementCodec == (if md.needRefinement then m.refinementCodec else None)
    && md.refinementNbytes == (if md.needRefinement then m.refinementNbytes else None)
  }

  ghost predicate Earned(cfg: Config, events: seq<Event>, r: string, md: ConnectorMetadata) {
    exists i, j, q, plan :: Origin(cfg, events, i, j, r, q, plan) && BuiltFrom(md, r, q, plan)
  }

  ghost predicate Accepted(cfg: Config, events: seq<Event>, r: string, plan: TransferPlan) {
    exists j :: 0 <= j < |events| && Accepts(cfg, events[j], r, plan)
  }

  /** A stored plan was accepted; a planned request has a manifest, and with a plan the two have an origin. */
  ghost predicate StateEarned(cfg: Config, events: seq<Event>, r: string, s: RequestState) {
    && (s.plan.Some? ==> Accepted(cfg, events, r, s.plan.value))
    && (s.status == HitPlanned ==> s.manifest.Some?)
    && (s.status == HitPlanned && s.plan.Some? ==>
          exists i, j, q ::
            Origin(cfg, events, i, j, r, q, s.plan.value) && q.found == s.manifest && s.prefixKey == Some(q.prefixKey))
  }

  ghost predicate AllEarned(cfg: Config, events: seq<Event>, s: State) {
    && (forall r :: r in s.states ==> StateEarned(cfg, events, r, s.states[r]))
    && (forall r :: r in s.pending ==> Earned(cfg, events, r, s.pending[r]))
    && (forall r :: r in s.active ==> Earned(cfg, events, r, s.active[r]))
  }

  lemma OriginLater(cfg: Config, events: seq<Event>, e: Event, i: int, j: int, r: string, q: Query, plan: TransferPlan)
    requires Origin(cfg, events, i, j, r, q, plan)
    ensures Origin(cfg, events + [e], i, j, r, q, plan)
  {
    assert (events + [e])[i] == events[i] && (events + [e])[j] == events[j];
  }

  lemma EarnedLater(cfg: Config, events: seq<Event>, e: Event, r: string, md: ConnectorMetadata)
    requires Earned(cfg, events, r, md)
    ensures Earned(cfg, events + [e], r, md)
  {
    hide BuiltFrom;
    var i, j, q, plan :| Origin(cfg, events, i, j, r, q, plan) && BuiltFrom(md, r, q, plan);
    OriginLater(cfg, events, e, i, j, r, q, plan);
  }

  lemma StateEarnedLater(cfg: Config, events: seq<Event>, e: Event, r: string, s: RequestState)
    requires StateEarned(cfg, events, r, s)
    ensures StateEarned(cfg, events + [e], r, s)
  {
    hide Origin, Accepts;
    if s.plan.Some? {
      var j :| 0 <= j < |events| && Accepts(cfg, events[j], r, s.plan.value);
      assert (events + [e])[j] == events[j];
      if s.status == HitPlanned {
        var i, j, q :|
          Origin(cfg, events, i, j, r, q, s.plan.value) && q.found == s.manifest && s.prefixKey == Some(q.prefixKey);
        OriginLater(cfg, events, e, i, j, r, q, s.plan.value);
      }
    }
  }

  lemma AllEarnedLater(cfg: Config, events: seq<Event>, e: Event, s: State)
    requires AllEarned(cfg, events, s)
    ensures AllEarned(cfg, events + [e], s)
  {
    hide Earned, StateEarned;
    forall r | r in s.states
      ensures StateEarned(cfg, events + [e], r, s.states[r])
    {
      StateEarnedLater(cfg, events, e, r, s.states[r]);
    }
    forall r | r in s.pending
      ensures Earned(cfg, events + [e], r, s.pending[r])
    {
      EarnedLater(cfg, events, e, r, s.pending[r]);
    }
    forall r | r in s.active
      ensures Earned(cfg, events + [e], r, s.active[r])
    {
      EarnedLater(cfg, events, e, r, s.active[r]);
    }
  }

  /** A lookup leaves the request with an earned state. */
  lemma LookedEarned(cfg: Config, events: seq<Event>, q: Query, s: RequestState)
    requires StateEarned(cfg, events, q.request, s)
    ensures StateEarned(cfg, events + [Match(q)], q.request, Looked(cfg, s, q).1)
  {
    var n, r, all, after := |events|, q.request, events + [Match(q)], Looked(cfg, s, q).1;
    StateEarnedLater(cfg, events, Match(q), r, s);
    assert all[n] == Match(q);
    if q.found.Some? {
      match Plan(q.estimate, q.found.value, cfg.settings, cfg.enableRefinement)
      case Err(_) =>
        hide Plan;
        if s.plan.Some? {
          var j :| 0 <= j < |events| && Accepts(cfg, events[j], r, s.plan.value);
          assert all[j] == events[j];
          assert Origin(cfg, all, n, j, r, q, s.plan.value);
        }
      case Ok(plan) =>
        hide Plan;
        if plan.mode != Recompute {
          assert Accepts(cfg, all[n], r, plan);
          assert Origin(cfg, all, n, n, r, q, plan);
        }
    }
  }

  lemma BuiltEarned(cfg: Config, events: seq<Event>, states: States, r: string)
    requires r in states && StateEarned(cfg, events, r, states[r])
    ensures RequestMetadata(states, r).Some? ==> Earned(cfg, events, r, RequestMetadata(states, r).value)
  {
    var s := states[r];
    if RequestMetadata(states, r).Some? {
      var i, j, q :|
        Origin(cfg, events, i, j, r, q, s.plan.value) && q.found == s.manifest && s.prefixKey == Some(q.prefixKey);
      assert BuiltFrom(RequestMetadata(states, r).value, r, q, s.plan.value);
    }
  }

  /** Nothing about where plans and manifests come from depends on blocks or on the request being finished. */
  lemma StateEarnedKept(cfg: Config, events: seq<Event>, r: string, s: RequestState, t: RequestState)
    requires StateEarned(cfg, events, r, s)
    requires t.plan == s.plan && t.manifest == s.manifest && t.prefixKey == s.prefixKey
    requires t.status == s.status || t.status == Done
    ensures StateEarned(cfg, events, r, t)
  {
  }

  /** What was already held, or was pending and is now loading, is still earned. */
  lemma EarnedWithin(cfg: Config, events: seq<Event>, s: State, t: State)
    requires AllEarned(cfg, events, s)
    requires forall r :: r in t.states ==> r in s.states && t.states[r] == s.states[r]
    requires forall r :: r in t.pending ==> r in s.pending && t.pending[r] == s.pending[r]
    requires forall r :: r in t.active ==>
               (r in s.active && t.active[r] == s.active[r]) || (r in s.pending && t.active[r] == s.pending[r])
    ensures AllEarned(cfg, events, t)
  {
    hide Earned, StateEarned;
  }

  lemma MatchEarned(cfg: Config, events: seq<Event>, s: State, q: Query)
    requires AllEarned(cfg, events, s)
    ensures AllEarned(cfg, events + [Match(q)], Step(cfg, s, Match(q)))
  {
    hide Earned, StateEarned, Looked, NeedsLookup;
    AllEarnedLater(cfg, events, Match(q), s);
    NewEarned(cfg, events, q.request, s.states);
    LookedEarned(cfg, events, q, StateOf(s.states, q.request));
  }

  /** The request's state changes in its blocks or to finished. */
  lemma StateChangeEarned(cfg: Config, events: seq<Event>, s: State, t: State, r: string, state: RequestState)
    requires AllEarned(cfg, events, s)
    requires r in s.states && state.plan == s.states[r].plan && state.manifest == s.states[r].manifest
    requires state.prefixKey == s.states[r].prefixKey
    requires state.status == s.states[r].status || state.status == Done
    requires t == s.(states := s.states[r := state])
    ensures AllEarned(cfg, events, t)
  {
    StateEarnedKept(cfg, events, r, s.states[r], state);
    hide Earned, StateEarned;
  }

  lemma MetaEarned(cfg: Config, events: seq<Event>, s: State, r: string)
    requires AllEarned(cfg, events, s)
    ensures AllEarned(cfg, events, Step(cfg, s, BuildMeta(r)))
  {
    if r in s.states { BuiltEarned(cfg, events, s.states, r); } else { UnknownGetsNothing(s.states, r); }
    hide Earned, StateEarned, RequestMetadata;
  }

  lemma FinishEarned(cfg: Config, events: seq<Event>, s: State, r: string)
    requires AllEarned(cfg, events, s)
    ensures AllEarned(cfg, events, Finished(s, r))
  {
    hide AllEarned;
    var t := s.(states := MarkedDone(s.states, r));
    if r in s.states {
      StateChangeEarned(cfg, events, s, t, r, s.states[r].(status := Done, requestFinished := true));
    }
    EarnedWithin(cfg, events, t, Finished(s, r));
  }

  lemma AllocEarned(cfg: Config, events: seq<Event>, s: State, r: string, blocks: seq<int>)
    requires AllEarned(cfg, events, s)
    ensures AllEarned(cfg, events, s.(states := Bound(s.states, r, blocks)))
  {
    hide AllEarned;
    if r in s.states {
      var state := s.states[r].(allocatedBlockIds := blocks);
      StateChangeEarned(cfg, events, s, s.(states := Bound(s.states, r, blocks)), r, state);
    }
  }

  lemma LoadEarned(cfg: Config, events: seq<Event>, s: State, r: string, kvs: Option<seq<Tensor>>)
    requires AllEarned(cfg, events, s) && Keyed(s) && r in s.pending
    ensures AllEarned(cfg, events, LoadStarted(s, s.pending[r], kvs))
  {
    hide AllEarned, WantsRefinement;
    EarnedWithin(cfg, events, s, LoadStarted(s, s.pending[r], kvs));
  }

  lemma StepEarned(cfg: Config, events: seq<Event>, s: State, e: Event)
    requires AllEarned(cfg, events, s) && Keyed(s)
    ensures AllEarned(cfg, events + [e], Step(cfg, s, e))
  {
    hide AllEarned, RequestMetadata, Prepared, LayerSaved, LoadStarted, Finished, Bound, Keyed;
    var all := events + [e];
    AllEarnedLater(cfg, events, e, s);
    match e
    case Match(q) => MatchEarned(cfg, events, s, q);
    case BuildMeta(r) => MetaEarned(cfg, all, s, r);
    case Alloc(r, blocks) => AllocEarned(cfg, all, s, r, blocks);
    case Finish(r) => FinishEarned(cfg, all, s, r);
    case StartLoad(r, kvs) => if r in s.pending { LoadEarned(cfg, all, s, r, kvs); }
    case SaveLayer(r, name, kv) => SaveEarned(cfg, all, s, r, name, kv);
    case WorkerReport(_, _) => EarnedWithin(cfg, all, s, Step(cfg, s, e));
    case GetFinished => EarnedWithin(cfg, all, s, s.(finished := []));
    case Collect => EarnedWithin(cfg, all, s, s.(states := Unfinished(s.states)));
  }

  lemma SaveEarned(cfg: Config, events: seq<Event>, s: State, r: string, name: string, kv: Option<Tensor>)
    requires AllEarned(cfg, events, s)
    ensures AllEarned(cfg, events, LayerSaved(cfg, s, r, name, kv))
  {
    hide AllEarned, SS.Step, DefaultSession;
    EarnedWithin(cfg, events, s, LayerSaved(cfg, s, r, name, kv));
  }

  lemma NewEarned(cfg: Config, events: seq<Event>, r: string, states: States)
    requires r in states ==> StateEarned(cfg, events, r, states[r])
    ensures StateEarned(cfg, events, r, StateOf(states, r))
  {
  }

  lemma UnknownGetsNothing(states: States, r: string)
    requires r !in states
    ensures RequestMetadata(states, r) == None
  {
  }

  lemma {:induction false} RunEarned(cfg: Config, events: seq<Event>)
    ensures AllEarned(cfg, events, Run(cfg, EMPTY, events))
  {
    if events != [] {
      hide Step, AllEarned;
      var init, e := events[..|events| - 1], events[|events| - 1];
      RunEarned(cfg, init);
      RunKeyed(cfg, EMPTY, init);
      StepEarned(cfg, init, Run(cfg, EMPTY, init), e);
      assert init + [e] == events;
    }
  }

  /** The load was accepted by one match: the planner accepted, with the load's mode and deadline, the very manifest
      that names the load's object. */
  ghost predicate AcceptedLoad(cfg: Config, events: seq<Event>, r: string, md: ConnectorMetadata) {
    exists e, plan :: e in events && Accepts(cfg, e, r, plan) && BuiltFrom(md, r, e.q, plan)
  }

  /** In every run, all metadata handed out or being loaded is for an accepted plan of its own request and a manifest
      found for it: found by the match that accepted the plan, or by a later one at which the planner raised. In
      particular nothing to be recomputed is ever loaded. If the planner never raises, a request is loaded only under
      a plan that accepted its manifest. */
  lemma RunSafe(cfg: Config, events: seq<Event>, r: string)
    ensures var s := Run(cfg, EMPTY, events);
            && (r in s.pending ==> Earned(cfg, events, r, s.pending[r]) && s.pending[r].planMode != Recompute)
            && (r in s.active ==> Earned(cfg, events, r, s.active[r]) && s.active[r].planMode != Recompute)
            && (NeverRaises(cfg, events) ==>
                  && AllPlanned(cfg, s.states)
                  && (r in s.pending ==> AcceptedLoad(cfg, events, r, s.pending[r]))
                  && (r in s.active ==> AcceptedLoad(cfg, events, r, s.active[r])))
  {
    hide Run, Earned, AcceptedLoad, NeverRaises;
    var s := Run(cfg, EMPTY, events);
    RunEarned(cfg, events);
    if NeverRaises(cfg, events) { NeverRaisesPlans(cfg, events); }
    if r in s.pending { EarnedLoad(cfg, events, r, s.pending[r]); }
    if r in s.active { EarnedLoad(cfg, events, r, s.active[r]); }
  }

  lemma NeverRaisesPlans(cfg: Config, events: seq<Event>)
    requires NeverRaises(cfg, events)
    ensures AllPlanned(cfg, Run(cfg, EMPTY, events).states)
  {
    hide PlannerFails, NeedsLookup, FitsAnyway, Prefix, AllPlanned;
    forall k | 0 <= k < |events|
      ensures Keeps(cfg, Prefix(cfg, events, k), events[k])
    {
      assert events[k] in events;
    }
    PlannedUpTo(cfg, events, |events|);
    PrefixAll(cfg, events);
  }

  lemma EarnedLoad(cfg: Config, events: seq<Event>, r: string, md: ConnectorMetadata)
    requires Earned(cfg, events, r, md)
    ensures md.planMode != Recompute
    ensures NeverRaises(cfg, events) ==> AcceptedLoad(cfg, events, r, md)
  {
    hide Plan, PlannerFails;
    var i, j, q, plan :| Origin(cfg, events, i, j, r, q, plan) && BuiltFrom(md, r, q, plan);
    assert events[i] in events;
  }

  /** Every manifest found in the run is one that a worker can use. */
  predicate AllWellFormed(events: seq<Event>) {
    forall e :: e in events && e.Match? && e.q.found.Some? ==> WellFormed(e.q.found.value)
  }

  /** Every match names its request and its prefix. */
  predicate AllNamed(events: seq<Event>) {
    forall e :: e in events && e.Match? ==> e.q.request != "" && e.q.prefixKey != ""
  }

  /** In every run over well-formed manifests, whatever is handed out or loaded validates exactly when its request and
      prefix have names, so always if every match names them. */
  lemma RunValidates(cfg: Config, events: seq<Event>, r: string)
    requires AllWellFormed(events)
    ensures var s := Run(cfg, EMPTY, events);
            && (r in s.pending ==> Validate(s.pending[r]).0 == (r != "" && s.pending[r].prefixKey != ""))
            && (r in s.active ==> Validate(s.active[r]).0 == (r != "" && s.active[r].prefixKey != ""))
            && (AllNamed(events) ==>
                  && (r in s.pending ==> Validate(s.pending[r]) == (true, ""))
                  && (r in s.active ==> Validate(s.active[r]) == (true, "")))
  {
    hide Run, Earned, Validate, AllNamed, AllWellFormed;
    var s := Run(cfg, EMPTY, events);
    RunEarned(cfg, events);
    if r in s.pending { EarnedValidates(cfg, events, r, s.pending[r]); }
    if r in s.active { EarnedValidates(cfg, events, r, s.active[r]); }
  }

  lemma EarnedValidates(cfg: Config, events: seq<Event>, r: string, md: ConnectorMetadata)
    requires Earned(cfg, events, r, md) && AllWellFormed(events)
    ensures Validate(md).0 == (r != "" && md.prefixKey != "")
    ensures AllNamed(events) ==> Validate(md) == (true, "")
  {
    hide Accepts, PlannerFails, BuiltFrom, WellFormed, Validate;
    var i, j, q, plan :| Origin(cfg, events, i, j, r, q, plan) && BuiltFrom(md, r, q, plan);
    assert events[i] in events;
    BuiltValidates(r, q, plan, md);
  }

  lemma BuiltValidates(r: string, q: Query, plan: TransferPlan, md: ConnectorMetadata)
    requires q.found.Some? && BuiltFrom(md, r, q, plan) && WellFormed(q.found.value)
    ensures Validate(md).0 == (r != "" && md.prefixKey != "")
    ensures r != "" && q.prefixKey != "" ==> Validate(md) == (true, "")
  {
  }

  /** Every estimate the planner is asked with was built up from reported transfers, with some weight on the past or a
      last timed transfer that carried bytes. */
  ghost predicate AllEstimated(events: seq<Event>) {
    forall e :: e in events && e.Match? ==>
      exists alpha, samples ::
        0.0 <= alpha <= 1.0 && e.q.estimate == Planner.Run(alpha, samples) && (alpha < 1.0 || LastCarried(samples))
  }

  /** Then the planner never raises. */
  lemma EstimatedNeverRaises(cfg: Config, events: seq<Event>)
    requires AllEstimated(events)
    ensures NeverRaises(cfg, events)
  {
    hide PlannerFails, Planner.Run;
    forall e | e in events && e.Match?
      ensures !PlannerFails(cfg, e.q)
    {
      var alpha, samples :|
        0.0 <= alpha <= 1.0 && e.q.estimate == Planner.Run(alpha, samples) && (alpha < 1.0 || LastCarried(samples));
      BandwidthPositive(alpha, samples);
      PlannerFailsIff(cfg, e.q);
    }
  }

  /** In every run metadata is available exactly for the requests that are planned and hold a plan, so a missed
      request, and one set to recompute, gets none; if no match spoils a planned request, that is for all planned
      requests. */
  lemma MissGetsNoMetadata(cfg: Config, events: seq<Event>, r: string)
    ensures var s := Run(cfg, EMPTY, events);
            && (RequestMetadata(s.states, r).Some? <==>
                  r in s.states && s.states[r].status == HitPlanned && s.states[r].plan.Some?)
            && (RequestMetadata(s.states, r).Some? ==> RequestMetadata(s.states, r).value.planMode != Recompute)
            && ((forall k :: 0 <= k < |events| ==> Keeps(cfg, Prefix(cfg, events, k), events[k])) ==>
                  (RequestMetadata(s.states, r).Some? <==> r in s.states && s.states[r].status == HitPlanned))
  {
    hide Run, BuildMetadata, Plan;
    var s := Run(cfg, EMPTY, events);
    RunEarned(cfg, events);
    assert r in s.states ==> StateEarned(cfg, events, r, s.states[r]);
    BuiltWhenPlanned(s.states, r);
    if forall k :: 0 <= k < |events| ==> Keeps(cfg, Prefix(cfg, events, k), events[k]) {
      PlannedUpTo(cfg, events, |events|);
      PrefixAll(cfg, events);
      MetadataIffPlanned(cfg, s.states, r);
    }
  }

  lemma BuiltWhenPlanned(states: States, r: string)
    requires r in states && states[r].status == HitPlanned ==> states[r].manifest.Some?
    ensures RequestMetadata(states, r).Some? <==> r in states && states[r].status == HitPlanned && states[r].plan.Some?
    ensures RequestMetadata(states, r).Some? ==> RequestMetadata(states, r).value.planMode == states[r].plan.value.mode
  {
  }

  lemma AcceptedIsKept(cfg: Config, q: Query)
    requires NeedsLookup(cfg, map[], q) && q.found.Some? && PlanOf(cfg, q).Ok? && PlanOf(cfg, q).value.mode != Recompute
    ensures var one := Prepared(cfg, map[], q).1;
            && q.request in one && MarkedDone(one, q.request)[q.request].plan == Some(PlanOf(cfg, q).value)
            && MarkedDone(one, q.request)[q.request].status == Done
  {
    hide Plan;
  }

  /** How a request comes to be loaded under a plan its manifest never got: it is matched and planned, finishes, and is
      matched again to another manifest while the planner raises. */
  lemma {:induction false} StalePlanServed(cfg: Config, first: Query, second: Query)
    requires first.request == second.request && NeedsLookup(cfg, map[], first)
    requires first.found.Some? && PlanOf(cfg, first).Ok? && PlanOf(cfg, first).value.mode != Recompute
    requires second.prompt != [] && |second.prompt| >= cfg.settings.minPrefixTokens && PlannerFails(cfg, second)
    ensures var r := first.request;
            var s := Run(cfg, EMPTY, [Match(first), Finish(r), Match(second), BuildMeta(r)]);
            && r in s.pending && s.pending[r].planMode == PlanOf(cfg, first).value.mode
            && s.pending[r].criticalObjectId == second.found.value.criticalObjectId
            && s.pending[r].matchedTokens == second.found.value.matchedTokens
  {
    var r := first.request;
    var done := MarkedDone(Prepared(cfg, map[], first).1, r);
    AcceptedIsKept(cfg, first);
    FailedPlannerLeavesHit(cfg, done, second);
    hide Run, Step, PlanOf, PlannerFails, RequestMetadata, MarkedDone, NeedsLookup, Prepared;
    FourSteps(cfg, Match(first), Finish(r), Match(second), BuildMeta(r));
    var s1 := Step(cfg, EMPTY, Match(first));
    var s2 := Step(cfg, s1, Finish(r));
    StatesAfter(cfg, EMPTY, first, r);
    StatesAfter(cfg, s1, first, r);
    StatesAfter(cfg, s2, second, r);
    StatesAfter(cfg, Step(cfg, s2, Match(second)), second, r);
  }

  lemma {:induction false} FourSteps(cfg: Config, a: Event, b: Event, c: Event, d: Event)
    ensures Run(cfg, EMPTY, [a, b, c, d]) == Step(cfg, Step(cfg, Step(cfg, Step(cfg, EMPTY, a), b), c), d)
  {
    hide Step;
    assert [a, b, c, d][..3] == [a, b, c] && [a, b, c][..2] == [a, b] && [a, b][..1] == [a] && [a][..0] == [];
    assert Run(cfg, EMPTY, [a]) == Step(cfg, EMPTY, a);
    assert Run(cfg, EMPTY, [a, b]) == Step(cfg, Run(cfg, EMPTY, [a]), b);
    assert Run(cfg, EMPTY, [a, b, c]) == Step(cfg, Run(cfg, EMPTY, [a, b]), c);
  }

  /** What matching, finishing and building metadata do to the request states and the pending metadata. */
  lemma StatesAfter(cfg: Config, s: State, q: Query, r: string)
    ensures Step(cfg, s, Match(q)).states == Prepared(cfg, s.states, q).1
    ensures Step(cfg, s, Finish(r)).states == MarkedDone(s.states, r)
    ensures RequestMetadata(s.states, r).Some? ==>
              var pending := Step(cfg, s, BuildMeta(r)).pending;
              r in pending && pending[r] == RequestMetadata(s.states, r).value
  {
    hide Prepared, RequestMetadata;
  }
}
