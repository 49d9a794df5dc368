/** The connector's lifecycle methods over the scheduler side and the worker side, one method call at a time. */
module Connector {
  import opened Common
  import opened TransferTypes
  import opened Scheduler
  import opened Int8Codec
  import SS = SaveSession

  datatype LoadResult = LoadResult(success: bool, loadedTokens: int, errorCode: string)

  /** Everything the connector and its two sides hold. */
  datatype State = State(
    states: States,
    pending: map<string, ConnectorMetadata>,
    results: map<string, LoadResult>,
    finished: seq<string>,
    active: map<string, ConnectorMetadata>,
    loaded: map<string, seq<Tensor>>,
    futures: set<string>,
    sessions: map<string, SS.Session>)

  /** One lifecycle call, with what the services it calls answer. */
  datatype Event =
    | Match(q: Query)
    | Alloc(r: string, blocks: seq<int>)
    | BuildMeta(r: string)
    | WorkerReport(r: string, result: Option<LoadResult>)
    | StartLoad(r: string, kvs: Option<seq<Tensor>>)              // None: the fetch or the decoding raised
    | SaveLayer(r: string, name: string, kv: Option<Tensor>)      // None: the extraction raised
    | Finish(r: string)
    | GetFinished
    | Collect

  function DefaultSession(cfg: Config): SS.Session { SS.Opened("temp_key", 0, [], cfg.numLayers) }

  predicate WantsRefinement(md: ConnectorMetadata) {
    md.needRefinement && md.refinementObjectId.Some? && md.refinementObjectId.value != ""
  }

  /** WorkerSide.start_load_kv for metadata md. */
  function LoadStarted(s: State, md: ConnectorMetadata, kvs: Option<seq<Tensor>>): State {
    var r := md.requestId;
    if kvs.None? then s.(active := s.active - {r})
    else
      s.(active := s.active[r := md],
         loaded := s.loaded[r := kvs.value],
         futures := if WantsRefinement(md) then s.futures + {r} else s.futures)
  }

  function LayerSaved(cfg: Config, s: State, r: string, name: string, kv: Option<Tensor>): State {
    var session := if r in s.sessions then s.sessions[r] else DefaultSession(cfg);
    var op := if kv.Some? then SS.AddLayer(name, kv.value) else SS.Abort("extraction failed");
    s.(sessions := s.sessions[r := SS.Step(session, op).1])
  }

  function Finished(s: State, r: string): State {
    s.(states := MarkedDone(s.states, r),
       pending := s.pending - {r},
       results := s.results - {r},
       active := s.active - {r},
       loaded := s.loaded - {r},
       futures := s.futures - {r},
       sessions := s.sessions - {r},
       finished := s.finished + [r])
  }

  function Step(cfg: Config, s: State, e: Event): State {
    match e
    case Match(q) => s.(states := Prepared(cfg, s.states, q).1)
    case Alloc(r, blocks) => if blocks == [] then s else s.(states := Bound(s.states, r, blocks))
    case BuildMeta(r) =>
      var md := RequestMetadata(s.states, r);
      if md.Some? then s.(pending := s.pending[r := md.value]) else s
    case WorkerReport(r, result) => if result.Some? then s.(results := s.results[r := result.value]) else s
    case StartLoad(r, kvs) => if r == "" || r !in s.pending then s else LoadStarted(s, s.pending[r], kvs)
    case SaveLayer(r, name, kv) => if r == "" then s else LayerSaved(cfg, s, r, name, kv)
    case Finish(r) => Finished(s, r)
    case GetFinished => s.(finished := [])
    case Collect => s.(states := Unfinished(s.states))
  }

  class WorkerSide {
    const cfg: Config
    var active: map<string, ConnectorMetadata>
    var loaded: map<string, seq<Tensor>>
    var futures: set<string>
    var sessions: map<string, SS.Session>

    constructor (cfg: Config)
      ensures this.cfg == cfg && active == map[] && loaded == map[] && futures == {} && sessions == map[]
    {
      this.cfg := cfg;
      active, loaded, futures, sessions := map[], map[], {}, map[];
    }

    method StartLoadKv(md: ConnectorMetadata, kvs: Option<seq<Tensor>>) returns (success: bool)
      modifies this
      ensures sessions == old(sessions) && (success <==> kvs.Some?)
      ensures forall s: State ::
        s.active == old(active) && s.loaded == old(loaded) && s.futures == old(futures) ==>
          LoadStarted(s, md, kvs) == s.(active := active, loaded := loaded, futures := futures)
      ensures active == if success then old(active)[md.requestId := md] else old(active) - {md.requestId}
      ensures loaded == if success then old(loaded)[md.requestId := kvs.value] else old(loaded)
      ensures futures == if success && md.needRefinement
                            && md.refinementObjectId.Some? && md.refinementObjectId.value != ""
                         then old(futures) + {md.requestId} else old(futures)
    {
      active := active[md.requestId := md];
      if kvs.None? {
        active := active - {md.requestId};
        assert active == old(active) - {md.requestId};
        return false;
      }
      loaded := loaded[md.requestId := kvs.value];
      if WantsRefinement(md) {
        futures := futures + {md.requestId};
      }
      success := true;
    }

    method SaveKvLayer(name: string, kv: Option<Tensor>, r: string)
      modifies this
      ensures active == old(active) && loaded == old(loaded) && futures == old(futures)
      ensures forall s: State :: s.sessions == old(sessions) ==>
                LayerSaved(cfg, s, r, name, kv) == s.(sessions := sessions)
      ensures sessions.Keys == old(sessions).Keys + {r}
      ensures forall x :: x in old(sessions) && x != r ==> sessions[x] == old(sessions)[x]
      ensures var session := if r in old(sessions) then old(sessions)[r]
                             else SS.Session("temp_key", 0, [], cfg.numLayers, map[], false, false, None);
              if kv.Some? then sessions[r] == SS.Step(session, SS.AddLayer(name, kv.value)).1
              else sessions[r] == session.(aborted := true, abortReason := Some("extraction failed"))
    {
      if r !in sessions {
        sessions := sessions[r := DefaultSession(cfg)];
      }
      var op := if kv.Some? then SS.AddLayer(name, kv.value) else SS.Abort("extraction failed");
      sessions := sessions[r := SS.Step(sessions[r], op).1];
      assert sessions == old(sessions)[r := sessions[r]];
    }

    method RequestFinished(r: string)
      modifies this
      ensures active == old(active) - {r} && loaded == old(loaded) - {r}
      ensures futures == old(futures) - {r} && sessions == old(sessions) - {r}
    {
      if r in active { active := active - {r}; }
      if r in loaded { loaded := loaded - {r}; }
      if r in futures { futures := futures - {r}; }
      if r in sessions { sessions := sessions - {r}; }
      assert r !in old(active) ==> old(active) - {r} == old(active);
      assert r !in old(loaded) ==> old(loaded) - {r} == old(loaded);
      assert r !in old(sessions) ==> old(sessions) - {r} == old(sessions);
    }
  }

  class DeadlinePrefixKVConnector {
    const cfg: Config
    const scheduler: SchedulerSide
    const worker: WorkerSide
    var pending: map<string, ConnectorMetadata>
    var results: map<string, LoadResult>
    var finished: seq<string>

    ghost predicate Valid() { scheduler.cfg == cfg && worker.cfg == cfg }

    function View(): State
      reads this, scheduler.manager, worker
    {
      State(scheduler.manager.states, pending, results, finished, worker.active, worker.loaded,
            worker.futures, worker.sessions)
    }

    constructor (cfg: Config)
      ensures Valid() && fresh(scheduler.manager) && fresh(worker) && this.cfg == cfg
      ensures View() == State(map[], map[], map[], [], map[], map[], {}, map[])
    {
      this.cfg := cfg;
      scheduler := new SchedulerSide(cfg);
      worker := new WorkerSide(cfg);
      pending, results, finished := map[], map[], [];
    }

    method GetNumNewMatchedTokens(q: Query) returns (n: int)
      requires Valid()
      modifies scheduler.manager
      ensures View() == Step(cfg, old(View()), Match(q))
      ensures var states := old(scheduler.manager.states);
              n == if q.prompt == [] || |q.prompt| < cfg.settings.minPrefixTokens then 0
                   else if q.request in states && states[q.request].status in {HitPlanned, RecomputeStatus}
                   then states[q.request].matchedTokens
                   else if Accepted(cfg, q) && q.found.value.matchedTokens > q.computedTokens
                   then q.found.value.matchedTokens - q.computedTokens
                   else 0
    {
      var r := scheduler.PrepareRequestState(q);
      n := if r.Ok? then r.value else 0;
    }

    method UpdateStateAfterAlloc(r: string, blocks: seq<int>)
      requires Valid()
      modifies scheduler.manager
      ensures View() == Step(cfg, old(View()), Alloc(r, blocks))
      ensures scheduler.manager.states ==
              if blocks != [] && r in old(scheduler.manager.states)
              then old(scheduler.manager.states)[r := old(scheduler.manager.states)[r].(allocatedBlockIds := blocks)]
              else old(scheduler.manager.states)
    {
      if blocks != [] {
        scheduler.BindAllocatedBlocks(r, blocks);
      }
    }

    method BuildConnectorMeta(r: string) returns (md: Option<ConnectorMetadata>)
      requires Valid()
      modifies this`pending
      ensures View() == Step(cfg, old(View()), BuildMeta(r)) && md == RequestMetadata(old(View()).states, r)
      ensures pending == if md.Some? then old(pending)[r := md.value] else old(pending)
    {
      md := scheduler.BuildRequestMetadata(r);
      if md.Some? {
        pending := pending[r := md.value];
      }
    }

    method UpdateConnectorOutput(r: string, result: Option<LoadResult>)
      requires Valid()
      modifies this`results
      ensures View() == Step(cfg, old(View()), WorkerReport(r, result))
      ensures results == if result.Some? then old(results)[r := result.value] else old(results)
    {
      if result.Some? {
        results := results[r := result.value];
      }
    }

    method StartLoadKv(r: string, kvs: Option<seq<Tensor>>)
      requires Valid()
      modifies worker
      ensures View() == Step(cfg, old(View()), StartLoad(r, kvs))
      ensures r == "" || r !in pending ==> View() == old(View())
      ensures r != "" && r in pending && kvs.Some? ==>
                worker.active == old(worker.active)[pending[r].requestId := pending[r]]
    {
      if r == "" || r !in pending { return; }
      var _ := worker.StartLoadKv(pending[r], kvs);
      assert LoadStarted(old(View()), pending[r], kvs) == View();
    }

    method SaveKvLayer(name: string, kv: Option<Tensor>, r: string)
      requires Valid()
      modifies worker
      ensures View() == Step(cfg, old(View()), SaveLayer(r, name, kv))
      ensures r == "" ==> View() == old(View())
    {
      hide SS.Step, DefaultSession;
      if r == "" { return; }
      worker.SaveKvLayer(name, kv, r);
      hide LayerSaved;
      assert LayerSaved(cfg, old(View()), r, name, kv) == View();
    }

    method RequestFinished(r: string)
      requires Valid()
      modifies this, scheduler.manager, worker
      ensures View() == Step(cfg, old(View()), Finish(r))
      ensures finished == old(finished) + [r] && r !in pending && r !in results
      ensures r !in worker.active && r !in worker.loaded && r !in worker.futures && r !in worker.sessions
    {
      scheduler.manager.MarkDone(r);
      if r in pending { pending := pending - {r}; }
      if r in results { results := results - {r}; }
      assert r !in old(pending) ==> old(pending) - {r} == old(pending);
      assert r !in old(results) ==> old(results) - {r} == old(results);
      worker.RequestFinished(r);
      finished := finished + [r];
    }

    method GetFinishedRequests() returns (ids: seq<string>)
      requires Valid()
      modifies this`finished
      ensures View() == Step(cfg, old(View()), GetFinished) && ids == old(finished) && finished == []
    {
      ids := finished;
      finished := [];
    }
  }
}
