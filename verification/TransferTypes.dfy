/** The records that the scheduler, the planner, the manifest index and the worker pass around. */
module TransferTypes {
  import opened Common

  datatype PrefixManifest = PrefixManifest(
    prefixKey: string,
    matchedTokens: int,
    matchedBlocks: seq<int>,
    numLayers: int,
    createdAtMs: int,
    lastAccessMs: int,
    ttlS: int,
    criticalCodec: string,
    criticalNbytes: nat,
    criticalObjectId: string,
    refinementCodec: Option<string>,
    refinementNbytes: Option<nat>,
    refinementObjectId: Option<string>)

  datatype Mode = FullFp16 | CriticalInt8Only | CriticalInt8ThenFp16 | Recompute

  datatype TransferPlan = TransferPlan(
    matchedTokens: int,
    matchedBlocks: seq<int>,
    mode: Mode,
    criticalDeadlineMs: int,
    refineBudgetMs: int,
    allowRefineDrop: bool,
    reasonCode: string,
    estimatedCriticalBytes: nat,
    estimatedRefineBytes: nat)

  datatype ConnectorMetadata = ConnectorMetadata(
    requestId: string,
    prefixKey: string,
    planMode: Mode,
    matchedTokens: int,
    matchedBlocks: seq<int>,
    numLayers: int,
    criticalObjectId: string,
    criticalCodec: string,
    criticalNbytes: nat,
    refinementObjectId: Option<string>,
    refinementCodec: Option<string>,
    refinementNbytes: Option<nat>,
    needRefinement: bool,
    loadDeadlineMs: int,
    allocatedBlockIds: seq<int>)
}
