/** The vocabulary of the Writer: operations, run states, error codes and the records that pass
    between its queue, its executor and its reconcile check. */
module WriterTypes {
  import opened Options

  datatype Operation = AutoPull | MetadataSync | ModelInfo | Reconcile

  datatype RunState =
    | Queued | Planning | Fetching | Committing | Waiting | Reconciling
    | Succeeded | Failed | Uncertain | Blocked

  /** The empty error code of the source is NoCode. */
  datatype ErrorCode =
    | NoCode
    | NotImplemented | InvalidRequest | VersionConflict
    | CommitVerificationFailed | PersistedRuntimeUncertain
    | InvalidConfig
    | ProviderCredentialUnavailable | ProviderFetchInvalid | ProviderFetchFailed | ProviderCatalogTooLarge
    | CatalogKeyUnavailable | CatalogInvalid | CatalogTooLarge
    | CoreUnavailable | LoopbackTimeout
    | StartupReconcileRequired | PlannerStalled | ReconcileFailed

  datatype PluginId = SyncConfigWrite | AutoPullModels | ModelMetadataSync | ModelInfoCatalog

  const PLUGIN_IDS: seq<PluginId> := [SyncConfigWrite, AutoPullModels, ModelMetadataSync, ModelInfoCatalog]

  /** Identifiers are random 128-bit tokens and versions are SHA-256 digests; only equality matters. */
  type RunId = nat
  type Digest = nat
  type Bytes = string

  /** `instance` is None when the identifier does not decode to 16 bytes, `hash` is None when it is
      not 64 lowercase hexadecimal digits. */
  datatype WorkerStatus = WorkerStatus(instance: Option<nat>, seqNo: nat, hash: Option<Digest>, activePlan: bool)

  predicate ValidWorkerStatus(status: WorkerStatus) {
    status.instance.Some? && status.seqNo != 0 && status.hash.Some?
  }

  datatype Settings = Settings(
    autoPullInterval: nat, metadataSyncInterval: nat, modelInfoInterval: nat,
    maxVersionRetries: nat, configHash: Option<Digest>)

  datatype BlockRecord = BlockRecord(
    id: Option<RunId>, code: ErrorCode, version: Option<Digest>,
    preStatus: map<PluginId, WorkerStatus>, expectedHashes: map<PluginId, Digest>,
    restarted: bool, evidenceCaptured: Option<int>)

  const EMPTY_RECORD := BlockRecord(None, NoCode, None, map[], map[], false, None)

  /** `state` is None where the source leaves it empty. */
  datatype Outcome = Outcome(
    state: Option<RunState>, code: ErrorCode, version: Option<Digest>,
    configHash: Option<Digest>, changed: bool, block: BlockRecord)

  datatype ReconcileResult = ReconcileResult(cleared: bool, code: ErrorCode, version: Option<Digest>)

  datatype Job = Job(id: RunId, operation: Operation, settings: Settings)

  predicate IsConfigWrite(operation: Operation) {
    operation == AutoPull || operation == MetadataSync
  }

  /** The three outcome codes that install a blocker. */
  predicate IsBlockingCode(code: ErrorCode) {
    code == PlannerStalled || code == PersistedRuntimeUncertain || code == CommitVerificationFailed
  }

  function Interval(settings: Settings, operation: Operation): nat {
    match operation
    case AutoPull => settings.autoPullInterval
    case MetadataSync => settings.metadataSyncInterval
    case ModelInfo => settings.modelInfoInterval
    case Reconcile => 0
  }
}
