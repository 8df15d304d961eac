/** One Writer run and one reconcile check as machines that are fed the answers of Core, the planner,
    the plugins and the clock one at a time. A transcript is the list of answers consumed so far; the
    machine is Stuck on an answer to a question it did not ask, so a transcript that reaches Done is
    exactly the conversation of that run. WriterExecutor proves that the imperative code converses
    like this. */
module WriterEngine {
  import opened Options
  import opened WriterTypes

  /** What the run computes by library code: SHA-256 versions, the ownership check (None is an error),
      the per-plugin runtime hashes, the epoch injection and Core's comment normalisation. */
  datatype Codec = Codec(
    version: Bytes -> Digest,
    owned: (Operation, Bytes, Bytes) -> Option<bool>,
    hashes: Bytes -> Option<map<PluginId, Digest>>,
    inject: (Bytes, nat) -> Option<(Bytes, map<PluginId, Digest>)>,
    persisted: Bytes -> Bytes)

  datatype Context = Context(codec: Codec, operation: Operation, maxVersionRetries: nat)

  /** `config` is None when the payload is empty or not valid base64. */
  datatype Proposal = Proposal(base: Digest, config: Option<Bytes>)

  /** Accepted is any 2xx, Rejected is 400 or 422, NotSent is a request that could not be built, and
      Ambiguous is everything else: another status, or a transport failure before or after Core acted. */
  datatype PutAnswer = Accepted | Rejected | NotSent | Ambiguous

  /** One request and its answer: `asked` is the version of the snapshot a planner was given, `id` the plugin
      whose status was asked for, `sent` the body of the PUT. */
  datatype Reply =
    | Config(raw: Option<Bytes>)
    | Planned(asked: Digest, proposal: Proposal)
    | PlanFailed(asked: Digest, code: ErrorCode)
    | Status(id: PluginId, status: Option<WorkerStatus>)
    | Epoch(epoch: Option<nat>)
    | Put(sent: Bytes, answer: PutAnswer)
    | Tick(timedOut: bool)
    | Refreshed(code: ErrorCode, version: Option<Digest>)

  /** The codes a planner conversation can end with. */
  predicate PlannerCode(code: ErrorCode) {
    code in {PlannerStalled, LoopbackTimeout, CoreUnavailable, InvalidRequest, ProviderCredentialUnavailable,
             ProviderFetchInvalid, ProviderFetchFailed, ProviderCatalogTooLarge}
  }

  /** The codes a model-info refresh can end with. */
  predicate RefreshCode(code: ErrorCode) {
    code in {NoCode, NotImplemented, CoreUnavailable, LoopbackTimeout, VersionConflict,
             CatalogKeyUnavailable, CatalogInvalid, CatalogTooLarge}
  }

  /** A proposal that passed every check before the PUT, with the bytes it was planned from and the
      bytes re-read under the engine's mutex. */
  datatype Plan = Plan(snapshot: Bytes, proposal: Bytes, current: Bytes, hashes: map<PluginId, Digest>)

  type Statuses = map<PluginId, WorkerStatus>
  type Hashes = map<PluginId, Digest>

  datatype Pc =
    | Snapshot(attempt: nat)
    | AwaitingPlan(attempt: nat, snapshot: Bytes)
    | Rereading(attempt: nat, snapshot: Bytes, proposal: Bytes)
    | Capturing(plan: Plan, pre: Statuses, i: nat)
    | DrawingEpoch(plan: Plan, pre: Statuses)
    | Putting(plan: Plan, pre: Statuses, adjusted: Bytes, expected: Hashes)
    | Salvaging(pre: Statuses, expected: Hashes)
    | Verifying(pre: Statuses, adjusted: Bytes, expected: Hashes)
    | Polling(pre: Statuses, expected: Hashes, version: Digest, i: nat)
    | Sleeping(pre: Statuses, expected: Hashes, version: Digest)
    | Refreshing
    | Done(outcome: Outcome)
    | Stuck

  function Failure(code: ErrorCode): Outcome {
    Outcome(Some(Failed), code, None, None, false, EMPTY_RECORD)
  }

  function Unchanged(version: Digest): Outcome {
    Outcome(Some(Succeeded), NoCode, Some(version), None, false, EMPTY_RECORD)
  }

  /** The outcome of a commit whose effect is not established, with the evidence reconcile needs. */
  function InDoubt(code: ErrorCode, version: Option<Digest>, pre: Statuses, expected: Hashes): Outcome {
    Outcome(Some(Uncertain), code, version, None, true, BlockRecord(None, code, version, pre, expected, false, None))
  }

  predicate Captured(status: Option<WorkerStatus>, hashes: Hashes, id: PluginId) {
    status.Some? && ValidWorkerStatus(status.value) && id in hashes && status.value.hash == Some(hashes[id])
  }

  /** One plugin has reconfigured onto the expected configuration without restarting. */
  predicate Converged(status: Option<WorkerStatus>, pre: Statuses, expected: Hashes, id: PluginId) {
    && status.Some? && ValidWorkerStatus(status.value)
    && id in pre && status.value.instance == pre[id].instance && status.value.seqNo > pre[id].seqNo
    && id in expected && status.value.hash == Some(expected[id])
  }

  predicate InstanceChanged(status: Option<WorkerStatus>, pre: Statuses, id: PluginId) {
    status.Some? && ValidWorkerStatus(status.value) && !(id in pre && status.value.instance == pre[id].instance)
  }

  // ---------- the run ----------

  function Begin(ctx: Context): Pc {
    if IsConfigWrite(ctx.operation) then Snapshot(0)
    else if ctx.operation == ModelInfo then Refreshing
    else Done(Failure(NotImplemented))
  }

  function Planned1(ctx: Context, attempt: nat, snapshot: Bytes, proposal: Proposal): Pc {
    if proposal.base != ctx.codec.version(snapshot) || proposal.config.None? then Done(Failure(InvalidRequest))
    else Rereading(attempt, snapshot, proposal.config.value)
  }

  /** The checks between the re-read and the first status request. */
  function Reread1(ctx: Context, attempt: nat, snapshot: Bytes, proposal: Bytes, current: Bytes): Pc {
    var version := ctx.codec.version(current);
    if version != ctx.codec.version(snapshot) then
      if attempt < ctx.maxVersionRetries then Snapshot(attempt + 1)
      else Done(Failure(VersionConflict).(version := Some(version)))
    else if current == proposal then Done(Unchanged(version))
    else
      match ctx.codec.owned(ctx.operation, current, proposal)
      case None => Done(Failure(InvalidRequest))
      case Some(changed) =>
        if !changed then Done(Unchanged(version))
        else
          match ctx.codec.hashes(current)
          case None => Done(Failure(InvalidRequest))
          case Some(hashes) => Capturing(Plan(snapshot, proposal, current, hashes), map[], 0)
  }

  function Capture1(plan: Plan, pre: Statuses, i: nat, status: Option<WorkerStatus>): Pc
    requires i < |PLUGIN_IDS|
  {
    var id := PLUGIN_IDS[i];
    if !Captured(status, plan.hashes, id) then Done(Failure(CoreUnavailable))
    else
      var next := pre[id := status.value];
      if i + 1 < |PLUGIN_IDS| then Capturing(plan, next, i + 1) else DrawingEpoch(plan, next)
  }

  function Epoch1(ctx: Context, plan: Plan, pre: Statuses, epoch: Option<nat>): Pc {
    if epoch.None? then Done(Failure(CoreUnavailable))
    else
      match ctx.codec.inject(plan.proposal, epoch.value)
      case None => Done(Failure(InvalidRequest))
      case Some(pair) => Putting(plan, pre, pair.0, pair.1)
  }

  function Put1(pc: Pc, answer: PutAnswer): Pc
    requires pc.Putting?
  {
    match answer
    case Accepted => Verifying(pc.pre, pc.adjusted, pc.expected)
    case Rejected => Done(Failure(InvalidConfig))
    case NotSent => Done(Failure(CoreUnavailable))
    case Ambiguous => Salvaging(pc.pre, pc.expected)
  }

  function Verify1(ctx: Context, pc: Pc, raw: Option<Bytes>): Pc
    requires pc.Verifying?
  {
    if raw.None? then Done(InDoubt(CommitVerificationFailed, None, pc.pre, pc.expected))
    else
      var version := ctx.codec.version(raw.value);
      if raw.value != ctx.codec.persisted(pc.adjusted) then
        Done(InDoubt(CommitVerificationFailed, Some(version), pc.pre, pc.expected))
      else Polling(pc.pre, pc.expected, version, 0)
  }

  function Poll1(pc: Pc, status: Option<WorkerStatus>): Pc
    requires pc.Polling? && pc.i < |PLUGIN_IDS|
  {
    var id := PLUGIN_IDS[pc.i];
    if InstanceChanged(status, pc.pre, id) then Done(InDoubt(PersistedRuntimeUncertain, Some(pc.version), pc.pre, pc.expected))
    else if !Converged(status, pc.pre, pc.expected, id) then Sleeping(pc.pre, pc.expected, pc.version)
    else if pc.i + 1 < |PLUGIN_IDS| then pc.(i := pc.i + 1)
    else Done(Outcome(Some(Succeeded), NoCode, Some(pc.version), None, true, EMPTY_RECORD))
  }

  function Step(ctx: Context, pc: Pc, reply: Reply): Pc {
    match pc
    case Snapshot(attempt) =>
      if !reply.Config? then Stuck
      else if reply.raw.None? then Done(Failure(CoreUnavailable))
      else AwaitingPlan(attempt, reply.raw.value)
    case AwaitingPlan(attempt, snapshot) =>
      if !(reply.Planned? || reply.PlanFailed?) || reply.asked != ctx.codec.version(snapshot) then Stuck
      else if reply.PlanFailed? && PlannerCode(reply.code) then Done(Failure(reply.code))
      else if reply.Planned? then Planned1(ctx, attempt, snapshot, reply.proposal)
      else Stuck
    case Rereading(attempt, snapshot, proposal) =>
      if !reply.Config? then Stuck
      else if reply.raw.None? then Done(Failure(CoreUnavailable))
      else Reread1(ctx, attempt, snapshot, proposal, reply.raw.value)
    case Capturing(plan, pre, i) =>
      if !reply.Status? || i >= |PLUGIN_IDS| || reply.id != PLUGIN_IDS[i] then Stuck else Capture1(plan, pre, i, reply.status)
    case DrawingEpoch(plan, pre) =>
      if !reply.Epoch? then Stuck else Epoch1(ctx, plan, pre, reply.epoch)
    case Putting(_, _, adjusted, _) =>
      if !reply.Put? || reply.sent != adjusted then Stuck else Put1(pc, reply.answer)
    case Salvaging(pre, expected) =>
      if !reply.Config? then Stuck
      else
        var version := if reply.raw.Some? then Some(ctx.codec.version(reply.raw.value)) else None;
        Done(InDoubt(CommitVerificationFailed, version, pre, expected))
    case Verifying(_, _, _) =>
      if !reply.Config? then Stuck else Verify1(ctx, pc, reply.raw)
    case Polling(_, _, _, i) =>
      if !reply.Status? || i >= |PLUGIN_IDS| || reply.id != PLUGIN_IDS[i] then Stuck else Poll1(pc, reply.status)
    case Sleeping(pre, expected, version) =>
      if !reply.Tick? then Stuck
      else if reply.timedOut then Done(InDoubt(PersistedRuntimeUncertain, Some(version), pre, expected))
      else Polling(pre, expected, version, 0)
    case Refreshing =>
      if reply.Refreshed? && RefreshCode(reply.code) then
        Done(Outcome(Some(if reply.code == NoCode then Succeeded else Failed), reply.code, reply.version, None, false, EMPTY_RECORD))
      else Stuck
    case Done(_) => Stuck
    case Stuck => Stuck
  }

  /** The state after a transcript. */
  function Run(ctx: Context, log: seq<Reply>): Pc
    decreases |log|
  {
    if log == [] then Begin(ctx) else Step(ctx, Run(ctx, log[..|log| - 1]), log[|log| - 1])
  }

  lemma RunStart(ctx: Context)
    ensures Run(ctx, []) == Begin(ctx)
  {
  }

  lemma RunAppend(ctx: Context, log: seq<Reply>, reply: Reply)
    ensures Run(ctx, log + [reply]) == Step(ctx, Run(ctx, log), reply)
  {
    assert (log + [reply])[..|log|] == log;
  }

  // ---------- what a transcript proves ----------

  predicate Answers(reply: Reply, answer: PutAnswer) {
    reply.Put? && reply.answer == answer
  }

  ghost predicate NoPut(log: seq<Reply>) {
    forall k :: 0 <= k < |log| ==> !log[k].Put?
  }

  /** The three answers before position `end` are the snapshot, the proposal planned from it, and the
      same version re-read; the ownership check allows the change between the last two. */
  ghost predicate PlannedAt(ctx: Context, log: seq<Reply>, end: int, plan: Plan) {
    && 3 <= end <= |log|
    && log[end - 3] == Config(Some(plan.snapshot))
    && log[end - 2] == Planned(ctx.codec.version(plan.snapshot), Proposal(ctx.codec.version(plan.snapshot), Some(plan.proposal)))
    && log[end - 1] == Config(Some(plan.current))
    && ctx.codec.version(plan.current) == ctx.codec.version(plan.snapshot)
    && plan.current != plan.proposal
    && ctx.codec.owned(ctx.operation, plan.current, plan.proposal) == Some(true)
    && ctx.codec.hashes(plan.current) == Some(plan.hashes)
  }

  /** From `start` on, `count` plugins in order reported the given statuses, each running the configuration about to be replaced. */
  ghost predicate CapturedAt(log: seq<Reply>, start: int, count: nat, pre: Statuses, hashes: Hashes) {
    && 0 <= start && start + count <= |log| && count <= |PLUGIN_IDS|
    && (forall j :: 0 <= j < count ==>
         && PLUGIN_IDS[j] in pre
         && log[start + j] == Status(PLUGIN_IDS[j], Some(pre[PLUGIN_IDS[j]]))
         && Captured(Some(pre[PLUGIN_IDS[j]]), hashes, PLUGIN_IDS[j]))
  }

  /** Everything that stands between a snapshot and the PUT at position k. */
  ghost predicate PutAt(ctx: Context, log: seq<Reply>, k: int, plan: Plan, pre: Statuses, adjusted: Bytes, expected: Hashes) {
    && 8 <= k < |log| && log[k].Put? && log[k].sent == adjusted
    && (forall j :: 0 <= j < |log| && j != k ==> !log[j].Put?)
    && PlannedAt(ctx, log, k - 5, plan)
    && CapturedAt(log, k - 5, 4, pre, plan.hashes)
    && log[k - 1].Epoch? && log[k - 1].epoch.Some?
    && ctx.codec.inject(plan.proposal, log[k - 1].epoch.value) == Some((adjusted, expected))
  }

  predicate ReportsConverged(reply: Reply, pre: Statuses, expected: Hashes, id: PluginId) {
    reply.Status? && reply.id == id && Converged(reply.status, pre, expected, id)
  }

  /** `count` plugins in order, ending the transcript before `end`, have converged. */
  ghost predicate ConvergedBefore(log: seq<Reply>, end: int, count: nat, pre: Statuses, expected: Hashes) {
    && 0 <= end - count && end <= |log| && count <= |PLUGIN_IDS|
    && (forall j :: 0 <= j < count ==> ReportsConverged(log[end - count + j], pre, expected, PLUGIN_IDS[j]))
  }

  /** The bytes re-read right after the accepted PUT are the ones Core was to persist. */
  ghost predicate VerifiedAt(ctx: Context, log: seq<Reply>, k: int, adjusted: Bytes) {
    && 0 <= k && k + 1 < |log|
    && log[k] == Put(adjusted, Accepted) && log[k + 1] == Config(Some(ctx.codec.persisted(adjusted)))
  }

  /** The PUT at k was accepted, its bytes were read back, and the transcript ends with one pass in which
      all four plugins reported the expected configuration on their old instance with a later sequence. */
  ghost predicate Proven(ctx: Context, log: seq<Reply>, k: int) {
    exists plan, pre, adjusted, expected ::
      && PutAt(ctx, log, k, plan, pre, adjusted, expected)
      && VerifiedAt(ctx, log, k, adjusted)
      && k + 2 <= |log| - 4
      && ConvergedBefore(log, |log|, 4, pre, expected)
  }

  /** A PUT that may have changed the configuration and whose effect the transcript does not establish. */
  ghost predicate Unproven(ctx: Context, log: seq<Reply>) {
    exists k :: 0 <= k < |log| && (Answers(log[k], Accepted) || Answers(log[k], Ambiguous)) && !Proven(ctx, log, k)
  }

  ghost predicate Sent(ctx: Context, log: seq<Reply>, k: int, pre: Statuses, adjusted: Bytes, expected: Hashes) {
    exists plan :: PutAt(ctx, log, k, plan, pre, adjusted, expected)
  }

  ghost predicate PollingAt(ctx: Context, log: seq<Reply>, pre: Statuses, expected: Hashes, version: Digest, i: nat, k: int, adjusted: Bytes) {
    && Sent(ctx, log, k, pre, adjusted, expected)
    && VerifiedAt(ctx, log, k, adjusted)
    && version == ctx.codec.version(ctx.codec.persisted(adjusted))
    && k + 2 <= |log| - i
    && ConvergedBefore(log, |log|, i, pre, expected)
  }

  predicate QuietOutcome(outcome: Outcome) {
    && outcome.code != CommitVerificationFailed && outcome.code != PersistedRuntimeUncertain
    && !outcome.changed && outcome.block == EMPTY_RECORD
  }

  predicate DoubtfulOutcome(outcome: Outcome, pre: Statuses, expected: Hashes) {
    && (outcome.code == CommitVerificationFailed || outcome.code == PersistedRuntimeUncertain)
    && outcome == InDoubt(outcome.code, outcome.version, pre, expected)
  }

  ghost predicate Ended(ctx: Context, log: seq<Reply>, outcome: Outcome) {
    || (NoPut(log) && QuietOutcome(outcome))
    || (exists k, pre, adjusted, expected :: Sent(ctx, log, k, pre, adjusted, expected)
          && (Answers(log[k], Rejected) || Answers(log[k], NotSent)) && QuietOutcome(outcome) && outcome.code != PlannerStalled)
    || (exists k, pre, adjusted, expected :: Sent(ctx, log, k, pre, adjusted, expected)
          && (Answers(log[k], Accepted) || Answers(log[k], Ambiguous)) && DoubtfulOutcome(outcome, pre, expected))
    || (exists k, pre, adjusted, expected :: PollingAt(ctx, log, pre, expected, ctx.codec.version(ctx.codec.persisted(adjusted)), 4, k, adjusted)
          && outcome == Outcome(Some(Succeeded), NoCode, Some(ctx.codec.version(ctx.codec.persisted(adjusted))), None, true, EMPTY_RECORD))
  }

  /** What each state of the machine knows about the transcript that led to it. */
  ghost predicate Invariant(ctx: Context, log: seq<Reply>, pc: Pc) {
    var n := |log|;
    match pc
    case Snapshot(_) => NoPut(log)
    case AwaitingPlan(_, snapshot) => NoPut(log) && n >= 1 && log[n - 1] == Config(Some(snapshot))
    case Rereading(_, snapshot, proposal) =>
      && NoPut(log) && n >= 2 && log[n - 2] == Config(Some(snapshot))
      && log[n - 1] == Planned(ctx.codec.version(snapshot), Proposal(ctx.codec.version(snapshot), Some(proposal)))
    case Capturing(plan, pre, i) =>
      NoPut(log) && i < 4 && PlannedAt(ctx, log, n - i, plan) && CapturedAt(log, n - i, i, pre, plan.hashes)
    case DrawingEpoch(plan, pre) =>
      NoPut(log) && PlannedAt(ctx, log, n - 4, plan) && CapturedAt(log, n - 4, 4, pre, plan.hashes)
    case Putting(plan, pre, adjusted, expected) =>
      && NoPut(log) && PlannedAt(ctx, log, n - 5, plan) && CapturedAt(log, n - 5, 4, pre, plan.hashes)
      && log[n - 1].Epoch? && log[n - 1].epoch.Some?
      && ctx.codec.inject(plan.proposal, log[n - 1].epoch.value) == Some((adjusted, expected))
    case Salvaging(pre, expected) =>
      n >= 1 && Answers(log[n - 1], Ambiguous) && exists k, adjusted :: k == n - 1 && Sent(ctx, log, k, pre, adjusted, expected)
    case Verifying(pre, adjusted, expected) =>
      n >= 1 && log[n - 1] == Put(adjusted, Accepted) && Sent(ctx, log, n - 1, pre, adjusted, expected)
    case Polling(pre, expected, version, i) =>
      i < 4 && exists k, adjusted :: PollingAt(ctx, log, pre, expected, version, i, k, adjusted)
    case Sleeping(pre, expected, version) =>
      exists k, adjusted :: PollingAt(ctx, log, pre, expected, version, 0, k, adjusted)
    case Refreshing => NoPut(log)
    case Done(outcome) => Ended(ctx, log, outcome)
    case Stuck => true
  }

  lemma SentExtends(ctx: Context, log: seq<Reply>, reply: Reply, k: int, pre: Statuses, adjusted: Bytes, expected: Hashes)
    requires Sent(ctx, log, k, pre, adjusted, expected) && !reply.Put?
    ensures Sent(ctx, log + [reply], k, pre, adjusted, expected)
  {
    var plan :| PutAt(ctx, log, k, plan, pre, adjusted, expected);
    assert PutAt(ctx, log + [reply], k, plan, pre, adjusted, expected);
  }

  /** Up to the PUT: the answers so far stay where they are. */
  lemma BeforePut(ctx: Context, log: seq<Reply>, pc: Pc, reply: Reply)
    requires Invariant(ctx, log, pc) && (pc.Snapshot? || pc.AwaitingPlan? || pc.Rereading? || pc.Refreshing?)
    ensures Invariant(ctx, log + [reply], Step(ctx, pc, reply))
  {
    var longer := log + [reply];
    assert longer[|log|] == reply;
    assert forall k :: 0 <= k < |log| ==> longer[k] == log[k];
    var next := Step(ctx, pc, reply);
    assert next != Stuck ==> NoPut(longer);
  }

  lemma CaptureExtends(log: seq<Reply>, reply: Reply, start: int, count: nat, pre: Statuses, id: PluginId, status: WorkerStatus, hashes: Hashes)
    requires CapturedAt(log, start, count, pre, hashes) && start + count == |log|
    requires count < |PLUGIN_IDS| && id == PLUGIN_IDS[count]
    requires reply == Status(id, Some(status)) && Captured(Some(status), hashes, id)
    ensures CapturedAt(log + [reply], start, count + 1, pre[id := status], hashes)
  {
  }

  lemma NoPutExtends(log: seq<Reply>, reply: Reply)
    requires NoPut(log) && !reply.Put?
    ensures NoPut(log + [reply])
  {
  }

  lemma PlannedExtends(ctx: Context, log: seq<Reply>, reply: Reply, end: int, plan: Plan)
    requires PlannedAt(ctx, log, end, plan)
    ensures PlannedAt(ctx, log + [reply], end, plan)
  {
  }

  lemma WhileCapturing(ctx: Context, log: seq<Reply>, pc: Pc, reply: Reply)
    requires Invariant(ctx, log, pc) && pc.Capturing?
    ensures Invariant(ctx, log + [reply], Step(ctx, pc, reply))
  {
    hide PlannedAt, CapturedAt, NoPut;
    var next := Step(ctx, pc, reply);
    if next != Stuck {
      NoPutExtends(log, reply);
    }
    if next.Capturing? || next.DrawingEpoch? {
      PlannedExtends(ctx, log, reply, |log| - pc.i, pc.plan);
      CaptureExtends(log, reply, |log| - pc.i, pc.i, pc.pre, PLUGIN_IDS[pc.i], reply.status.value, pc.plan.hashes);
    }
  }

  lemma WhileDrawing(ctx: Context, log: seq<Reply>, pc: Pc, reply: Reply)
    requires Invariant(ctx, log, pc) && pc.DrawingEpoch?
    ensures Invariant(ctx, log + [reply], Step(ctx, pc, reply))
  {
    var longer := log + [reply];
    assert longer[|log|] == reply;
    assert forall k :: 0 <= k < |log| ==> longer[k] == log[k];
    assert Step(ctx, pc, reply) != Stuck ==> NoPut(longer);
  }

  lemma AtSend(ctx: Context, log: seq<Reply>, pc: Pc, reply: Reply)
    requires Invariant(ctx, log, pc) && pc.Putting?
    ensures Invariant(ctx, log + [reply], Step(ctx, pc, reply))
  {
    if reply.Put? && reply.sent == pc.adjusted {
      var longer := log + [reply];
      assert longer[|log|] == reply;
      assert forall k :: 0 <= k < |log| ==> longer[k] == log[k];
      assert PutAt(ctx, longer, |log|, pc.plan, pc.pre, pc.adjusted, pc.expected);
      assert Sent(ctx, longer, |log|, pc.pre, pc.adjusted, pc.expected);
    }
  }

  lemma AfterSend(ctx: Context, log: seq<Reply>, pc: Pc, reply: Reply)
    requires Invariant(ctx, log, pc) && (pc.Salvaging? || pc.Verifying?)
    ensures Invariant(ctx, log + [reply], Step(ctx, pc, reply))
  {
    if reply.Config? {
      var longer := log + [reply];
      var k, adjusted :| k == |log| - 1 && Sent(ctx, log, k, pc.pre, adjusted, pc.expected)
        && (pc.Verifying? ==> adjusted == pc.adjusted);
      assert longer[k] == log[k] && longer[k + 1] == reply;
      SentExtends(ctx, log, reply, k, pc.pre, adjusted, pc.expected);
      var next := Step(ctx, pc, reply);
      if next.Polling? {
        assert PollingAt(ctx, longer, pc.pre, pc.expected, next.version, 0, k, adjusted);
      }
    }
  }

  lemma ConvergedExtends(log: seq<Reply>, reply: Reply, count: nat, pre: Statuses, expected: Hashes)
    requires ConvergedBefore(log, |log|, count, pre, expected) && count < |PLUGIN_IDS|
    requires ReportsConverged(reply, pre, expected, PLUGIN_IDS[count])
    ensures ConvergedBefore(log + [reply], |log + [reply]|, count + 1, pre, expected)
  {
    var longer := log + [reply];
    forall j | 0 <= j < count + 1
      ensures ReportsConverged(longer[|longer| - (count + 1) + j], pre, expected, PLUGIN_IDS[j])
    {
      if j < count {
        assert ReportsConverged(log[|log| - count + j], pre, expected, PLUGIN_IDS[j]);
      }
    }
  }

  lemma PollingExtends(ctx: Context, log: seq<Reply>, reply: Reply, pre: Statuses, expected: Hashes, version: Digest, i: nat, k: int, adjusted: Bytes)
    requires PollingAt(ctx, log, pre, expected, version, i, k, adjusted) && !reply.Put?
    ensures PollingAt(ctx, log + [reply], pre, expected, version, 0, k, adjusted)
    ensures i < |PLUGIN_IDS| && ReportsConverged(reply, pre, expected, PLUGIN_IDS[i]) ==>
      PollingAt(ctx, log + [reply], pre, expected, version, i + 1, k, adjusted)
  {
    SentExtends(ctx, log, reply, k, pre, adjusted, expected);
    if i < |PLUGIN_IDS| && ReportsConverged(reply, pre, expected, PLUGIN_IDS[i]) {
      ConvergedExtends(log, reply, i, pre, expected);
    }
  }

  lemma PollingSent(ctx: Context, log: seq<Reply>, pre: Statuses, expected: Hashes, version: Digest, i: nat, k: int, adjusted: Bytes)
    requires PollingAt(ctx, log, pre, expected, version, i, k, adjusted)
    ensures Sent(ctx, log, k, pre, adjusted, expected) && 0 <= k < |log| && Answers(log[k], Accepted)
    ensures version == ctx.codec.version(ctx.codec.persisted(adjusted))
  {
    hide Sent, ConvergedBefore;
  }

  lemma WhilePolling(ctx: Context, log: seq<Reply>, pc: Pc, reply: Reply)
    requires Invariant(ctx, log, pc) && pc.Polling?
    ensures Invariant(ctx, log + [reply], Step(ctx, pc, reply))
  {
    if Step(ctx, pc, reply) != Stuck {
      var k, adjusted :| PollingAt(ctx, log, pc.pre, pc.expected, pc.version, pc.i, k, adjusted);
      hide PollingAt, Sent, NoPut, QuietOutcome;
      PollingExtends(ctx, log, reply, pc.pre, pc.expected, pc.version, pc.i, k, adjusted);
      PollingSent(ctx, log + [reply], pc.pre, pc.expected, pc.version, 0, k, adjusted);
    }
  }

  lemma WhileSleeping(ctx: Context, log: seq<Reply>, pc: Pc, reply: Reply)
    requires Invariant(ctx, log, pc) && pc.Sleeping?
    ensures Invariant(ctx, log + [reply], Step(ctx, pc, reply))
  {
    if Step(ctx, pc, reply) != Stuck {
      var k, adjusted :| PollingAt(ctx, log, pc.pre, pc.expected, pc.version, 0, k, adjusted);
      hide PollingAt, Sent, NoPut, QuietOutcome;
      PollingExtends(ctx, log, reply, pc.pre, pc.expected, pc.version, 0, k, adjusted);
      PollingSent(ctx, log + [reply], pc.pre, pc.expected, pc.version, 0, k, adjusted);
    }
  }

  lemma StepInvariant(ctx: Context, log: seq<Reply>, pc: Pc, reply: Reply)
    requires Invariant(ctx, log, pc)
    ensures Invariant(ctx, log + [reply], Step(ctx, pc, reply))
  {
    match pc
    case Snapshot(_) => BeforePut(ctx, log, pc, reply);
    case AwaitingPlan(_, _) => BeforePut(ctx, log, pc, reply);
    case Rereading(_, _, _) => BeforePut(ctx, log, pc, reply);
    case Refreshing => BeforePut(ctx, log, pc, reply);
    case Capturing(_, _, _) => WhileCapturing(ctx, log, pc, reply);
    case DrawingEpoch(_, _) => WhileDrawing(ctx, log, pc, reply);
    case Putting(_, _, _, _) => AtSend(ctx, log, pc, reply);
    case Salvaging(_, _) => AfterSend(ctx, log, pc, reply);
    case Verifying(_, _, _) => AfterSend(ctx, log, pc, reply);
    case Polling(_, _, _, _) => WhilePolling(ctx, log, pc, reply);
    case Sleeping(_, _, _) => WhileSleeping(ctx, log, pc, reply);
    case Done(_) =>
    case Stuck =>
  }

  lemma {:induction false} RunInvariant(ctx: Context, log: seq<Reply>)
    ensures Invariant(ctx, log, Run(ctx, log))
    decreases |log|
  {
    if log != [] {
      var before := log[..|log| - 1];
      assert log == before + [log[|log| - 1]];
      RunInvariant(ctx, before);
      StepInvariant(ctx, before, Run(ctx, before), log[|log| - 1]);
    }
  }

  // ---------- the theorems about one run ----------

  /** A run that ends sends at most one PUT, whatever the retry limit and whatever changes meanwhile, and
      only for a change planned from the version re-read just before and allowed by the ownership check. */
  lemma OnePut(ctx: Context, log: seq<Reply>)
    requires Run(ctx, log).Done?
    ensures forall j, k :: 0 <= j < |log| && 0 <= k < |log| && log[j].Put? && log[k].Put? ==> j == k
    ensures forall k :: 0 <= k < |log| && log[k].Put? ==>
      exists plan, pre, adjusted, expected :: PutAt(ctx, log, k, plan, pre, adjusted, expected)
  {
    RunInvariant(ctx, log);
    if !NoPut(log) {
      var k, pre, adjusted, expected :| Sent(ctx, log, k, pre, adjusted, expected);
      var plan :| PutAt(ctx, log, k, plan, pre, adjusted, expected);
    }
  }

  /** With a collision-free version the bytes the change was planned from are the bytes it replaces. */
  lemma PlannedFromReread(ctx: Context, log: seq<Reply>, end: int, plan: Plan)
    requires forall a, b :: ctx.codec.version(a) == ctx.codec.version(b) ==> a == b
    requires PlannedAt(ctx, log, end, plan)
    ensures plan.snapshot == plan.current
  {
    assert ctx.codec.version(plan.snapshot) == ctx.codec.version(plan.current);
  }

  /** Reporting a change as done means it was proven. */
  lemma ReportedChangeProven(ctx: Context, log: seq<Reply>)
    requires Run(ctx, log).Done? && Run(ctx, log).outcome.changed && Run(ctx, log).outcome.state == Some(Succeeded)
    ensures exists k :: 0 <= k < |log| && Answers(log[k], Accepted) && Proven(ctx, log, k)
  {
    RunInvariant(ctx, log);
    var outcome := Run(ctx, log).outcome;
    var k, pre, adjusted, expected :|
      PollingAt(ctx, log, pre, expected, ctx.codec.version(ctx.codec.persisted(adjusted)), 4, k, adjusted);
    PassProves(ctx, log, pre, expected, k, adjusted);
  }

  /** The evidence a blocker carries: the four statuses reported before the PUT at position k. */
  ghost predicate EvidenceOf(ctx: Context, log: seq<Reply>, k: int, record: BlockRecord) {
    && 5 <= k < |log| && log[k].Put?
    && (forall j :: 0 <= j < |PLUGIN_IDS| ==>
         && PLUGIN_IDS[j] in record.preStatus
         && log[k - 5 + j] == Status(PLUGIN_IDS[j], Some(record.preStatus[PLUGIN_IDS[j]]))
         && ValidWorkerStatus(record.preStatus[PLUGIN_IDS[j]]))
  }

  /** A PUT without proof never passes silently: the run ends with a blocking code and hands over the
      statuses of all four plugins from before the PUT. */
  lemma UnprovenPutBlocks(ctx: Context, log: seq<Reply>)
    requires Run(ctx, log).Done? && Unproven(ctx, log)
    ensures var outcome := Run(ctx, log).outcome;
      && (outcome.code == CommitVerificationFailed || outcome.code == PersistedRuntimeUncertain)
      && exists k :: EvidenceOf(ctx, log, k, outcome.block)
  {
    RunInvariant(ctx, log);
    OnePut(ctx, log);
    var outcome := Run(ctx, log).outcome;
    forall k, pre, adjusted, expected
      | PollingAt(ctx, log, pre, expected, ctx.codec.version(ctx.codec.persisted(adjusted)), 4, k, adjusted)
      ensures 0 <= k < |log| && log[k].Put? && Proven(ctx, log, k)
    {
      PassProves(ctx, log, pre, expected, k, adjusted);
    }
    var k, pre, adjusted, expected :| Sent(ctx, log, k, pre, adjusted, expected) && DoubtfulOutcome(outcome, pre, expected);
    SentEvidence(ctx, log, k, pre, adjusted, expected, outcome);
  }

  lemma PassProves(ctx: Context, log: seq<Reply>, pre: Statuses, expected: Hashes, k: int, adjusted: Bytes)
    requires PollingAt(ctx, log, pre, expected, ctx.codec.version(ctx.codec.persisted(adjusted)), 4, k, adjusted)
    ensures 0 <= k < |log| && Answers(log[k], Accepted) && Proven(ctx, log, k)
  {
    var plan :| PutAt(ctx, log, k, plan, pre, adjusted, expected);
  }

  lemma SentEvidence(ctx: Context, log: seq<Reply>, k: int, pre: Statuses, adjusted: Bytes, expected: Hashes, outcome: Outcome)
    requires Sent(ctx, log, k, pre, adjusted, expected) && DoubtfulOutcome(outcome, pre, expected)
    ensures EvidenceOf(ctx, log, k, outcome.block)
  {
    var plan :| PutAt(ctx, log, k, plan, pre, adjusted, expected);
  }

  /** A planner that stalled never got as far as a PUT, so its blocker names no version. */
  lemma StalledBeforePut(ctx: Context, log: seq<Reply>)
    requires Run(ctx, log).Done? && Run(ctx, log).outcome.code == PlannerStalled
    ensures NoPut(log) && Run(ctx, log).outcome.block == EMPTY_RECORD
  {
    RunInvariant(ctx, log);
  }

  /** Runs of operations that may not write end quietly. */
  lemma {:induction false} OnlyWritesBlock(ctx: Context, log: seq<Reply>)
    requires !IsConfigWrite(ctx.operation)
    ensures Run(ctx, log).Done? ==> !IsBlockingCode(Run(ctx, log).outcome.code)
    ensures Run(ctx, log).Done? || Run(ctx, log).Stuck? || Run(ctx, log).Refreshing?
    ensures Run(ctx, log).Refreshing? ==> log == []
    decreases |log|
  {
    if log != [] {
      OnlyWritesBlock(ctx, log[..|log| - 1]);
    }
  }
}
