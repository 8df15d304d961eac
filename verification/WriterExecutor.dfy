/** The executor, the commit and the reconcile check as the imperative code they are. Core, the planner
    and the plugins answer anything at any time; every answer is recorded, and each method is proved to
    hold exactly the conversation of its machine. */
module WriterExecutor {
  import opened Options
  import opened WriterTypes
  import E = WriterEngine
  import C = WriterReconcile
  import R = WriterRegistry
  import WriterService

  /** 120 seconds of polling with at least 10 milliseconds between passes. */
  const MAX_PASSES: nat := 12000

  /** The other side of one run: each request is answered arbitrarily and the answer is written down. */
  class Conversation {
    ghost var log: seq<E.Reply>

    constructor ()
      ensures log == []
    {
      log := [];
    }

    method GetConfig() returns (raw: Option<Bytes>)
      modifies this
      ensures log == old(log) + [E.Config(raw)]
    {
      raw := *;
      log := log + [E.Config(raw)];
    }

    method PutConfig(raw: Bytes) returns (answer: E.PutAnswer)
      modifies this
      ensures log == old(log) + [E.Put(raw, answer)]
    {
      answer := *;
      log := log + [E.Put(raw, answer)];
    }

    method PluginStatus(id: PluginId) returns (status: Option<WorkerStatus>)
      modifies this
      ensures log == old(log) + [E.Status(id, status)]
    {
      status := *;
      log := log + [E.Status(id, status)];
    }

    /** A planner conversation ends with a proposal or with one of its error codes. */
    method PlanChange(version: Digest) returns (proposal: Option<E.Proposal>, code: ErrorCode)
      modifies this
      ensures proposal.Some? ==> log == old(log) + [E.Planned(version, proposal.value)]
      ensures proposal.None? ==> E.PlannerCode(code) && log == old(log) + [E.PlanFailed(version, code)]
    {
      proposal, code := *, *;
      if proposal.Some? {
        log := log + [E.Planned(version, proposal.value)];
      } else {
        if !E.PlannerCode(code) {
          code := CoreUnavailable;
        }
        log := log + [E.PlanFailed(version, code)];
      }
    }

    method NewEpoch() returns (epoch: Option<nat>)
      modifies this
      ensures log == old(log) + [E.Epoch(epoch)]
    {
      epoch := *;
      log := log + [E.Epoch(epoch)];
    }

    /** The pause between two convergence passes; the deadline may strike in any of them. */
    method Pause(passesLeft: nat) returns (timedOut: bool)
      modifies this
      ensures log == old(log) + [E.Tick(timedOut)]
      ensures passesLeft == 0 ==> timedOut
    {
      timedOut := *;
      timedOut := timedOut || passesLeft == 0;
      log := log + [E.Tick(timedOut)];
    }

    method RefreshModelInfo() returns (code: ErrorCode, version: Option<Digest>)
      modifies this
      ensures E.RefreshCode(code) && log == old(log) + [E.Refreshed(code, version)]
    {
      code, version := *, *;
      if !E.RefreshCode(code) {
        code := NoCode;
      }
      log := log + [E.Refreshed(code, version)];
    }
  }

  datatype CommitResult = CommitResult(
    state: RunState, code: ErrorCode, version: Option<Digest>, changed: bool,
    expectedHashes: E.Hashes, preStatus: E.Statuses, persistedVersion: Option<Digest>)

  function Failed1(code: ErrorCode): CommitResult {
    CommitResult(Failed, code, None, false, map[], map[], None)
  }

  function OutcomeOf(result: CommitResult): Outcome {
    Outcome(Some(result.state), result.code, result.version, None, result.changed,
      if result.code == PersistedRuntimeUncertain || result.code == CommitVerificationFailed
      then BlockRecord(None, result.code, result.persistedVersion, result.preStatus, result.expectedHashes, false, None)
      else EMPTY_RECORD)
  }

  // ---------- status capture, shared by commit and reconcile ----------

  /** Where a conversation stands after i statuses have been captured. */
  type Standing = (nat, E.Statuses, seq<E.Reply>) -> bool

  /** A captured status takes the conversation to the next plugin. */
  ghost predicate MovesAlong(at: Standing, hashes: E.Hashes) {
    forall i: nat, statuses, log, status ::
      i < |PLUGIN_IDS| && at(i, statuses, log) && E.Captured(status, hashes, PLUGIN_IDS[i]) ==>
        at(i + 1, statuses[PLUGIN_IDS[i] := status.value], log + [E.Status(PLUGIN_IDS[i], status)])
  }

  /** The conversation ended with a status that was not captured. */
  ghost predicate GaveUp(at: Standing, hashes: E.Hashes, log: seq<E.Reply>) {
    exists i: nat, statuses, status, before ::
      i < |PLUGIN_IDS| && at(i, statuses, before) && !E.Captured(status, hashes, PLUGIN_IDS[i]) && log == before + [E.Status(PLUGIN_IDS[i], status)]
  }

  /** Asks the plugins in order and gives up at the first that does not run the given configuration. */
  method CaptureStatus(talk: Conversation, hashes: E.Hashes, ghost at: Standing) returns (statuses: Option<E.Statuses>)
    requires at(0, map[], talk.log) && MovesAlong(at, hashes)
    modifies talk
    ensures statuses.Some? ==> at(|PLUGIN_IDS|, statuses.value, talk.log)
    ensures statuses.None? ==> GaveUp(at, hashes, talk.log)
  {
    hide E.Captured;
    var known: E.Statuses := map[];
    var i := 0;
    while i < |PLUGIN_IDS|
      invariant i <= |PLUGIN_IDS| && at(i, known, talk.log)
    {
      ghost var before := talk.log;
      var status := talk.PluginStatus(PLUGIN_IDS[i]);
      if !E.Captured(status, hashes, PLUGIN_IDS[i]) {
        return None;
      }
      CapturedIsSome(status, hashes, PLUGIN_IDS[i]);
      known := known[PLUGIN_IDS[i] := status.value];
      i := i + 1;
    }
    return Some(known);
  }

  lemma CapturedIsSome(status: Option<WorkerStatus>, hashes: E.Hashes, id: PluginId)
    requires E.Captured(status, hashes, id)
    ensures status.Some?
  {
  }

  ghost function CommitStanding(ctx: E.Context, plan: E.Plan): Standing {
    (i: nat, statuses: E.Statuses, log: seq<E.Reply>) => E.Run(ctx, log) == if i < |PLUGIN_IDS| then E.Capturing(plan, statuses, i) else E.DrawingEpoch(plan, statuses)
  }

  lemma CommitMovesAlong(ctx: E.Context, plan: E.Plan)
    ensures MovesAlong(CommitStanding(ctx, plan), plan.hashes)
  {
    var at := CommitStanding(ctx, plan);
    forall i: nat, statuses, log, status
      | i < |PLUGIN_IDS| && at(i, statuses, log) && E.Captured(status, plan.hashes, PLUGIN_IDS[i])
      ensures at(i + 1, statuses[PLUGIN_IDS[i] := status.value], log + [E.Status(PLUGIN_IDS[i], status)])
    {
      E.RunAppend(ctx, log, E.Status(PLUGIN_IDS[i], status));
    }
  }

  ghost function ReconcileStanding(codec: E.Codec, block: BlockRecord, raw: Bytes, hashes: E.Hashes): Standing {
    (i: nat, statuses: E.Statuses, log: seq<E.Reply>) => C.Run(codec, block, log) ==
      if i < |PLUGIN_IDS| then C.Capturing(raw, hashes, statuses, i)
      else if C.Acceptable(block, statuses) then C.Second(raw)
      else C.Refuse(Some(codec.version(raw)))
  }

  lemma ReconcileMovesAlong(codec: E.Codec, block: BlockRecord, raw: Bytes, hashes: E.Hashes)
    ensures MovesAlong(ReconcileStanding(codec, block, raw, hashes), hashes)
  {
    var at := ReconcileStanding(codec, block, raw, hashes);
    forall i: nat, statuses, log, status
      | i < |PLUGIN_IDS| && at(i, statuses, log) && E.Captured(status, hashes, PLUGIN_IDS[i])
      ensures at(i + 1, statuses[PLUGIN_IDS[i] := status.value], log + [E.Status(PLUGIN_IDS[i], status)])
    {
      hide C.Step, C.Acceptable, C.Run;
      C.CaptureStep(codec, block, raw, hashes, statuses, i, status);
      C.RunAppend(codec, block, log, E.Status(PLUGIN_IDS[i], status));
    }
  }

  // ---------- the commit ----------

  /** One pass over the four plugins. */
  method CheckConvergence(talk: Conversation, ghost ctx: E.Context, pre: E.Statuses, expected: E.Hashes, ghost version: Digest)
    returns (matched: bool, terminal: bool)
    requires E.Run(ctx, talk.log) == E.Polling(pre, expected, version, 0)
    modifies talk
    ensures E.Run(ctx, talk.log) ==
      if matched then E.Done(Outcome(Some(Succeeded), NoCode, Some(version), None, true, EMPTY_RECORD))
      else if terminal then E.Done(E.InDoubt(PersistedRuntimeUncertain, Some(version), pre, expected))
      else E.Sleeping(pre, expected, version)
  {
    hide E.Run;
    var i := 0;
    while i < |PLUGIN_IDS|
      invariant i <= |PLUGIN_IDS|
      invariant i < |PLUGIN_IDS| ==> E.Run(ctx, talk.log) == E.Polling(pre, expected, version, i)
      invariant i == |PLUGIN_IDS| ==>
        E.Run(ctx, talk.log) == E.Done(Outcome(Some(Succeeded), NoCode, Some(version), None, true, EMPTY_RECORD))
    {
      ghost var before := talk.log;
      var id := PLUGIN_IDS[i];
      var status := talk.PluginStatus(id);
      E.RunAppend(ctx, before, E.Status(id, status));
      if status.None? || !ValidWorkerStatus(status.value) {
        return false, false;
      }
      if id !in pre || status.value.instance != pre[id].instance {
        return false, true;
      }
      if status.value.seqNo <= pre[id].seqNo || id !in expected || status.value.hash != Some(expected[id]) {
        return false, false;
      }
      i := i + 1;
    }
    return true, false;
  }

  method AwaitConvergence(talk: Conversation, ghost ctx: E.Context, pre: E.Statuses, expected: E.Hashes, ghost version: Digest)
    returns (converged: bool)
    requires E.Run(ctx, talk.log) == E.Polling(pre, expected, version, 0)
    modifies talk
    ensures E.Run(ctx, talk.log) ==
      if converged then E.Done(Outcome(Some(Succeeded), NoCode, Some(version), None, true, EMPTY_RECORD))
      else E.Done(E.InDoubt(PersistedRuntimeUncertain, Some(version), pre, expected))
  {
    hide E.Run;
    var passesLeft := MAX_PASSES;
    while true
      invariant E.Run(ctx, talk.log) == E.Polling(pre, expected, version, 0)
      decreases passesLeft
    {
      var matched, terminal := CheckConvergence(talk, ctx, pre, expected, version);
      if matched {
        return true;
      }
      if terminal {
        return false;
      }
      ghost var before := talk.log;
      var timedOut := talk.Pause(passesLeft);
      E.RunAppend(ctx, before, E.Tick(timedOut));
      if timedOut {
        return false;
      }
      passesLeft := passesLeft - 1;
    }
  }

  /** From the PUT on. */
  method SendAndVerify(talk: Conversation, ctx: E.Context, ghost plan: E.Plan, pre: E.Statuses, adjusted: Bytes, expected: E.Hashes)
    returns (result: CommitResult)
    requires E.Run(ctx, talk.log) == E.Putting(plan, pre, adjusted, expected)
    modifies talk
    ensures E.Run(ctx, talk.log) == E.Done(OutcomeOf(result)) && result.code != VersionConflict
  {
    hide E.Run;
    ghost var log := talk.log;
    var answer := talk.PutConfig(adjusted);
    E.RunAppend(ctx, log, E.Put(adjusted, answer));
    match answer {
      case Rejected => return Failed1(InvalidConfig);
      case NotSent => return Failed1(CoreUnavailable);
      case Ambiguous =>
        result := CommitResult(Uncertain, CommitVerificationFailed, None, true, expected, pre, None);
        log := talk.log;
        var authoritative := talk.GetConfig();
        E.RunAppend(ctx, log, E.Config(authoritative));
        if authoritative.Some? {
          var version := Some(ctx.codec.version(authoritative.value));
          result := result.(version := version, persistedVersion := version);
        }
        return;
      case Accepted =>
    }
    log := talk.log;
    var authoritative := talk.GetConfig();
    E.RunAppend(ctx, log, E.Config(authoritative));
    result := CommitResult(Uncertain, CommitVerificationFailed, None, true, expected, pre, None);
    if authoritative.None? {
      return;
    }
    var version := ctx.codec.version(authoritative.value);
    if authoritative.value != ctx.codec.persisted(adjusted) {
      return result.(version := Some(version), persistedVersion := Some(version));
    }
    var converged := AwaitConvergence(talk, ctx, pre, expected, version);
    if !converged {
      return CommitResult(Uncertain, PersistedRuntimeUncertain, Some(version), true, expected, pre, Some(version));
    }
    return CommitResult(Succeeded, NoCode, Some(version), true, expected, map[], Some(version));
  }

  method CommitWithSettings(talk: Conversation, ctx: E.Context, ghost attempt: nat, ghost snapshot: Bytes, base: Digest, proposal: Bytes)
    returns (result: CommitResult)
    requires E.Run(ctx, talk.log) == E.Rereading(attempt, snapshot, proposal) && base == ctx.codec.version(snapshot)
    modifies talk
    ensures result.code == VersionConflict && attempt < ctx.maxVersionRetries ==>
      E.Run(ctx, talk.log) == E.Snapshot(attempt + 1)
    ensures !(result.code == VersionConflict && attempt < ctx.maxVersionRetries) ==>
      E.Run(ctx, talk.log) == E.Done(OutcomeOf(result))
  {
    hide E.Run;
    ghost var log := talk.log;
    var current := talk.GetConfig();
    E.RunAppend(ctx, log, E.Config(current));
    if current.None? {
      return Failed1(CoreUnavailable);
    }
    var version := ctx.codec.version(current.value);
    if version != base {
      return Failed1(VersionConflict).(version := Some(version));
    }
    if current.value == proposal {
      return Failed1(NoCode).(state := Succeeded, version := Some(version));
    }
    var changed := ctx.codec.owned(ctx.operation, current.value, proposal);
    if changed.None? {
      return Failed1(InvalidRequest);
    }
    if !changed.value {
      return Failed1(NoCode).(state := Succeeded, version := Some(version));
    }
    var hashes := ctx.codec.hashes(current.value);
    if hashes.None? {
      return Failed1(InvalidRequest);
    }
    ghost var plan := E.Plan(snapshot, proposal, current.value, hashes.value);
    result := CaptureAndSend(talk, ctx, plan, proposal, hashes.value);
  }

  /** The statuses before the PUT; without all four there is no commit. */
  method CaptureBeforePut(talk: Conversation, ghost ctx: E.Context, ghost plan: E.Plan, hashes: E.Hashes) returns (pre: Option<E.Statuses>)
    requires E.Run(ctx, talk.log) == E.Capturing(plan, map[], 0) && plan.hashes == hashes
    modifies talk
    ensures pre.Some? ==> E.Run(ctx, talk.log) == E.DrawingEpoch(plan, pre.value)
    ensures pre.None? ==> E.Run(ctx, talk.log) == E.Done(OutcomeOf(Failed1(CoreUnavailable)))
  {
    hide E.Run, E.Captured;
    ghost var at := CommitStanding(ctx, plan);
    CommitMovesAlong(ctx, plan);
    pre := CaptureStatus(talk, hashes, at);
    if pre.None? {
      ghost var i: nat, statuses, status, before :|
        i < |PLUGIN_IDS| && at(i, statuses, before) && !E.Captured(status, hashes, PLUGIN_IDS[i]) && talk.log == before + [E.Status(PLUGIN_IDS[i], status)];
      E.RunAppend(ctx, before, E.Status(PLUGIN_IDS[i], status));
    }
  }

  method CaptureAndSend(talk: Conversation, ctx: E.Context, ghost plan: E.Plan, proposal: Bytes, hashes: E.Hashes)
    returns (result: CommitResult)
    requires E.Run(ctx, talk.log) == E.Capturing(plan, map[], 0) && plan.proposal == proposal && plan.hashes == hashes
    modifies talk
    ensures E.Run(ctx, talk.log) == E.Done(OutcomeOf(result)) && result.code != VersionConflict
  {
    hide E.Run;
    var pre := CaptureBeforePut(talk, ctx, plan, hashes);
    if pre.None? {
      return Failed1(CoreUnavailable);
    }
    ghost var log := talk.log;
    var epoch := talk.NewEpoch();
    E.RunAppend(ctx, log, E.Epoch(epoch));
    if epoch.None? {
      return Failed1(CoreUnavailable);
    }
    var injected := ctx.codec.inject(proposal, epoch.value);
    if injected.None? {
      return Failed1(InvalidRequest);
    }
    result := SendAndVerify(talk, ctx, plan, pre.value, injected.value.0, injected.value.1);
  }

  // ---------- the executor ----------

  /** The retry loop. The outcome and the transcript are those of the run machine. */
  method ExecuteWithProgress(talk: Conversation, ctx: E.Context) returns (outcome: Outcome)
    requires talk.log == []
    modifies talk
    ensures E.Run(ctx, talk.log) == E.Done(outcome)
  {
    hide E.Run;
    E.RunStart(ctx);
    if ctx.operation == ModelInfo {
      var code, version := talk.RefreshModelInfo();
      E.RunAppend(ctx, [], E.Refreshed(code, version));
      return Outcome(Some(if code == NoCode then Succeeded else Failed), code, version, None, false, EMPTY_RECORD);
    }
    if !IsConfigWrite(ctx.operation) {
      return Outcome(Some(Failed), NotImplemented, None, None, false, EMPTY_RECORD);
    }
    var attempt := 0;
    while attempt <= ctx.maxVersionRetries
      invariant attempt <= ctx.maxVersionRetries
      invariant E.Run(ctx, talk.log) == E.Snapshot(attempt)
      decreases ctx.maxVersionRetries - attempt
    {
      ghost var log := talk.log;
      var raw := talk.GetConfig();
      E.RunAppend(ctx, log, E.Config(raw));
      if raw.None? {
        return Outcome(Some(Failed), CoreUnavailable, None, None, false, EMPTY_RECORD);
      }
      var version := ctx.codec.version(raw.value);
      log := talk.log;
      var proposal, code := talk.PlanChange(version);
      if proposal.None? {
        E.RunAppend(ctx, log, E.PlanFailed(version, code));
        return Outcome(Some(Failed), code, None, None, false, EMPTY_RECORD);
      }
      E.RunAppend(ctx, log, E.Planned(version, proposal.value));
      if proposal.value.base != version || proposal.value.config.None? {
        return Outcome(Some(Failed), InvalidRequest, None, None, false, EMPTY_RECORD);
      }
      var result := CommitWithSettings(talk, ctx, attempt, raw.value, version, proposal.value.config.value);
      if result.code == VersionConflict && attempt < ctx.maxVersionRetries {
        attempt := attempt + 1;
        continue;
      }
      return OutcomeOf(result);
    }
    assert false;
    return Outcome(Some(Failed), VersionConflict, None, None, false, EMPTY_RECORD);
  }

  // ---------- reconcile ----------

  method CheckIdle(talk: Conversation, codec: E.Codec, block: BlockRecord) returns (result: ReconcileResult)
    requires block.code == PlannerStalled && talk.log == []
    modifies talk
    ensures C.Run(codec, block, talk.log) == C.Over(result)
  {
    hide C.Run;
    C.RunStart(codec, block);
    var i := 0;
    while i < |C.PLANNERS|
      invariant i <= |C.PLANNERS|
      invariant C.Run(codec, block, talk.log) ==
        if i < |C.PLANNERS| then C.Idling(i) else C.Over(ReconcileResult(true, NoCode, None))
    {
      ghost var log := talk.log;
      var status := talk.PluginStatus(C.PLANNERS[i]);
      C.RunAppend(codec, block, log, E.Status(C.PLANNERS[i], status));
      if status.None? || !ValidWorkerStatus(status.value) || status.value.activePlan {
        return ReconcileResult(false, ReconcileFailed, None);
      }
      i := i + 1;
    }
    return ReconcileResult(true, NoCode, None);
  }

  method PlannersInactive(statuses: E.Statuses) returns (inactive: bool)
    ensures inactive <==> forall id :: id in C.PLANNERS ==> id in statuses && !statuses[id].activePlan
  {
    var i := 0;
    while i < |C.PLANNERS|
      invariant i <= |C.PLANNERS|
      invariant forall j :: 0 <= j < i ==> C.PLANNERS[j] in statuses && !statuses[C.PLANNERS[j]].activePlan
    {
      if C.PLANNERS[i] !in statuses || statuses[C.PLANNERS[i]].activePlan {
        assert C.PLANNERS[i] in C.PLANNERS;
        return false;
      }
      i := i + 1;
    }
    return true;
  }

  method AllMovedOn(block: BlockRecord, statuses: E.Statuses) returns (moved: bool)
    ensures moved <==> forall id :: id in PLUGIN_IDS ==> id in statuses && C.MovedOn(block, statuses[id], id)
  {
    var i := 0;
    while i < |PLUGIN_IDS|
      invariant i <= |PLUGIN_IDS|
      invariant forall j :: 0 <= j < i ==> PLUGIN_IDS[j] in statuses && C.MovedOn(block, statuses[PLUGIN_IDS[j]], PLUGIN_IDS[j])
    {
      var id := PLUGIN_IDS[i];
      assert id in PLUGIN_IDS;
      if id !in statuses || id !in block.preStatus {
        return false;
      }
      var current, before := statuses[id], block.preStatus[id];
      if block.restarted {
        if current.instance == before.instance {
          return false;
        }
      } else if current.instance != before.instance || current.seqNo <= before.seqNo {
        return false;
      }
      i := i + 1;
    }
    return true;
  }

  method ReconcileLocked(talk: Conversation, codec: E.Codec, block: BlockRecord) returns (result: ReconcileResult)
    requires talk.log == []
    modifies talk
    ensures C.Run(codec, block, talk.log) == C.Over(result)
  {
    hide C.Run;
    C.RunStart(codec, block);
    if block.code == PlannerStalled {
      result := CheckIdle(talk, codec, block);
      return result;
    }
    if block.code != StartupReconcileRequired && block.code != PersistedRuntimeUncertain && block.code != CommitVerificationFailed {
      return ReconcileResult(false, ReconcileFailed, None);
    }
    if (block.code == PersistedRuntimeUncertain || block.code == CommitVerificationFailed) && |block.preStatus| == 0 {
      return ReconcileResult(false, ReconcileFailed, None);
    }
    var raw := talk.GetConfig();
    C.RunAppend(codec, block, [], E.Config(raw));
    if raw.None? {
      return ReconcileResult(false, ReconcileFailed, None);
    }
    var version := codec.version(raw.value);
    var refused := ReconcileResult(false, ReconcileFailed, Some(version));
    if block.version.Some? && block.version.value != version {
      return refused;
    }
    var hashes := codec.hashes(raw.value);
    if hashes.None? {
      return refused;
    }
    result := SettleAgainst(talk, codec, block, raw.value, hashes.value);
  }

  /** The four statuses against the hashes of the configuration just read. */
  method CaptureForReconcile(talk: Conversation, ghost codec: E.Codec, ghost block: BlockRecord, ghost raw: Bytes, hashes: E.Hashes)
    returns (statuses: Option<E.Statuses>)
    requires C.Run(codec, block, talk.log) == C.Capturing(raw, hashes, map[], 0)
    modifies talk
    ensures C.Run(codec, block, talk.log) ==
      if statuses.Some? && C.Acceptable(block, statuses.value) then C.Second(raw) else C.Refuse(Some(codec.version(raw)))
  {
    hide C.Run, C.Step, C.Acceptable, E.Captured;
    ghost var at := ReconcileStanding(codec, block, raw, hashes);
    ReconcileMovesAlong(codec, block, raw, hashes);
    statuses := CaptureStatus(talk, hashes, at);
    if statuses.None? {
      ghost var i: nat, known, status, before :|
        i < |PLUGIN_IDS| && at(i, known, before) && !E.Captured(status, hashes, PLUGIN_IDS[i]) && talk.log == before + [E.Status(PLUGIN_IDS[i], status)];
      C.CaptureStep(codec, block, raw, hashes, known, i, status);
      C.RunAppend(codec, block, before, E.Status(PLUGIN_IDS[i], status));
    }
  }

  method SettleAgainst(talk: Conversation, codec: E.Codec, block: BlockRecord, raw: Bytes, hashes: E.Hashes) returns (result: ReconcileResult)
    requires C.Run(codec, block, talk.log) == C.Capturing(raw, hashes, map[], 0)
    modifies talk
    ensures C.Run(codec, block, talk.log) == C.Over(result)
  {
    hide C.Run;
    var version := codec.version(raw);
    var refused := ReconcileResult(false, ReconcileFailed, Some(version));
    var statuses := CaptureForReconcile(talk, codec, block, raw, hashes);
    if statuses.None? {
      return refused;
    }
    var inactive := PlannersInactive(statuses.value);
    if !inactive {
      return refused;
    }
    if |block.preStatus| != 0 {
      var moved := AllMovedOn(block, statuses.value);
      if !moved {
        return refused;
      }
    }
    ghost var log := talk.log;
    var again := talk.GetConfig();
    C.RunAppend(codec, block, log, E.Config(again));
    if again.None? || codec.version(again.value) != version {
      return refused;
    }
    return ReconcileResult(true, NoCode, Some(version));
  }

  /** The check and the conditional clear. Only evidence clears, and only the blocker it was gathered for. */
  method ReconcileAndClear(service: WriterService.Service, talk: Conversation, codec: E.Codec, block: BlockRecord)
    returns (result: ReconcileResult)
    requires service.Valid() && talk.log == []
    modifies talk, service`blocker, service`blockRecord, service`completed, service`statuses, service`runs
    ensures service.Valid()
    ensures result.cleared <==> C.Evidence(codec, block, talk.log) && R.Matches(old(service.State()), block, result.version)
    ensures service.State() == if result.cleared then R.ClearBlock(old(service.State())) else old(service.State())
  {
    result := ReconcileLocked(talk, codec, block);
    C.ClearsExactlyOnEvidence(codec, block, talk.log);
    if !result.cleared {
      return ReconcileResult(false, ReconcileFailed, result.version);
    }
    var cleared := service.ClearMatchingBlock(block, result.version);
    if !cleared {
      return ReconcileResult(false, ReconcileFailed, result.version);
    }
  }
}
