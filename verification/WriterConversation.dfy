/** Every conversation a run can have, request by request: who is asked what, which answers end the run, and with
    which outcome. A run ends exactly with one of these conversations. */
module WriterConversation {
  import opened Options
  import opened WriterTypes
  import opened WriterEngine

  /** The plugins in the order they are asked. */
  const FOUR: seq<PluginId> := [SyncConfigWrite, AutoPullModels, ModelMetadataSync, ModelInfoCatalog]

  const NO_EVIDENCE := BlockRecord(None, NoCode, None, map[], map[], false, None)

  // ---------- outcomes ----------

  /** Nothing was written, and this is why. */
  predicate Fails(outcome: Outcome, code: ErrorCode) {
    outcome == Outcome(Some(Failed), code, None, None, false, NO_EVIDENCE)
  }

  /** There was nothing to change in the configuration of this version. */
  predicate Rests(outcome: Outcome, version: Digest) {
    outcome == Outcome(Some(Succeeded), NoCode, Some(version), None, false, NO_EVIDENCE)
  }

  /** The change is stored as this version and runs everywhere. */
  predicate Settles(outcome: Outcome, version: Digest) {
    outcome == Outcome(Some(Succeeded), NoCode, Some(version), None, true, NO_EVIDENCE)
  }

  /** The PUT may have taken effect; the outcome carries what a later check needs. */
  predicate Doubts(outcome: Outcome, code: ErrorCode, version: Option<Digest>, pre: Statuses, expected: Hashes) {
    outcome == Outcome(Some(Uncertain), code, version, None, true, BlockRecord(None, code, version, pre, expected, false, None))
  }

  // ---------- answers of a plugin ----------

  predicate AsksFor(reply: Reply, id: PluginId) {
    reply.Status? && reply.id == id
  }

  predicate Readable(status: Option<WorkerStatus>) {
    status.Some? && status.value.instance.Some? && status.value.seqNo > 0 && status.value.hash.Some?
  }

  /** The plugin runs the configuration with these hashes. */
  predicate RunsIt(reply: Reply, id: PluginId, hashes: Hashes) {
    AsksFor(reply, id) && Readable(reply.status) && id in hashes && reply.status.value.hash == Some(hashes[id])
  }

  /** The plugin has been reconfigured since, without a restart, and runs what is expected. */
  predicate RunsNext(reply: Reply, id: PluginId, pre: Statuses, expected: Hashes) {
    && RunsIt(reply, id, expected) && id in pre
    && reply.status.value.instance == pre[id].instance && reply.status.value.seqNo > pre[id].seqNo
  }

  predicate Restarted(reply: Reply, id: PluginId, pre: Statuses) {
    AsksFor(reply, id) && Readable(reply.status) && (id !in pre || reply.status.value.instance != pre[id].instance)
  }

  // ---------- conversations, last part first ----------

  /** A pass over the plugins from plugin i on, and further passes after a pause, until one shows all four, a plugin
      has restarted or the time is up. */
  ghost predicate Polls(i: nat, pre: Statuses, expected: Hashes, version: Digest, log: seq<Reply>, outcome: Outcome)
    decreases |log|
  {
    if i >= 4 then log == [] && Settles(outcome, version)
    else
      && log != [] && AsksFor(log[0], FOUR[i])
      && (if RunsNext(log[0], FOUR[i], pre, expected) then Polls(i + 1, pre, expected, version, log[1..], outcome)
          else if Restarted(log[0], FOUR[i], pre) then
            |log| == 1 && Doubts(outcome, PersistedRuntimeUncertain, Some(version), pre, expected)
          else
            && |log| > 1 && log[1].Tick?
            && (if log[1].timedOut then |log| == 2 && Doubts(outcome, PersistedRuntimeUncertain, Some(version), pre, expected)
                else Polls(0, pre, expected, version, log[2..], outcome)))
  }

  /** From the PUT on. */
  ghost predicate Sends(codec: Codec, pre: Statuses, adjusted: Bytes, expected: Hashes, log: seq<Reply>, outcome: Outcome) {
    || (log == [Put(adjusted, Rejected)] && Fails(outcome, InvalidConfig))
    || (log == [Put(adjusted, NotSent)] && Fails(outcome, CoreUnavailable))
    || (|log| == 2 && log[0] == Put(adjusted, Ambiguous) && log[1].Config?
        && Doubts(outcome, CommitVerificationFailed, VersionOf(codec, log[1].raw), pre, expected))
    || (|log| == 2 && log[0] == Put(adjusted, Accepted) && log[1].Config? && log[1].raw != Some(codec.persisted(adjusted))
        && Doubts(outcome, CommitVerificationFailed, VersionOf(codec, log[1].raw), pre, expected))
    || (|log| > 2 && log[0] == Put(adjusted, Accepted) && log[1] == Config(Some(codec.persisted(adjusted)))
        && Polls(0, pre, expected, codec.version(codec.persisted(adjusted)), log[2..], outcome))
  }

  function VersionOf(codec: Codec, raw: Option<Bytes>): Option<Digest> {
    if raw.None? then None else Some(codec.version(raw.value))
  }

  ghost predicate Draws(codec: Codec, proposal: Bytes, pre: Statuses, log: seq<Reply>, outcome: Outcome) {
    || (log == [Epoch(None)] && Fails(outcome, CoreUnavailable))
    || (|log| > 0 && log[0].Epoch? && log[0].epoch.Some?
        && match codec.inject(proposal, log[0].epoch.value)
           case None => |log| == 1 && Fails(outcome, InvalidRequest)
           case Some((adjusted, expected)) => Sends(codec, pre, adjusted, expected, log[1..], outcome))
  }

  /** The statuses before the PUT, from plugin i on, with those already known. */
  ghost predicate Captures(codec: Codec, proposal: Bytes, hashes: Hashes, i: nat, pre: Statuses, log: seq<Reply>, outcome: Outcome)
    decreases |log|
  {
    if i >= 4 then Draws(codec, proposal, pre, log, outcome)
    else
      && log != [] && AsksFor(log[0], FOUR[i])
      && (if RunsIt(log[0], FOUR[i], hashes) then
            Captures(codec, proposal, hashes, i + 1, pre[FOUR[i] := log[0].status.value], log[1..], outcome)
          else |log| == 1 && Fails(outcome, CoreUnavailable))
  }

  /** The proposal meets the configuration read again; on the last chance a drift ends the run. */
  ghost predicate Commits(ctx: Context, lastChance: bool, version: Digest, proposal: Bytes, log: seq<Reply>, outcome: Outcome) {
    var codec := ctx.codec;
    && log != [] && log[0].Config?
    && match log[0].raw
       case None => |log| == 1 && Fails(outcome, CoreUnavailable)
       case Some(current) =>
         var owned, hashes := codec.owned(ctx.operation, current, proposal), codec.hashes(current);
         if codec.version(current) != version then
           |log| == 1 && lastChance
             && outcome == Outcome(Some(Failed), VersionConflict, Some(codec.version(current)), None, false, NO_EVIDENCE)
         else if current == proposal || owned == Some(false) then |log| == 1 && Rests(outcome, version)
         else if owned.None? || hashes.None? then |log| == 1 && Fails(outcome, InvalidRequest)
         else Captures(codec, proposal, hashes.value, 0, map[], log[1..], outcome)
  }

  predicate ConversationCode(code: ErrorCode) {
    || code == PlannerStalled || code == LoopbackTimeout || code == CoreUnavailable || code == InvalidRequest
    || code == ProviderCredentialUnavailable || code == ProviderFetchInvalid || code == ProviderFetchFailed
    || code == ProviderCatalogTooLarge
  }

  /** One attempt: the snapshot, the planner and the commit. */
  ghost predicate Attempts(ctx: Context, lastChance: bool, log: seq<Reply>, outcome: Outcome) {
    || (log == [Config(None)] && Fails(outcome, CoreUnavailable))
    || (|log| >= 2 && log[0].Config? && log[0].raw.Some?
        && var version := ctx.codec.version(log[0].raw.value);
           || (|log| == 2 && log[1].PlanFailed? && log[1].asked == version && ConversationCode(log[1].code) && Fails(outcome, log[1].code))
           || (log[1].Planned? && log[1].asked == version
               && (if log[1].proposal.base != version || log[1].proposal.config.None? then |log| == 2 && Fails(outcome, InvalidRequest)
                   else Commits(ctx, lastChance, version, log[1].proposal.config.value, log[2..], outcome))))
  }

  /** The three exchanges from position `at` on are an attempt whose configuration changed meanwhile. */
  ghost predicate Drifts(codec: Codec, log: seq<Reply>, at: nat) {
    && at + 3 <= |log| && log[at].Config? && log[at].raw.Some? && log[at + 1].Planned? && log[at + 2].Config? && log[at + 2].raw.Some?
    && var version := codec.version(log[at].raw.value);
       && log[at + 1].asked == version == log[at + 1].proposal.base && log[at + 1].proposal.config.Some?
       && codec.version(log[at + 2].raw.value) != version
  }

  /** n attempts that met a drift. */
  ghost predicate DriftsTimes(codec: Codec, log: seq<Reply>, n: nat) {
    3 * n <= |log| && forall i :: 0 <= i < n ==> Drifts(codec, log, 3 * i)
  }

  /** Attempts from this number on; all but the last met a drift. */
  ghost predicate Writes(ctx: Context, attempt: nat, log: seq<Reply>, outcome: Outcome) {
    exists n: nat {:trigger DriftsTimes(ctx.codec, log, n)} ::
      DriftsTimes(ctx.codec, log, n) && attempt + n <= ctx.maxVersionRetries
      && Attempts(ctx, attempt + n == ctx.maxVersionRetries, log[3 * n..], outcome)
  }

  predicate RefreshEnds(code: ErrorCode) {
    || code == NoCode || code == NotImplemented || code == CoreUnavailable || code == LoopbackTimeout || code == VersionConflict
    || code == CatalogKeyUnavailable || code == CatalogInvalid || code == CatalogTooLarge
  }

  ghost predicate Conversation(ctx: Context, log: seq<Reply>, outcome: Outcome) {
    match ctx.operation
    case AutoPull => Writes(ctx, 0, log, outcome)
    case MetadataSync => Writes(ctx, 0, log, outcome)
    case ModelInfo =>
      && |log| == 1 && log[0].Refreshed? && RefreshEnds(log[0].code)
      && outcome == Outcome(Some(if log[0].code == NoCode then Succeeded else Failed), log[0].code, log[0].version, None, false, NO_EVIDENCE)
    case Reconcile => log == [] && Fails(outcome, NotImplemented)
  }

  // ---------- the machine from any of its states ----------

  function From(ctx: Context, pc: Pc, log: seq<Reply>): Pc
    decreases |log|
  {
    if log == [] then pc else From(ctx, Step(ctx, pc, log[0]), log[1..])
  }

  lemma {:induction false} FromAppend(ctx: Context, pc: Pc, log: seq<Reply>, reply: Reply)
    ensures From(ctx, pc, log + [reply]) == Step(ctx, From(ctx, pc, log), reply)
    decreases |log|
  {
    hide Step;
    if log == [] {
      assert ([] + [reply])[1..] == [];
    } else {
      FromAppend(ctx, Step(ctx, pc, log[0]), log[1..], reply);
      assert (log + [reply])[1..] == log[1..] + [reply];
    }
  }

  lemma {:induction false} FromBegin(ctx: Context, log: seq<Reply>)
    ensures Run(ctx, log) == From(ctx, Begin(ctx), log)
    decreases |log|
  {
    hide Step, Begin;
    if log != [] {
      var before := log[..|log| - 1];
      FromBegin(ctx, before);
      FromAppend(ctx, Begin(ctx), before, log[|log| - 1]);
      assert before + [log[|log| - 1]] == log;
    }
  }

  ghost predicate Ends(ctx: Context, pc: Pc, log: seq<Reply>, outcome: Outcome) {
    From(ctx, pc, log) == Done(outcome)
  }

  lemma {:induction false} StaysStuck(ctx: Context, log: seq<Reply>)
    ensures From(ctx, Stuck, log) == Stuck
    decreases |log|
  {
    if log != [] {
      StaysStuck(ctx, log[1..]);
    }
  }

  /** What has ended goes no further. */
  lemma OverIsOver(ctx: Context, pc: Pc, log: seq<Reply>, outcome: Outcome)
    ensures pc.Done? ==> (Ends(ctx, pc, log, outcome) <==> log == [] && outcome == pc.outcome)
    ensures pc.Stuck? ==> !Ends(ctx, pc, log, outcome)
  {
    if log != [] {
      StaysStuck(ctx, log[1..]);
    }
    StaysStuck(ctx, log);
  }

  lemma FirstStep(ctx: Context, pc: Pc, log: seq<Reply>, outcome: Outcome)
    requires !pc.Done?
    ensures Ends(ctx, pc, log, outcome) <==> log != [] && Ends(ctx, Step(ctx, pc, log[0]), log[1..], outcome)
    ensures log != [] ==> var next := Step(ctx, pc, log[0]);
      && (next.Done? ==> (Ends(ctx, pc, log, outcome) <==> |log| == 1 && outcome == next.outcome))
      && (next.Stuck? ==> !Ends(ctx, pc, log, outcome))
  {
    hide Step;
    if log != [] {
      OverIsOver(ctx, Step(ctx, pc, log[0]), log[1..], outcome);
    }
  }

  // ---------- polling ----------

  /** One answer of the pass, written out. */
  lemma PollStep(ctx: Context, pre: Statuses, expected: Hashes, version: Digest, i: nat, reply: Reply)
    requires i < 4
    ensures var next := Step(ctx, Polling(pre, expected, version, i), reply);
      && (!AsksFor(reply, FOUR[i]) ==> next.Stuck?)
      && (RunsNext(reply, FOUR[i], pre, expected) ==>
           if i == 3 then next.Done? && Settles(next.outcome, version) else next == Polling(pre, expected, version, i + 1))
      && (AsksFor(reply, FOUR[i]) && !RunsNext(reply, FOUR[i], pre, expected) ==>
           if Restarted(reply, FOUR[i], pre) then
             next.Done? && Doubts(next.outcome, PersistedRuntimeUncertain, Some(version), pre, expected)
           else next == Sleeping(pre, expected, version))
  {
    assert FOUR == PLUGIN_IDS;
  }

  lemma PauseStep(ctx: Context, pre: Statuses, expected: Hashes, version: Digest, reply: Reply)
    ensures var next := Step(ctx, Sleeping(pre, expected, version), reply);
      if !reply.Tick? then next.Stuck?
      else if reply.timedOut then next.Done? && Doubts(next.outcome, PersistedRuntimeUncertain, Some(version), pre, expected)
      else next == Polling(pre, expected, version, 0)
  {
  }

  lemma OneOutcome(one: Outcome, other: Outcome, code: ErrorCode, version: Digest, option: Option<Digest>, pre: Statuses, expected: Hashes)
    ensures Settles(one, version) ==> (Settles(other, version) <==> one == other)
    ensures Rests(one, version) ==> (Rests(other, version) <==> one == other)
    ensures Fails(one, code) ==> (Fails(other, code) <==> one == other)
    ensures Doubts(one, code, option, pre, expected) ==> (Doubts(other, code, option, pre, expected) <==> one == other)
  {
  }

  lemma {:induction false} PollsExactly(ctx: Context, pre: Statuses, expected: Hashes, version: Digest, i: nat, log: seq<Reply>, outcome: Outcome)
    requires i < 4
    ensures Ends(ctx, Polling(pre, expected, version, i), log, outcome) <==> Polls(i, pre, expected, version, log, outcome)
    decreases |log|
  {
    var pc := Polling(pre, expected, version, i);
    FirstStep(ctx, pc, log, outcome);
    if log != [] {
      PollStep(ctx, pre, expected, version, i, log[0]);
      hide Step, RunsNext, Restarted, Settles, Doubts, Ends;
      if Step(ctx, pc, log[0]).Polling? {
        PollsExactly(ctx, pre, expected, version, i + 1, log[1..], outcome);
      } else if Step(ctx, pc, log[0]).Sleeping? {
        SleepsExactly(ctx, pre, expected, version, log[1..], outcome);
      } else if Step(ctx, pc, log[0]).Done? {
        OneOutcome(Step(ctx, pc, log[0]).outcome, outcome, PersistedRuntimeUncertain, version, Some(version), pre, expected);
      }
    }
  }

  lemma {:induction false} SleepsExactly(ctx: Context, pre: Statuses, expected: Hashes, version: Digest, log: seq<Reply>, outcome: Outcome)
    ensures Ends(ctx, Sleeping(pre, expected, version), log, outcome) <==>
      && log != [] && log[0].Tick?
      && (if log[0].timedOut then |log| == 1 && Doubts(outcome, PersistedRuntimeUncertain, Some(version), pre, expected)
          else Polls(0, pre, expected, version, log[1..], outcome))
    decreases |log|
  {
    var pc := Sleeping(pre, expected, version);
    FirstStep(ctx, pc, log, outcome);
    if log != [] {
      PauseStep(ctx, pre, expected, version, log[0]);
      hide Step, Doubts, Polls, Ends;
      if Step(ctx, pc, log[0]).Polling? {
        PollsExactly(ctx, pre, expected, version, 0, log[1..], outcome);
      } else if Step(ctx, pc, log[0]).Done? {
        OneOutcome(Step(ctx, pc, log[0]).outcome, outcome, PersistedRuntimeUncertain, version, Some(version), pre, expected);
      }
    }
  }

  // ---------- the PUT ----------

  /** Every answer to the PUT, and to the read that follows it. */
  lemma SendStep(ctx: Context, pc: Pc, reply: Reply)
    requires pc.Putting? || pc.Salvaging? || pc.Verifying?
    ensures var next := Step(ctx, pc, reply);
      match pc
      case Putting(_, pre, adjusted, expected) =>
        if reply == Put(adjusted, Rejected) then next.Done? && Fails(next.outcome, InvalidConfig)
        else if reply == Put(adjusted, NotSent) then next.Done? && Fails(next.outcome, CoreUnavailable)
        else if reply == Put(adjusted, Ambiguous) then next == Salvaging(pre, expected)
        else if reply == Put(adjusted, Accepted) then next == Verifying(pre, adjusted, expected)
        else next.Stuck?
      case Salvaging(pre, expected) =>
        if reply.Config? then next.Done? && Doubts(next.outcome, CommitVerificationFailed, VersionOf(ctx.codec, reply.raw), pre, expected)
        else next.Stuck?
      case Verifying(pre, adjusted, expected) =>
        if reply == Config(Some(ctx.codec.persisted(adjusted))) then
          next == Polling(pre, expected, ctx.codec.version(ctx.codec.persisted(adjusted)), 0)
        else if reply.Config? then next.Done? && Doubts(next.outcome, CommitVerificationFailed, VersionOf(ctx.codec, reply.raw), pre, expected)
        else next.Stuck?
  {
  }

  lemma SendsExactly(ctx: Context, plan: Plan, pre: Statuses, adjusted: Bytes, expected: Hashes, log: seq<Reply>, outcome: Outcome)
    ensures Ends(ctx, Putting(plan, pre, adjusted, expected), log, outcome) <==> Sends(ctx.codec, pre, adjusted, expected, log, outcome)
  {
    var pc := Putting(plan, pre, adjusted, expected);
    FirstStep(ctx, pc, log, outcome);
    if log != [] {
      SendStep(ctx, pc, log[0]);
      var next := Step(ctx, pc, log[0]);
      hide Step, Fails, Polls, Doubts, Ends;
      if next.Salvaging? || next.Verifying? {
        ReadBack(ctx, next, log[1..], outcome);
      } else if next.Done? {
        assert |log| == 1 ==> log == [log[0]];
        OneOutcome(next.outcome, outcome, if log[0].answer == Rejected then InvalidConfig else CoreUnavailable, 0, None, pre, expected);
      }
    }
  }

  /** The read after a PUT that was accepted or may have been. */
  lemma ReadBack(ctx: Context, pc: Pc, log: seq<Reply>, outcome: Outcome)
    requires pc.Salvaging? || pc.Verifying?
    ensures Ends(ctx, pc, log, outcome) <==>
      && log != [] && log[0].Config?
      && (if pc.Verifying? && log[0].raw == Some(ctx.codec.persisted(pc.adjusted)) then
            Polls(0, pc.pre, pc.expected, ctx.codec.version(ctx.codec.persisted(pc.adjusted)), log[1..], outcome)
          else |log| == 1 && Doubts(outcome, CommitVerificationFailed, VersionOf(ctx.codec, log[0].raw), pc.pre, pc.expected))
  {
    FirstStep(ctx, pc, log, outcome);
    if log != [] {
      SendStep(ctx, pc, log[0]);
      var next := Step(ctx, pc, log[0]);
      hide Step, Polls, Doubts, Ends;
      if next.Polling? {
        PollsExactly(ctx, pc.pre, pc.expected, next.version, 0, log[1..], outcome);
      } else if next.Done? {
        OneOutcome(next.outcome, outcome, CommitVerificationFailed, 0, VersionOf(ctx.codec, log[0].raw), pc.pre, pc.expected);
      }
    }
  }

  // ---------- statuses and epoch ----------

  lemma DrawStep(ctx: Context, plan: Plan, pre: Statuses, reply: Reply)
    ensures var next := Step(ctx, DrawingEpoch(plan, pre), reply);
      if !reply.Epoch? then next.Stuck?
      else if reply.epoch.None? then next.Done? && Fails(next.outcome, CoreUnavailable)
      else
        match ctx.codec.inject(plan.proposal, reply.epoch.value)
        case None => next.Done? && Fails(next.outcome, InvalidRequest)
        case Some((adjusted, expected)) => next == Putting(plan, pre, adjusted, expected)
  {
  }

  lemma DrawsExactly(ctx: Context, plan: Plan, pre: Statuses, log: seq<Reply>, outcome: Outcome)
    ensures Ends(ctx, DrawingEpoch(plan, pre), log, outcome) <==> Draws(ctx.codec, plan.proposal, pre, log, outcome)
  {
    var pc := DrawingEpoch(plan, pre);
    FirstStep(ctx, pc, log, outcome);
    if log != [] {
      DrawStep(ctx, plan, pre, log[0]);
      var next := Step(ctx, pc, log[0]);
      hide Step, Fails, Sends, Ends;
      assert |log| == 1 ==> log == [log[0]];
      if next.Putting? {
        SendsExactly(ctx, plan, pre, next.adjusted, next.expected, log[1..], outcome);
      } else if next.Done? {
        OneOutcome(next.outcome, outcome, if log[0].epoch.None? then CoreUnavailable else InvalidRequest, 0, None, pre, map[]);
      }
    }
  }

  lemma CaptureStep(ctx: Context, plan: Plan, pre: Statuses, i: nat, reply: Reply)
    requires i < 4
    ensures var next := Step(ctx, Capturing(plan, pre, i), reply);
      if !AsksFor(reply, FOUR[i]) then next.Stuck?
      else if !RunsIt(reply, FOUR[i], plan.hashes) then next.Done? && Fails(next.outcome, CoreUnavailable)
      else
        var known := pre[FOUR[i] := reply.status.value];
        next == if i == 3 then DrawingEpoch(plan, known) else Capturing(plan, known, i + 1)
  {
    assert FOUR == PLUGIN_IDS;
  }

  lemma {:induction false} CapturesExactly(ctx: Context, plan: Plan, pre: Statuses, i: nat, log: seq<Reply>, outcome: Outcome)
    requires i < 4
    ensures Ends(ctx, Capturing(plan, pre, i), log, outcome) <==>
      Captures(ctx.codec, plan.proposal, plan.hashes, i, pre, log, outcome)
    decreases |log|
  {
    var pc := Capturing(plan, pre, i);
    FirstStep(ctx, pc, log, outcome);
    if log != [] {
      CaptureStep(ctx, plan, pre, i, log[0]);
      var next := Step(ctx, pc, log[0]);
      hide Step, Fails, Draws, RunsIt, Ends;
      if next.Capturing? {
        CapturesExactly(ctx, plan, next.pre, i + 1, log[1..], outcome);
      } else if next.DrawingEpoch? {
        DrawsExactly(ctx, plan, next.pre, log[1..], outcome);
      } else if next.Done? {
        OneOutcome(next.outcome, outcome, CoreUnavailable, 0, None, pre, map[]);
      }
    }
  }

  // ---------- the commit ----------

  /** The configuration read again, with every way the run can end on it. */
  lemma RereadStep(ctx: Context, attempt: nat, snapshot: Bytes, proposal: Bytes, reply: Reply)
    ensures var next, version := Step(ctx, Rereading(attempt, snapshot, proposal), reply), ctx.codec.version(snapshot);
      if !reply.Config? then next.Stuck?
      else if reply.raw.None? then next.Done? && Fails(next.outcome, CoreUnavailable)
      else
        var current := reply.raw.value;
        var owned, hashes := ctx.codec.owned(ctx.operation, current, proposal), ctx.codec.hashes(current);
        if ctx.codec.version(current) != version then
          if attempt < ctx.maxVersionRetries then next == Snapshot(attempt + 1)
          else next == Done(Outcome(Some(Failed), VersionConflict, Some(ctx.codec.version(current)), None, false, NO_EVIDENCE))
        else if current == proposal || owned == Some(false) then next.Done? && Rests(next.outcome, version)
        else if owned.None? || hashes.None? then next.Done? && Fails(next.outcome, InvalidRequest)
        else next == Capturing(Plan(snapshot, proposal, current, hashes.value), map[], 0)
  {
  }

  lemma CommitsExactly(ctx: Context, attempt: nat, snapshot: Bytes, proposal: Bytes, log: seq<Reply>, outcome: Outcome)
    requires attempt <= ctx.maxVersionRetries
    ensures var version := ctx.codec.version(snapshot);
      Ends(ctx, Rereading(attempt, snapshot, proposal), log, outcome) <==>
        || Commits(ctx, attempt == ctx.maxVersionRetries, version, proposal, log, outcome)
        || (attempt < ctx.maxVersionRetries && log != [] && log[0].Config? && log[0].raw.Some?
            && ctx.codec.version(log[0].raw.value) != version && Ends(ctx, Snapshot(attempt + 1), log[1..], outcome))
  {
    var pc := Rereading(attempt, snapshot, proposal);
    FirstStep(ctx, pc, log, outcome);
    if log != [] {
      RereadStep(ctx, attempt, snapshot, proposal, log[0]);
      var next := Step(ctx, pc, log[0]);
      hide Step, Fails, Rests, Captures, Ends;
      if next.Capturing? {
        CapturesExactly(ctx, next.plan, map[], 0, log[1..], outcome);
      } else if next.Done? {
        OneOutcome(next.outcome, outcome, next.outcome.code, ctx.codec.version(snapshot), None, map[], map[]);
        FailsWith(next.outcome, outcome);
      }
    }
  }

  lemma FailsWith(one: Outcome, other: Outcome)
    ensures forall code :: Fails(one, code) ==> (Fails(other, code) <==> one == other)
  {
  }

  // ---------- one attempt and all of them ----------

  lemma PlanStep(ctx: Context, attempt: nat, snapshot: Bytes, reply: Reply)
    ensures var next, version := Step(ctx, AwaitingPlan(attempt, snapshot), reply), ctx.codec.version(snapshot);
      if !(reply.Planned? || reply.PlanFailed?) || reply.asked != version then next.Stuck?
      else if reply.PlanFailed? then
        if ConversationCode(reply.code) then next.Done? && Fails(next.outcome, reply.code) else next.Stuck?
      else if reply.proposal.base != version || reply.proposal.config.None? then next.Done? && Fails(next.outcome, InvalidRequest)
      else next == Rereading(attempt, snapshot, reply.proposal.config.value)
  {
  }

  lemma SnapshotStep(ctx: Context, attempt: nat, reply: Reply)
    ensures var next := Step(ctx, Snapshot(attempt), reply);
      if !reply.Config? then next.Stuck?
      else if reply.raw.None? then next.Done? && Fails(next.outcome, CoreUnavailable)
      else next == AwaitingPlan(attempt, reply.raw.value)
  {
  }

  lemma Tails(log: seq<Reply>)
    ensures |log| > 1 ==> log[1..][0] == log[1] && log[1..][1..] == log[2..]
    ensures |log| > 2 ==> log[1..][1] == log[2] && log[1..][2..] == log[3..]
  {
  }

  lemma AttemptsExactly(ctx: Context, attempt: nat, log: seq<Reply>, outcome: Outcome)
    requires attempt <= ctx.maxVersionRetries
    ensures Ends(ctx, Snapshot(attempt), log, outcome) <==>
      || Attempts(ctx, attempt == ctx.maxVersionRetries, log, outcome)
      || (attempt < ctx.maxVersionRetries && Drifts(ctx.codec, log, 0) && Ends(ctx, Snapshot(attempt + 1), log[3..], outcome))
  {
    FirstStep(ctx, Snapshot(attempt), log, outcome);
    if log != [] {
      SnapshotStep(ctx, attempt, log[0]);
      var next := Step(ctx, Snapshot(attempt), log[0]);
      hide Step, Fails, Commits, Ends;
      assert |log| == 1 ==> log == [log[0]];
      if next.AwaitingPlan? {
        PlansExactly(ctx, attempt, next.snapshot, log[1..], outcome);
        Tails(log);
      } else if next.Done? {
        FailsWith(next.outcome, outcome);
      }
    }
  }

  lemma PlansExactly(ctx: Context, attempt: nat, snapshot: Bytes, log: seq<Reply>, outcome: Outcome)
    requires attempt <= ctx.maxVersionRetries
    ensures var version := ctx.codec.version(snapshot);
      Ends(ctx, AwaitingPlan(attempt, snapshot), log, outcome) <==>
        && log != [] && (log[0].Planned? || log[0].PlanFailed?) && log[0].asked == version
        && (if log[0].PlanFailed? then |log| == 1 && ConversationCode(log[0].code) && Fails(outcome, log[0].code)
            else if log[0].proposal.base != version || log[0].proposal.config.None? then |log| == 1 && Fails(outcome, InvalidRequest)
            else
              || Commits(ctx, attempt == ctx.maxVersionRetries, version, log[0].proposal.config.value, log[1..], outcome)
              || (attempt < ctx.maxVersionRetries && |log| > 1 && log[1].Config? && log[1].raw.Some?
                  && ctx.codec.version(log[1].raw.value) != version && Ends(ctx, Snapshot(attempt + 1), log[2..], outcome)))
  {
    var pc := AwaitingPlan(attempt, snapshot);
    FirstStep(ctx, pc, log, outcome);
    if log != [] {
      PlanStep(ctx, attempt, snapshot, log[0]);
      var next := Step(ctx, pc, log[0]);
      hide Step, Fails, Commits, Ends;
      if next.Rereading? {
        CommitsExactly(ctx, attempt, snapshot, next.proposal, log[1..], outcome);
        Tails(log);
      } else if next.Done? {
        FailsWith(next.outcome, outcome);
      }
    }
  }

  lemma DriftsLater(codec: Codec, log: seq<Reply>, n: nat)
    requires 3 <= |log|
    ensures DriftsTimes(codec, log, n + 1) <==> Drifts(codec, log, 0) && DriftsTimes(codec, log[3..], n)
  {
    if DriftsTimes(codec, log, n + 1) {
      forall i | 0 <= i < n ensures Drifts(codec, log[3..], 3 * i) {
        assert Drifts(codec, log, 3 * (i + 1));
      }
      assert Drifts(codec, log, 3 * 0);
    }
    if Drifts(codec, log, 0) && DriftsTimes(codec, log[3..], n) {
      forall i | 0 <= i < n + 1 ensures Drifts(codec, log, 3 * i) {
        if i > 0 {
          assert Drifts(codec, log[3..], 3 * (i - 1));
        }
      }
    }
  }

  lemma {:induction false} WritesExactly(ctx: Context, attempt: nat, log: seq<Reply>, outcome: Outcome)
    requires attempt <= ctx.maxVersionRetries
    ensures Ends(ctx, Snapshot(attempt), log, outcome) <==> Writes(ctx, attempt, log, outcome)
    decreases |log|
  {
    AttemptsExactly(ctx, attempt, log, outcome);
    hide Attempts, Drifts, Ends;
    assert DriftsTimes(ctx.codec, log, 0) && log[3 * 0..] == log;
    if attempt < ctx.maxVersionRetries && Drifts(ctx.codec, log, 0) {
      ThreeExchanged(ctx.codec, log);
      WritesExactly(ctx, attempt + 1, log[3..], outcome);
      if Writes(ctx, attempt + 1, log[3..], outcome) {
        LaterAttempt(ctx, attempt, log, outcome);
      }
    }
    if Writes(ctx, attempt, log, outcome) && !Attempts(ctx, attempt == ctx.maxVersionRetries, log, outcome) {
      EarlierDrift(ctx, attempt, log, outcome);
    }
  }

  lemma ThreeExchanged(codec: Codec, log: seq<Reply>)
    ensures Drifts(codec, log, 0) ==> |log| >= 3
  {
  }

  lemma LaterAttempt(ctx: Context, attempt: nat, log: seq<Reply>, outcome: Outcome)
    requires |log| >= 3 && Drifts(ctx.codec, log, 0) && Writes(ctx, attempt + 1, log[3..], outcome)
    ensures Writes(ctx, attempt, log, outcome)
  {
    var n: nat :| DriftsTimes(ctx.codec, log[3..], n) && attempt + 1 + n <= ctx.maxVersionRetries
      && Attempts(ctx, attempt + 1 + n == ctx.maxVersionRetries, log[3..][3 * n..], outcome);
    hide Attempts, Drifts, DriftsTimes;
    DriftsLater(ctx.codec, log, n);
    EnoughExchanged(ctx.codec, log[3..], n);
    assert log[3..][3 * n..] == log[3 * (n + 1)..];
    assert DriftsTimes(ctx.codec, log, n + 1);
  }

  lemma EnoughExchanged(codec: Codec, log: seq<Reply>, n: nat)
    ensures DriftsTimes(codec, log, n) ==> 3 * n <= |log|
  {
  }

  lemma WholeLog(log: seq<Reply>, n: nat)
    requires 3 * n <= |log|
    ensures n == 0 ==> log[3 * n..] == log
  {
  }

  lemma EarlierDrift(ctx: Context, attempt: nat, log: seq<Reply>, outcome: Outcome)
    requires Writes(ctx, attempt, log, outcome) && !Attempts(ctx, attempt == ctx.maxVersionRetries, log, outcome)
    ensures attempt < ctx.maxVersionRetries && |log| >= 3 && Drifts(ctx.codec, log, 0) && Writes(ctx, attempt + 1, log[3..], outcome)
  {
    var n: nat :| DriftsTimes(ctx.codec, log, n) && attempt + n <= ctx.maxVersionRetries
      && Attempts(ctx, attempt + n == ctx.maxVersionRetries, log[3 * n..], outcome);
    hide Attempts, Drifts, DriftsTimes;
    EnoughExchanged(ctx.codec, log, n);
    WholeLog(log, n);
    DriftsLater(ctx.codec, log, n - 1);
    assert log[3..][3 * (n - 1)..] == log[3 * n..];
    assert DriftsTimes(ctx.codec, log[3..], n - 1);
  }

  /** A run ends exactly with these conversations, and each fixes its outcome. */
  lemma RunsExactly(ctx: Context, log: seq<Reply>, outcome: Outcome)
    ensures Run(ctx, log) == Done(outcome) <==> Conversation(ctx, log, outcome)
  {
    FromBegin(ctx, log);
    match ctx.operation {
      case AutoPull => WritesExactly(ctx, 0, log, outcome);
      case MetadataSync => WritesExactly(ctx, 0, log, outcome);
      case ModelInfo => RefreshesExactly(ctx, log, outcome);
      case Reconcile => OverIsOver(ctx, Begin(ctx), log, outcome);
    }
  }

  lemma RefreshesExactly(ctx: Context, log: seq<Reply>, outcome: Outcome)
    requires ctx.operation == ModelInfo
    ensures Ends(ctx, Refreshing, log, outcome) <==> Conversation(ctx, log, outcome)
  {
    FirstStep(ctx, Refreshing, log, outcome);
    hide Ends;
  }

  // ---------- what that means ----------

  /** A config write that reports success without a change read the configuration once more, and it was the proposal
      already or the check found no difference it owns. */
  lemma SuccessWithoutChange(ctx: Context, log: seq<Reply>)
    requires ctx.operation == AutoPull || ctx.operation == MetadataSync
    requires Run(ctx, log).Done? && Run(ctx, log).outcome.state == Some(Succeeded) && !Run(ctx, log).outcome.changed
    ensures var n := |log|;
      && n >= 3 && log[n - 3].Config? && log[n - 3].raw.Some? && log[n - 2].Planned? && log[n - 1].Config? && log[n - 1].raw.Some?
      && log[n - 2].proposal.config.Some?
      && var current, proposal := log[n - 1].raw.value, log[n - 2].proposal.config.value;
         && ctx.codec.version(current) == ctx.codec.version(log[n - 3].raw.value) == log[n - 2].proposal.base
         && Run(ctx, log).outcome.version == Some(ctx.codec.version(current))
         && (current == proposal || ctx.codec.owned(ctx.operation, current, proposal) == Some(false))
  {
    var outcome := Run(ctx, log).outcome;
    RunsExactly(ctx, log, outcome);
    var n: nat :| DriftsTimes(ctx.codec, log, n) && n <= ctx.maxVersionRetries
      && Attempts(ctx, n == ctx.maxVersionRetries, log[3 * n..], outcome);
    var last := log[3 * n..];
    hide Drifts, Run;
    RestsOnCommit(ctx, n == ctx.maxVersionRetries, last, outcome);
    assert |last| == 3 && |log| == 3 * n + 3;
    assert last[0] == log[|log| - 3] && last[1] == log[|log| - 2] && last[2] == log[|log| - 1];
  }

  /** A settled or doubtful end reports a change. */
  lemma {:induction false} PollsChanged(i: nat, pre: Statuses, expected: Hashes, version: Digest, log: seq<Reply>, outcome: Outcome)
    requires Polls(i, pre, expected, version, log, outcome)
    ensures outcome.changed
    decreases |log|
  {
    if i < 4 {
      if RunsNext(log[0], FOUR[i], pre, expected) {
        PollsChanged(i + 1, pre, expected, version, log[1..], outcome);
      } else if !Restarted(log[0], FOUR[i], pre) && !log[1].timedOut {
        PollsChanged(0, pre, expected, version, log[2..], outcome);
      }
    }
  }

  lemma {:induction false} CapturedNoRest(codec: Codec, proposal: Bytes, hashes: Hashes, i: nat, pre: Statuses, log: seq<Reply>, outcome: Outcome)
    requires Captures(codec, proposal, hashes, i, pre, log, outcome)
    ensures outcome.state == Some(Succeeded) ==> outcome.changed
    decreases |log|
  {
    if i < 4 {
      if RunsIt(log[0], FOUR[i], hashes) {
        CapturedNoRest(codec, proposal, hashes, i + 1, pre[FOUR[i] := log[0].status.value], log[1..], outcome);
      }
    } else {
      SentNoRest(codec, proposal, pre, log, outcome);
    }
  }

  lemma SentNoRest(codec: Codec, proposal: Bytes, pre: Statuses, log: seq<Reply>, outcome: Outcome)
    requires Draws(codec, proposal, pre, log, outcome)
    ensures outcome.state == Some(Succeeded) ==> outcome.changed
  {
    hide Polls;
    if outcome.state == Some(Succeeded) {
      var (adjusted, expected) := codec.inject(proposal, log[0].epoch.value).value;
      var rest := log[1..];
      PollsChanged(0, pre, expected, codec.version(codec.persisted(adjusted)), rest[2..], outcome);
    }
  }

  lemma RestsOnCommit(ctx: Context, lastChance: bool, log: seq<Reply>, outcome: Outcome)
    requires Attempts(ctx, lastChance, log, outcome) && outcome.state == Some(Succeeded) && !outcome.changed
    ensures |log| == 3 && log[0].Config? && log[0].raw.Some? && log[1].Planned? && log[2].Config? && log[2].raw.Some?
    ensures log[1].proposal.config.Some?
    ensures var current, proposal := log[2].raw.value, log[1].proposal.config.value;
      && ctx.codec.version(current) == ctx.codec.version(log[0].raw.value) == log[1].proposal.base
      && outcome.version == Some(ctx.codec.version(current))
      && (current == proposal || ctx.codec.owned(ctx.operation, current, proposal) == Some(false))
  {
    hide Captures;
    var version, proposal, rest := ctx.codec.version(log[0].raw.value), log[1].proposal.config.value, log[2..];
    CommitRests(ctx, lastChance, version, proposal, rest, outcome);
  }

  lemma CommitRests(ctx: Context, lastChance: bool, version: Digest, proposal: Bytes, log: seq<Reply>, outcome: Outcome)
    requires Commits(ctx, lastChance, version, proposal, log, outcome) && outcome.state == Some(Succeeded) && !outcome.changed
    ensures |log| == 1 && log[0].Config? && log[0].raw.Some?
    ensures var current := log[0].raw.value;
      && ctx.codec.version(current) == version && outcome.version == Some(version)
      && (current == proposal || ctx.codec.owned(ctx.operation, current, proposal) == Some(false))
  {
    hide Captures;
    if log[0].raw.Some? && ctx.codec.hashes(log[0].raw.value).Some? {
      var hashes := ctx.codec.hashes(log[0].raw.value).value;
      if Captures(ctx.codec, proposal, hashes, 0, map[], log[1..], outcome) {
        CapturedNoRest(ctx.codec, proposal, hashes, 0, map[], log[1..], outcome);
      }
    }
  }

  /** Eight exchanges of an attempt in which everything goes well: the snapshot, a proposal for it, the same version
      read again with an allowed change, four plugins that run it, and an epoch that can be injected. */
  ghost predicate GoesWell(ctx: Context, log: seq<Reply>, proposal: Bytes, statuses: seq<WorkerStatus>, adjusted: Bytes, expected: Hashes) {
    && |log| == 8 && |statuses| == 4 && log[0].Config? && log[0].raw.Some? && log[2].Config? && log[2].raw.Some?
    && var version, current := ctx.codec.version(log[0].raw.value), log[2].raw.value;
       && log[1] == Planned(version, Proposal(version, Some(proposal))) && ctx.codec.version(current) == version
       && current != proposal && ctx.codec.owned(ctx.operation, current, proposal) == Some(true)
       && ctx.codec.hashes(current).Some?
       && log[3] == Status(SyncConfigWrite, Some(statuses[0])) && RunsIt(log[3], SyncConfigWrite, ctx.codec.hashes(current).value)
       && log[4] == Status(AutoPullModels, Some(statuses[1])) && RunsIt(log[4], AutoPullModels, ctx.codec.hashes(current).value)
       && log[5] == Status(ModelMetadataSync, Some(statuses[2])) && RunsIt(log[5], ModelMetadataSync, ctx.codec.hashes(current).value)
       && log[6] == Status(ModelInfoCatalog, Some(statuses[3])) && RunsIt(log[6], ModelInfoCatalog, ctx.codec.hashes(current).value)
       && log[7].Epoch? && log[7].epoch.Some? && ctx.codec.inject(proposal, log[7].epoch.value) == Some((adjusted, expected))
  }

  function StatusesOf(statuses: seq<WorkerStatus>): Statuses
    requires |statuses| == 4
  {
    map[SyncConfigWrite := statuses[0], AutoPullModels := statuses[1], ModelMetadataSync := statuses[2], ModelInfoCatalog := statuses[3]]
  }

  /** After these the run goes on to send the injected proposal and nothing else. */
  lemma ChangeIsSent(ctx: Context, before: seq<Reply>, attempt: nat, log: seq<Reply>, proposal: Bytes, statuses: seq<WorkerStatus>,
      adjusted: Bytes, expected: Hashes)
    requires Run(ctx, before) == Snapshot(attempt) && GoesWell(ctx, log, proposal, statuses, adjusted, expected)
    ensures var pc := Run(ctx, before + log);
      pc.Putting? && pc.pre == StatusesOf(statuses) && pc.adjusted == adjusted && pc.expected == expected
    ensures forall reply :: !Step(ctx, Run(ctx, before + log), reply).Stuck? ==> reply.Put? && reply.sent == adjusted
  {
    var snapshot, current := log[0].raw.value, log[2].raw.value;
    var plan := Plan(snapshot, proposal, current, ctx.codec.hashes(current).value);
    SnapshotStep(ctx, attempt, log[0]);
    PlanStep(ctx, attempt, snapshot, log[1]);
    RereadStep(ctx, attempt, snapshot, proposal, log[2]);
    FourCaptured(ctx, plan, log[3..7], statuses);
    DrawStep(ctx, plan, StatusesOf(statuses), log[7]);
    hide Run, Step;
    Eight(ctx, Snapshot(attempt), log);
    FromRun(ctx, before, log);
    forall reply {
      SendStep(ctx, Run(ctx, before + log), reply);
    }
  }

  /** Reading on from a transcript. */
  lemma {:induction false} FromRun(ctx: Context, before: seq<Reply>, log: seq<Reply>)
    ensures Run(ctx, before + log) == From(ctx, Run(ctx, before), log)
    decreases |log|
  {
    hide Step;
    if log == [] {
      assert before + log == before;
    } else {
      RunAppend(ctx, before, log[0]);
      FromRun(ctx, before + [log[0]], log[1..]);
      assert before + log == before + [log[0]] + log[1..];
    }
  }

  lemma FromStep(ctx: Context, pc: Pc, log: seq<Reply>)
    requires log != []
    ensures From(ctx, pc, log) == From(ctx, Step(ctx, pc, log[0]), log[1..])
  {
  }

  lemma Eight(ctx: Context, pc: Pc, log: seq<Reply>)
    requires |log| == 8
    ensures From(ctx, pc, log) ==
      Step(ctx, From(ctx, Step(ctx, Step(ctx, Step(ctx, pc, log[0]), log[1]), log[2]), log[3..7]), log[7])
  {
    hide Step, From;
    assert log[1..][1..] == log[2..] && log[2..][1..] == log[3..];
    FromStep(ctx, pc, log);
    FromStep(ctx, Step(ctx, pc, log[0]), log[1..]);
    FromStep(ctx, Step(ctx, Step(ctx, pc, log[0]), log[1]), log[2..]);
    FromAppend(ctx, Step(ctx, Step(ctx, Step(ctx, pc, log[0]), log[1]), log[2]), log[3..7], log[7]);
    assert log[3..7] + [log[7]] == log[3..];
  }

  lemma FourCaptured(ctx: Context, plan: Plan, log: seq<Reply>, statuses: seq<WorkerStatus>)
    requires |log| == 4 && |statuses| == 4
    requires log[0] == Status(SyncConfigWrite, Some(statuses[0])) && RunsIt(log[0], SyncConfigWrite, plan.hashes)
    requires log[1] == Status(AutoPullModels, Some(statuses[1])) && RunsIt(log[1], AutoPullModels, plan.hashes)
    requires log[2] == Status(ModelMetadataSync, Some(statuses[2])) && RunsIt(log[2], ModelMetadataSync, plan.hashes)
    requires log[3] == Status(ModelInfoCatalog, Some(statuses[3])) && RunsIt(log[3], ModelInfoCatalog, plan.hashes)
    ensures From(ctx, Capturing(plan, map[], 0), log) == DrawingEpoch(plan, StatusesOf(statuses))
  {
    var one := map[SyncConfigWrite := statuses[0]];
    var two := one[AutoPullModels := statuses[1]];
    var three := two[ModelMetadataSync := statuses[2]];
    CaptureStep(ctx, plan, map[], 0, log[0]);
    CaptureStep(ctx, plan, one, 1, log[1]);
    CaptureStep(ctx, plan, two, 2, log[2]);
    CaptureStep(ctx, plan, three, 3, log[3]);
    hide Step, RunsIt;
    assert log[1..][1..] == log[2..] && log[2..][1..] == log[3..] && log[3..][1..] == [];
    FromStep(ctx, Capturing(plan, map[], 0), log);
    FromStep(ctx, Capturing(plan, one, 1), log[1..]);
    FromStep(ctx, Capturing(plan, two, 2), log[2..]);
    FromStep(ctx, Capturing(plan, three, 3), log[3..]);
    assert three[ModelInfoCatalog := statuses[3]] == StatusesOf(statuses);
  }

  /** Accepted, read back as Core stores it, and running on all four plugins after one pass, it is a change. */
  lemma ChangeSettles(ctx: Context, before: seq<Reply>, pc: Pc, log: seq<Reply>)
    requires Run(ctx, before) == pc && pc.Putting? && |log| == 6
    requires log[0] == Put(pc.adjusted, Accepted) && log[1] == Config(Some(ctx.codec.persisted(pc.adjusted)))
    requires RunsNext(log[2], SyncConfigWrite, pc.pre, pc.expected) && RunsNext(log[3], AutoPullModels, pc.pre, pc.expected)
    requires RunsNext(log[4], ModelMetadataSync, pc.pre, pc.expected) && RunsNext(log[5], ModelInfoCatalog, pc.pre, pc.expected)
    ensures Run(ctx, before + log) ==
      Done(Outcome(Some(Succeeded), NoCode, Some(ctx.codec.version(ctx.codec.persisted(pc.adjusted))), None, true, NO_EVIDENCE))
  {
    var version := ctx.codec.version(ctx.codec.persisted(pc.adjusted));
    var outcome := Outcome(Some(Succeeded), NoCode, Some(version), None, true, NO_EVIDENCE);
    hide RunsNext, Run;
    OnePass(pc.pre, pc.expected, version, log[2..], outcome);
    SendsExactly(ctx, pc.plan, pc.pre, pc.adjusted, pc.expected, log, outcome);
    FromRun(ctx, before, log);
  }

  lemma OnePass(pre: Statuses, expected: Hashes, version: Digest, log: seq<Reply>, outcome: Outcome)
    requires |log| == 4 && Settles(outcome, version)
    requires RunsNext(log[0], SyncConfigWrite, pre, expected) && RunsNext(log[1], AutoPullModels, pre, expected)
    requires RunsNext(log[2], ModelMetadataSync, pre, expected) && RunsNext(log[3], ModelInfoCatalog, pre, expected)
    ensures Polls(0, pre, expected, version, log, outcome)
  {
    assert log[1..][1..] == log[2..] && log[2..][1..] == log[3..] && log[3..][1..] == [];
    assert Polls(4, pre, expected, version, [], outcome);
    assert Polls(3, pre, expected, version, log[3..], outcome);
    assert Polls(2, pre, expected, version, log[2..], outcome);
    assert Polls(1, pre, expected, version, log[1..], outcome);
  }

  /** A configuration that has changed meanwhile is planned for again, as long as there are retries. */
  lemma DriftStartsOver(ctx: Context, before: seq<Reply>, attempt: nat, log: seq<Reply>)
    requires Run(ctx, before) == Snapshot(attempt) && |log| == 3 && Drifts(ctx.codec, log, 0)
    ensures attempt < ctx.maxVersionRetries ==> Run(ctx, before + log) == Snapshot(attempt + 1)
    ensures attempt >= ctx.maxVersionRetries ==> Run(ctx, before + log).Done? && Run(ctx, before + log).outcome.code == VersionConflict
  {
    SnapshotStep(ctx, attempt, log[0]);
    PlanStep(ctx, attempt, log[0].raw.value, log[1]);
    RereadStep(ctx, attempt, log[0].raw.value, log[1].proposal.config.value, log[2]);
    FromRun(ctx, before, log);
    hide Run, Step;
    assert log[1..][1..] == log[2..] && log[2..][1..] == [];
    FromStep(ctx, Snapshot(attempt), log);
    FromStep(ctx, Step(ctx, Snapshot(attempt), log[0]), log[1..]);
    FromStep(ctx, Step(ctx, Step(ctx, Snapshot(attempt), log[0]), log[1]), log[2..]);
  }
}
