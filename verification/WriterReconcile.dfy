/** The reconcile check as a machine over the same kind of transcript, and exactly which conversations
    let it clear a blocker. */
module WriterReconcile {
  import opened Options
  import opened WriterTypes
  import E = WriterEngine

  const PLANNERS: seq<PluginId> := [AutoPullModels, ModelMetadataSync]

  datatype Pc =
    | Idling(i: nat)
    | First
    | Capturing(raw: Bytes, hashes: E.Hashes, statuses: E.Statuses, i: nat)
    | Second(raw: Bytes)
    | Over(result: ReconcileResult)
    | Astray

  function Refuse(version: Option<Digest>): Pc {
    Over(ReconcileResult(false, ReconcileFailed, version))
  }

  function Begin(block: BlockRecord): Pc {
    if block.code == PlannerStalled then Idling(0)
    else if block.code != StartupReconcileRequired && block.code != PersistedRuntimeUncertain
      && block.code != CommitVerificationFailed then Refuse(None)
    else if block.code != StartupReconcileRequired && block.preStatus == map[] then Refuse(None)
    else First
  }

  function Idle1(i: nat, status: Option<WorkerStatus>): Pc
    requires i < |PLANNERS|
  {
    if status.None? || !ValidWorkerStatus(status.value) || status.value.activePlan then Refuse(None)
    else if i + 1 < |PLANNERS| then Idling(i + 1)
    else Over(ReconcileResult(true, NoCode, None))
  }

  function First1(codec: E.Codec, block: BlockRecord, raw: Option<Bytes>): Pc {
    if raw.None? then Refuse(None)
    else
      var version := codec.version(raw.value);
      if block.version.Some? && block.version.value != version then Refuse(Some(version))
      else
        match codec.hashes(raw.value)
        case None => Refuse(Some(version))
        case Some(hashes) => Capturing(raw.value, hashes, map[], 0)
  }

  /** One plugin has moved on from the status on record: a new instance after a restart, otherwise the
      same instance with a later sequence. */
  predicate MovedOn(block: BlockRecord, status: WorkerStatus, id: PluginId) {
    && id in block.preStatus
    && (if block.restarted then status.instance != block.preStatus[id].instance
        else status.instance == block.preStatus[id].instance && status.seqNo > block.preStatus[id].seqNo)
  }

  predicate Acceptable(block: BlockRecord, statuses: E.Statuses) {
    && (forall id :: id in PLANNERS ==> id in statuses && !statuses[id].activePlan)
    && (block.preStatus == map[] || forall id :: id in PLUGIN_IDS ==> id in statuses && MovedOn(block, statuses[id], id))
  }

  function Capture1(codec: E.Codec, block: BlockRecord, pc: Pc, status: Option<WorkerStatus>): Pc
    requires pc.Capturing? && pc.i < |PLUGIN_IDS|
  {
    var id := PLUGIN_IDS[pc.i];
    var version := Some(codec.version(pc.raw));
    if !E.Captured(status, pc.hashes, id) then Refuse(version)
    else
      var statuses := pc.statuses[id := status.value];
      if pc.i + 1 < |PLUGIN_IDS| then pc.(statuses := statuses, i := pc.i + 1)
      else if Acceptable(block, statuses) then Second(pc.raw)
      else Refuse(version)
  }

  lemma CaptureStep(codec: E.Codec, block: BlockRecord, raw: Bytes, hashes: E.Hashes, statuses: E.Statuses, i: nat, status: Option<WorkerStatus>)
    requires i < |PLUGIN_IDS|
    ensures Step(codec, block, Capturing(raw, hashes, statuses, i), E.Status(PLUGIN_IDS[i], status)) ==
      if !E.Captured(status, hashes, PLUGIN_IDS[i]) then Refuse(Some(codec.version(raw)))
      else if i + 1 < |PLUGIN_IDS| then Capturing(raw, hashes, statuses[PLUGIN_IDS[i] := status.value], i + 1)
      else if Acceptable(block, statuses[PLUGIN_IDS[i] := status.value]) then Second(raw)
      else Refuse(Some(codec.version(raw)))
  {
    hide Acceptable;
  }

  function Second1(codec: E.Codec, raw: Bytes, again: Option<Bytes>): Pc {
    var version := Some(codec.version(raw));
    if again.None? || codec.version(again.value) != codec.version(raw) then Refuse(version)
    else Over(ReconcileResult(true, NoCode, version))
  }

  function Step(codec: E.Codec, block: BlockRecord, pc: Pc, reply: E.Reply): Pc {
    match pc
    case Idling(i) => if !reply.Status? || i >= |PLANNERS| || reply.id != PLANNERS[i] then Astray else Idle1(i, reply.status)
    case First => if !reply.Config? then Astray else First1(codec, block, reply.raw)
    case Capturing(_, _, _, i) =>
      if !reply.Status? || i >= |PLUGIN_IDS| || reply.id != PLUGIN_IDS[i] then Astray else Capture1(codec, block, pc, reply.status)
    case Second(raw) => if !reply.Config? then Astray else Second1(codec, raw, reply.raw)
    case Over(_) => Astray
    case Astray => Astray
  }

  function Run(codec: E.Codec, block: BlockRecord, log: seq<E.Reply>): Pc
    decreases |log|
  {
    if log == [] then Begin(block) else Step(codec, block, Run(codec, block, log[..|log| - 1]), log[|log| - 1])
  }

  lemma RunStart(codec: E.Codec, block: BlockRecord)
    ensures Run(codec, block, []) == Begin(block)
  {
  }

  lemma RunAppend(codec: E.Codec, block: BlockRecord, log: seq<E.Reply>, reply: E.Reply)
    ensures Run(codec, block, log + [reply]) == Step(codec, block, Run(codec, block, log), reply)
  {
    assert (log + [reply])[..|log|] == log;
  }

  // ---------- exactly what clears ----------

  /** A stalled planner is released when both planners answer and neither is planning. */
  ghost predicate PlannersIdle(log: seq<E.Reply>) {
    && |log| == 2
    && (forall j :: 0 <= j < 2 ==>
         log[j].Status? && log[j].id == PLANNERS[j] && log[j].status.Some? && ValidWorkerStatus(log[j].status.value) && !log[j].status.value.activePlan)
  }

  ghost predicate PluginEvidence(block: BlockRecord, reply: E.Reply, hashes: E.Hashes, id: PluginId) {
    && reply.Status? && reply.id == id && E.Captured(reply.status, hashes, id)
    && (id in PLANNERS ==> !reply.status.value.activePlan)
    && (block.preStatus != map[] ==> MovedOn(block, reply.status.value, id))
  }

  /** Any other blocker is cleared by two reads of one version, the blocked one when it is known, around
      four statuses that run this very configuration, plan nothing and have moved on. */
  ghost predicate ConfigurationSettled(codec: E.Codec, block: BlockRecord, log: seq<E.Reply>) {
    && |log| == 6
    && log[0].Config? && log[0].raw.Some?
    && log[5].Config? && log[5].raw.Some?
    && codec.version(log[5].raw.value) == codec.version(log[0].raw.value)
    && (block.version.Some? ==> block.version.value == codec.version(log[0].raw.value))
    && codec.hashes(log[0].raw.value).Some?
    && (forall j :: 0 <= j < 4 ==> PluginEvidence(block, log[1 + j], codec.hashes(log[0].raw.value).value, PLUGIN_IDS[j]))
  }

  ghost predicate Evidence(codec: E.Codec, block: BlockRecord, log: seq<E.Reply>) {
    match block.code
    case PlannerStalled => PlannersIdle(log)
    case StartupReconcileRequired => ConfigurationSettled(codec, block, log)
    case PersistedRuntimeUncertain => block.preStatus != map[] && ConfigurationSettled(codec, block, log)
    case CommitVerificationFailed => block.preStatus != map[] && ConfigurationSettled(codec, block, log)
    case _ => false
  }

  predicate Cleared(pc: Pc) {
    pc.Over? && pc.result.cleared
  }

  ghost predicate Invariant(codec: E.Codec, block: BlockRecord, log: seq<E.Reply>, pc: Pc) {
    var n := |log|;
    match pc
    case Idling(i) =>
      && block.code == PlannerStalled && i == n && n < 2
      && (forall j :: 0 <= j < n ==>
           log[j].Status? && log[j].id == PLANNERS[j] && log[j].status.Some? && ValidWorkerStatus(log[j].status.value) && !log[j].status.value.activePlan)
    case First => n == 0 && Begin(block) == First
    case Capturing(raw, hashes, statuses, i) =>
      && Begin(block) == First && n == 1 + i && i < 4
      && log[0] == E.Config(Some(raw)) && codec.hashes(raw) == Some(hashes)
      && (block.version.Some? ==> block.version.value == codec.version(raw))
      && (forall j :: 0 <= j < i ==>
           && PLUGIN_IDS[j] in statuses
           && log[1 + j] == E.Status(PLUGIN_IDS[j], Some(statuses[PLUGIN_IDS[j]]))
           && E.Captured(Some(statuses[PLUGIN_IDS[j]]), hashes, PLUGIN_IDS[j]))
    case Second(raw) =>
      && Begin(block) == First && n == 5
      && log[0] == E.Config(Some(raw)) && codec.hashes(raw).Some?
      && (block.version.Some? ==> block.version.value == codec.version(raw))
      && (forall j :: 0 <= j < 4 ==> PluginEvidence(block, log[1 + j], codec.hashes(raw).value, PLUGIN_IDS[j]))
    case Over(result) => result.cleared ==>
      Evidence(codec, block, log) && (block.code != PlannerStalled ==> result.version == Some(codec.version(log[0].raw.value)))
    case Astray => true
  }

  lemma StepInvariant(codec: E.Codec, block: BlockRecord, log: seq<E.Reply>, pc: Pc, reply: E.Reply)
    requires Invariant(codec, block, log, pc)
    ensures Invariant(codec, block, log + [reply], Step(codec, block, pc, reply))
  {
    var longer := log + [reply];
    assert longer[|log|] == reply;
    assert forall k :: 0 <= k < |log| ==> longer[k] == log[k];
    if pc.Capturing? && Step(codec, block, pc, reply).Second? {
      LastCaptured(codec, block, log, pc, reply);
    }
    hide PluginEvidence;
  }

  /** With the last status there is evidence of all four plugins. */
  lemma LastCaptured(codec: E.Codec, block: BlockRecord, log: seq<E.Reply>, pc: Pc, reply: E.Reply)
    requires Invariant(codec, block, log, pc) && pc.Capturing? && Step(codec, block, pc, reply).Second?
    ensures forall j :: 0 <= j < 4 ==> PluginEvidence(block, (log + [reply])[1 + j], pc.hashes, PLUGIN_IDS[j])
  {
    var longer := log + [reply];
    var statuses := pc.statuses[PLUGIN_IDS[3] := reply.status.value];
    forall j | 0 <= j < 4 ensures PluginEvidence(block, longer[1 + j], pc.hashes, PLUGIN_IDS[j]) {
      assert PLUGIN_IDS[j] in PLUGIN_IDS;
      assert longer[1 + j] == E.Status(PLUGIN_IDS[j], Some(statuses[PLUGIN_IDS[j]]));
    }
  }

  lemma {:induction false} RunInvariant(codec: E.Codec, block: BlockRecord, log: seq<E.Reply>)
    ensures Invariant(codec, block, log, Run(codec, block, log))
    decreases |log|
  {
    if log != [] {
      var before := log[..|log| - 1];
      assert log == before + [log[|log| - 1]];
      RunInvariant(codec, block, before);
      StepInvariant(codec, block, before, Run(codec, block, before), log[|log| - 1]);
    }
  }

  /** The check clears exactly on evidence, and then it reports the version it saw. */
  lemma ClearsExactlyOnEvidence(codec: E.Codec, block: BlockRecord, log: seq<E.Reply>)
    ensures Cleared(Run(codec, block, log)) <==> Evidence(codec, block, log)
    ensures Cleared(Run(codec, block, log)) && block.code != PlannerStalled ==>
      Run(codec, block, log).result.version == Some(codec.version(log[0].raw.value))
  {
    RunInvariant(codec, block, log);
    if Evidence(codec, block, log) {
      EvidenceClears(codec, block, log);
    }
  }

  lemma EvidenceClears(codec: E.Codec, block: BlockRecord, log: seq<E.Reply>)
    requires Evidence(codec, block, log)
    ensures Cleared(Run(codec, block, log))
  {
    if block.code == PlannerStalled {
      RunAppend(codec, block, [], log[0]);
      RunAppend(codec, block, [log[0]], log[1]);
      assert [] + [log[0]] == [log[0]] && log == [log[0]] + [log[1]];
    } else {
      var statuses := Settling(codec, block, log, 3);
      RunAppend(codec, block, log[..4], log[4]);
      RunAppend(codec, block, log[..5], log[5]);
      assert log[..4] + [log[4]] == log[..5] && log[..5] + [log[5]] == log;
      assert PluginEvidence(block, log[1 + 3], codec.hashes(log[0].raw.value).value, PLUGIN_IDS[3]);
      var last := statuses[PLUGIN_IDS[3] := log[4].status.value];
      forall j | 0 <= j < 4 ensures PLUGIN_IDS[j] in last && last[PLUGIN_IDS[j]] == log[1 + j].status.value
        && PluginEvidence(block, log[1 + j], codec.hashes(log[0].raw.value).value, PLUGIN_IDS[j])
      {
        assert PLUGIN_IDS[j] in PLUGIN_IDS;
      }
      assert PLANNERS[0] == PLUGIN_IDS[1] && PLANNERS[1] == PLUGIN_IDS[2];
      assert Acceptable(block, last);
    }
  }

  lemma SettledPart(codec: E.Codec, block: BlockRecord, log: seq<E.Reply>, j: nat)
    requires ConfigurationSettled(codec, block, log) && j < 4
    ensures PluginEvidence(block, log[1 + j], codec.hashes(log[0].raw.value).value, PLUGIN_IDS[j])
  {
    hide PluginEvidence;
  }

  lemma CapturingStep(codec: E.Codec, block: BlockRecord, raw: Bytes, hashes: E.Hashes, statuses: E.Statuses, i: nat, reply: E.Reply)
    requires i < 3 && PluginEvidence(block, reply, hashes, PLUGIN_IDS[i])
    ensures Step(codec, block, Capturing(raw, hashes, statuses, i), reply) ==
      Capturing(raw, hashes, statuses[PLUGIN_IDS[i] := reply.status.value], i + 1)
  {
    hide MovedOn;
  }

  /** Settled answers lead the machine through its status requests one by one. */
  lemma {:induction false} Settling(codec: E.Codec, block: BlockRecord, log: seq<E.Reply>, count: nat) returns (statuses: E.Statuses)
    requires ConfigurationSettled(codec, block, log) && Begin(block) == First && count <= 3
    ensures Run(codec, block, log[..1 + count]) ==
      Capturing(log[0].raw.value, codec.hashes(log[0].raw.value).value, statuses, count)
    ensures forall j :: 0 <= j < count ==> PLUGIN_IDS[j] in statuses && statuses[PLUGIN_IDS[j]] == log[1 + j].status.value
  {
    if count == 0 {
      hide MovedOn, PluginEvidence;
      statuses := map[];
      RunAppend(codec, block, [], log[0]);
      assert log[..1] == [] + [log[0]];
    } else {
      var before := Settling(codec, block, log, count - 1);
      var j := count - 1;
      SettledPart(codec, block, log, j);
      CapturingStep(codec, block, log[0].raw.value, codec.hashes(log[0].raw.value).value, before, j, log[count]);
      hide Run, Step, Acceptable, MovedOn;
      statuses := before[PLUGIN_IDS[j] := log[count].status.value];
      RunAppend(codec, block, log[..count], log[count]);
      assert log[..1 + count] == log[..count] + [log[count]];
    }
  }
}
