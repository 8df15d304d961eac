/** Every conversation a reconcile check can have, request by request, with what it comes to. A check ends exactly
    with one of these conversations. */
module WriterCheck {
  import opened Options
  import opened WriterTypes
  import opened WriterConversation
  import E = WriterEngine
  import C = WriterReconcile

  predicate Refuses(result: ReconcileResult, version: Option<Digest>) {
    result == ReconcileResult(false, ReconcileFailed, version)
  }

  predicate Clears(result: ReconcileResult, version: Option<Digest>) {
    result == ReconcileResult(true, NoCode, version)
  }

  const PLANNING: seq<PluginId> := [AutoPullModels, ModelMetadataSync]

  /** The planners from planner i on, each of which has to answer that it is not planning. */
  ghost predicate Idles(i: nat, log: seq<E.Reply>, result: ReconcileResult)
    decreases |log|
  {
    if i >= 2 then log == [] && Clears(result, None)
    else
      && log != [] && AsksFor(log[0], PLANNING[i])
      && (if Readable(log[0].status) && !log[0].status.value.activePlan then Idles(i + 1, log[1..], result)
          else |log| == 1 && Refuses(result, None))
  }

  /** The plugin has advanced past the status on record: by a restart if there was one, otherwise by a later
      reconfiguration of the same instance. */
  predicate Advanced(block: BlockRecord, id: PluginId, now: WorkerStatus) {
    && id in block.preStatus
    && (if block.restarted then now.instance != block.preStatus[id].instance
        else now.instance == block.preStatus[id].instance && now.seqNo > block.preStatus[id].seqNo)
  }

  predicate QuietAndAdvanced(block: BlockRecord, statuses: E.Statuses)
    requires SyncConfigWrite in statuses && AutoPullModels in statuses && ModelMetadataSync in statuses && ModelInfoCatalog in statuses
  {
    && !statuses[AutoPullModels].activePlan && !statuses[ModelMetadataSync].activePlan
    && (block.preStatus != map[] ==>
         && Advanced(block, SyncConfigWrite, statuses[SyncConfigWrite]) && Advanced(block, AutoPullModels, statuses[AutoPullModels])
         && Advanced(block, ModelMetadataSync, statuses[ModelMetadataSync]) && Advanced(block, ModelInfoCatalog, statuses[ModelInfoCatalog]))
  }

  /** The statuses from plugin i on, and the second read of the configuration. */
  ghost predicate Compares(codec: E.Codec, block: BlockRecord, version: Digest, hashes: E.Hashes, i: nat, statuses: E.Statuses,
      log: seq<E.Reply>, result: ReconcileResult)
    decreases |log|
  {
    if i >= 4 then
      && SyncConfigWrite in statuses && AutoPullModels in statuses && ModelMetadataSync in statuses && ModelInfoCatalog in statuses
      && (if QuietAndAdvanced(block, statuses) then
            && |log| == 1 && log[0].Config?
            && (if VersionOf(codec, log[0].raw) == Some(version) then Clears(result, Some(version)) else Refuses(result, Some(version)))
          else log == [] && Refuses(result, Some(version)))
    else
      && log != [] && AsksFor(log[0], FOUR[i])
      && (if RunsIt(log[0], FOUR[i], hashes) then
            Compares(codec, block, version, hashes, i + 1, statuses[FOUR[i] := log[0].status.value], log[1..], result)
          else |log| == 1 && Refuses(result, Some(version)))
  }

  ghost predicate Reads(codec: E.Codec, block: BlockRecord, log: seq<E.Reply>, result: ReconcileResult) {
    && log != [] && log[0].Config?
    && match log[0].raw
       case None => |log| == 1 && Refuses(result, None)
       case Some(raw) =>
         var version := codec.version(raw);
         if (block.version.Some? && block.version != Some(version)) || codec.hashes(raw).None? then
           |log| == 1 && Refuses(result, Some(version))
         else Compares(codec, block, version, codec.hashes(raw).value, 0, map[], log[1..], result)
  }

  ghost predicate Check(codec: E.Codec, block: BlockRecord, log: seq<E.Reply>, result: ReconcileResult) {
    match block.code
    case PlannerStalled => Idles(0, log, result)
    case StartupReconcileRequired => Reads(codec, block, log, result)
    case PersistedRuntimeUncertain => if block.preStatus == map[] then log == [] && Refuses(result, None) else Reads(codec, block, log, result)
    case CommitVerificationFailed => if block.preStatus == map[] then log == [] && Refuses(result, None) else Reads(codec, block, log, result)
    case _ => log == [] && Refuses(result, None)
  }

  // ---------- the machine from any of its states ----------

  function From(codec: E.Codec, block: BlockRecord, pc: C.Pc, log: seq<E.Reply>): C.Pc
    decreases |log|
  {
    if log == [] then pc else From(codec, block, C.Step(codec, block, pc, log[0]), log[1..])
  }

  lemma {:induction false} FromAppend(codec: E.Codec, block: BlockRecord, pc: C.Pc, log: seq<E.Reply>, reply: E.Reply)
    ensures From(codec, block, pc, log + [reply]) == C.Step(codec, block, From(codec, block, pc, log), reply)
    decreases |log|
  {
    hide C.Step;
    if log == [] {
      assert ([] + [reply])[1..] == [];
    } else {
      FromAppend(codec, block, C.Step(codec, block, pc, log[0]), log[1..], reply);
      assert (log + [reply])[1..] == log[1..] + [reply];
    }
  }

  lemma {:induction false} FromBegin(codec: E.Codec, block: BlockRecord, log: seq<E.Reply>)
    ensures C.Run(codec, block, log) == From(codec, block, C.Begin(block), log)
    decreases |log|
  {
    hide C.Step, C.Begin;
    if log != [] {
      var before := log[..|log| - 1];
      FromBegin(codec, block, before);
      FromAppend(codec, block, C.Begin(block), before, log[|log| - 1]);
      assert before + [log[|log| - 1]] == log;
    }
  }

  ghost predicate Ends(codec: E.Codec, block: BlockRecord, pc: C.Pc, log: seq<E.Reply>, result: ReconcileResult) {
    From(codec, block, pc, log) == C.Over(result)
  }

  lemma {:induction false} StaysAstray(codec: E.Codec, block: BlockRecord, log: seq<E.Reply>)
    ensures From(codec, block, C.Astray, log) == C.Astray
    decreases |log|
  {
    if log != [] {
      StaysAstray(codec, block, log[1..]);
    }
  }

  /** What has ended goes no further. */
  lemma OverIsOver(codec: E.Codec, block: BlockRecord, pc: C.Pc, log: seq<E.Reply>, result: ReconcileResult)
    ensures pc.Over? ==> (Ends(codec, block, pc, log, result) <==> log == [] && result == pc.result)
    ensures pc.Astray? ==> !Ends(codec, block, pc, log, result)
  {
    if log != [] {
      StaysAstray(codec, block, log[1..]);
    }
    StaysAstray(codec, block, log);
  }

  lemma FirstStep(codec: E.Codec, block: BlockRecord, pc: C.Pc, log: seq<E.Reply>, result: ReconcileResult)
    requires !pc.Over?
    ensures Ends(codec, block, pc, log, result) <==> log != [] && Ends(codec, block, C.Step(codec, block, pc, log[0]), log[1..], result)
    ensures log != [] ==> var next := C.Step(codec, block, pc, log[0]);
      && (next.Over? ==> (Ends(codec, block, pc, log, result) <==> |log| == 1 && result == next.result))
      && (next.Astray? ==> !Ends(codec, block, pc, log, result))
  {
    hide C.Step;
    if log != [] {
      OverIsOver(codec, block, C.Step(codec, block, pc, log[0]), log[1..], result);
    }
  }

  // ---------- state by state ----------

  lemma {:induction false} IdlesExactly(codec: E.Codec, block: BlockRecord, i: nat, log: seq<E.Reply>, result: ReconcileResult)
    requires i < 2
    ensures Ends(codec, block, C.Idling(i), log, result) <==> Idles(i, log, result)
    decreases |log|
  {
    assert PLANNING == C.PLANNERS;
    FirstStep(codec, block, C.Idling(i), log, result);
    hide Ends;
    if log != [] && i == 0 {
      IdlesExactly(codec, block, 1, log[1..], result);
    }
  }

  lemma SecondExactly(codec: E.Codec, block: BlockRecord, raw: Bytes, log: seq<E.Reply>, result: ReconcileResult)
    ensures Ends(codec, block, C.Second(raw), log, result) <==>
      && |log| == 1 && log[0].Config?
      && (if VersionOf(codec, log[0].raw) == Some(codec.version(raw)) then Clears(result, Some(codec.version(raw)))
          else Refuses(result, Some(codec.version(raw))))
  {
    FirstStep(codec, block, C.Second(raw), log, result);
    hide Ends;
  }

  /** One status, written out. */
  lemma CompareStep(codec: E.Codec, block: BlockRecord, raw: Bytes, hashes: E.Hashes, statuses: E.Statuses, i: nat, reply: E.Reply)
    requires i < 4 && forall j :: 0 <= j < i ==> FOUR[j] in statuses
    ensures var next := C.Step(codec, block, C.Capturing(raw, hashes, statuses, i), reply);
      if !AsksFor(reply, FOUR[i]) then next.Astray?
      else if !RunsIt(reply, FOUR[i], hashes) then next.Over? && Refuses(next.result, Some(codec.version(raw)))
      else
        var known := statuses[FOUR[i] := reply.status.value];
        if i < 3 then next == C.Capturing(raw, hashes, known, i + 1)
        else
          && FOUR[0] in known && FOUR[1] in known && FOUR[2] in known && FOUR[3] in known
          && (if QuietAndAdvanced(block, known) then next == C.Second(raw)
              else next.Over? && Refuses(next.result, Some(codec.version(raw))))
  {
    assert FOUR == PLUGIN_IDS;
    if i == 3 && RunsIt(reply, FOUR[i], hashes) {
      AcceptableIs(block, statuses[FOUR[i] := reply.status.value]);
      hide C.Acceptable, QuietAndAdvanced;
    }
  }

  lemma AcceptableIs(block: BlockRecord, statuses: E.Statuses)
    requires FOUR[0] in statuses && FOUR[1] in statuses && FOUR[2] in statuses && FOUR[3] in statuses
    ensures C.Acceptable(block, statuses) <==> QuietAndAdvanced(block, statuses)
  {
    assert C.PLANNERS[0] in C.PLANNERS && C.PLANNERS[1] in C.PLANNERS;
    assert PLUGIN_IDS[0] in PLUGIN_IDS && PLUGIN_IDS[1] in PLUGIN_IDS && PLUGIN_IDS[2] in PLUGIN_IDS && PLUGIN_IDS[3] in PLUGIN_IDS;
  }

  lemma {:induction false} ComparesExactly(codec: E.Codec, block: BlockRecord, raw: Bytes, hashes: E.Hashes, i: nat, statuses: E.Statuses,
      log: seq<E.Reply>, result: ReconcileResult)
    requires i < 4 && forall j :: 0 <= j < i ==> FOUR[j] in statuses
    ensures Ends(codec, block, C.Capturing(raw, hashes, statuses, i), log, result) <==>
      Compares(codec, block, codec.version(raw), hashes, i, statuses, log, result)
    decreases |log|
  {
    var pc := C.Capturing(raw, hashes, statuses, i);
    FirstStep(codec, block, pc, log, result);
    if log != [] {
      CompareStep(codec, block, raw, hashes, statuses, i, log[0]);
      var next := C.Step(codec, block, pc, log[0]);
      hide C.Step, RunsIt, Ends, QuietAndAdvanced;
      if next.Capturing? {
        ComparesExactly(codec, block, raw, hashes, i + 1, next.statuses, log[1..], result);
      } else if next.Second? {
        SecondExactly(codec, block, raw, log[1..], result);
      }
    }
  }

  lemma ReadsExactly(codec: E.Codec, block: BlockRecord, log: seq<E.Reply>, result: ReconcileResult)
    ensures Ends(codec, block, C.First, log, result) <==> Reads(codec, block, log, result)
  {
    FirstStep(codec, block, C.First, log, result);
    hide Ends, Compares;
    if log != [] && C.Step(codec, block, C.First, log[0]).Capturing? {
      ComparesExactly(codec, block, log[0].raw.value, codec.hashes(log[0].raw.value).value, 0, map[], log[1..], result);
    }
  }

  /** A check ends exactly with these conversations, and each fixes its result. */
  lemma ChecksExactly(codec: E.Codec, block: BlockRecord, log: seq<E.Reply>, result: ReconcileResult)
    ensures C.Run(codec, block, log) == C.Over(result) <==> Check(codec, block, log, result)
  {
    FromBegin(codec, block, log);
    hide Reads, Idles, From;
    if C.Begin(block).First? {
      ReadsExactly(codec, block, log, result);
    } else if C.Begin(block).Idling? {
      IdlesExactly(codec, block, 0, log, result);
    } else {
      OverIsOver(codec, block, C.Begin(block), log, result);
    }
  }

  // ---------- what that means ----------

  /** The status passes for this plugin. */
  predicate Passes(block: BlockRecord, id: PluginId, now: WorkerStatus) {
    (block.preStatus != map[] ==> Advanced(block, id, now)) && (id in PLANNING ==> !now.activePlan)
  }

  ghost predicate Shown(block: BlockRecord, hashes: E.Hashes, log: seq<E.Reply>, i: nat, j: nat) {
    i + j < 4 && j < |log| && RunsIt(log[j], FOUR[i + j], hashes) && Passes(block, FOUR[i + j], log[j].status.value)
  }

  lemma {:induction false} ComparesAll(codec: E.Codec, block: BlockRecord, version: Digest, hashes: E.Hashes, i: nat, statuses: E.Statuses,
      log: seq<E.Reply>, result: ReconcileResult)
    requires Compares(codec, block, version, hashes, i, statuses, log, result) && result.cleared && i <= 4
    ensures |log| == 5 - i
    ensures forall j: nat :: j < 4 - i ==> Shown(block, hashes, log, i, j)
    ensures forall id :: id in statuses && id !in FOUR[i..] ==> Passes(block, id, statuses[id])
    decreases |log|
  {
    hide Passes, RunsIt;
    if i < 4 {
      RunsItReads(log[0], FOUR[i], hashes);
      var known := statuses[FOUR[i] := log[0].status.value];
      ComparesAll(codec, block, version, hashes, i + 1, known, log[1..], result);
      assert FOUR[i] in known && FOUR[i] !in FOUR[i + 1..];
      assert FOUR[i..] == [FOUR[i]] + FOUR[i + 1..];
      forall j: nat | j < 4 - i ensures Shown(block, hashes, log, i, j) {
        if j > 0 {
          assert Shown(block, hashes, log[1..], i + 1, j - 1);
        }
      }
      forall id | id in statuses && id !in FOUR[i..] ensures Passes(block, id, statuses[id]) {
        assert id in known && known[id] == statuses[id];
      }
    } else {
      AllPass(block, statuses);
    }
  }

  lemma AllPass(block: BlockRecord, statuses: E.Statuses)
    requires SyncConfigWrite in statuses && AutoPullModels in statuses && ModelMetadataSync in statuses && ModelInfoCatalog in statuses
    ensures QuietAndAdvanced(block, statuses) ==> forall id :: id in statuses ==> Passes(block, id, statuses[id])
  {
    hide Advanced;
    forall id | id in statuses && QuietAndAdvanced(block, statuses) ensures Passes(block, id, statuses[id]) {
      match id {
        case SyncConfigWrite =>
        case AutoPullModels =>
        case ModelMetadataSync =>
        case ModelInfoCatalog =>
      }
    }
  }

  lemma RunsItReads(reply: E.Reply, id: PluginId, hashes: E.Hashes)
    requires RunsIt(reply, id, hashes)
    ensures reply.Status? && reply.id == id && reply.status.Some?
  {
  }

  /** Plugin j has answered that it runs the configuration read first, and has advanced past the status on record. */
  ghost predicate PluginAdvanced(codec: E.Codec, block: BlockRecord, log: seq<E.Reply>, j: nat)
    requires j < 4 && |log| == 6 && log[0].Config? && log[0].raw.Some? && codec.hashes(log[0].raw.value).Some?
  {
    var id, hashes := FOUR[j], codec.hashes(log[0].raw.value).value;
    && log[1 + j].Status? && log[1 + j].id == id && log[1 + j].status.Some? && id in block.preStatus && id in hashes
    && var now, before := log[1 + j].status.value, block.preStatus[id];
       && now.hash == Some(hashes[id])
       && (if block.restarted then now.instance != before.instance
           else now.instance == before.instance && now.seqNo > before.seqNo)
  }

  /** A cleared blocker with statuses on record: all four plugins have answered that they run the configuration read,
      each on its old instance with a later sequence number, or each on another instance if the Writer restarted. */
  lemma ClearedMeansAdvanced(codec: E.Codec, block: BlockRecord, log: seq<E.Reply>)
    requires block.code != PlannerStalled && block.preStatus != map[]
    requires C.Run(codec, block, log).Over? && C.Run(codec, block, log).result.cleared
    ensures |log| == 6 && log[0].Config? && log[0].raw.Some? && codec.hashes(log[0].raw.value).Some?
    ensures forall j :: 0 <= j < 4 ==> PluginAdvanced(codec, block, log, j)
  {
    var result := C.Run(codec, block, log).result;
    ChecksExactly(codec, block, log, result);
    var rest := log[1..];
    ComparesAll(codec, block, codec.version(log[0].raw.value), codec.hashes(log[0].raw.value).value, 0, map[], rest, result);
    forall j | 0 <= j < 4 ensures PluginAdvanced(codec, block, log, j) {
      assert Shown(block, codec.hashes(log[0].raw.value).value, rest, 0, j);
      assert rest[j] == log[1 + j];
    }
  }

  lemma StillRecorded(codec: E.Codec, block: BlockRecord, log: seq<E.Reply>, j: nat)
    requires j < 4 && |log| == 6 && log[0].Config? && log[0].raw.Some? && codec.hashes(log[0].raw.value).Some?
    requires FOUR[j] in block.preStatus && log[1 + j] == E.Status(FOUR[j], Some(block.preStatus[FOUR[j]]))
    ensures !PluginAdvanced(codec, block, log, j)
  {
  }

  /** A plugin that still answers with the status on record, restarted or not, clears nothing. */
  lemma RecordedStatusStays(codec: E.Codec, block: BlockRecord, log: seq<E.Reply>, result: ReconcileResult, j: nat)
    requires block.code != PlannerStalled && j < 4 && FOUR[j] in block.preStatus
    requires 1 + j < |log| && log[1 + j] == E.Status(FOUR[j], Some(block.preStatus[FOUR[j]]))
    requires C.Run(codec, block, log) == C.Over(result)
    ensures !result.cleared
  {
    if result.cleared {
      ClearedMeansAdvanced(codec, block, log);
      StillRecorded(codec, block, log, j);
    }
  }
}
