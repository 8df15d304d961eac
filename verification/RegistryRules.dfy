/** What each section of the Writer does to the registry, field by field: which runs and jobs there are afterwards,
    what they say, and what stays as it was. */
module RegistryRules {
  import opened Options
  import opened WriterTypes
  import opened WriterRegistry
  import opened WriterSchedule

  // ---------- parts that stay ----------

  predicate SameQueue(before: Registry, after: Registry) {
    after.queue == before.queue && after.running == before.running && after.stopped == before.stopped
  }

  predicate SameSettings(before: Registry, after: Registry) {
    && after.settings == before.settings && after.configured == before.configured && after.instance == before.instance
    && after.seqNo == before.seqNo && after.deadlines == before.deadlines
  }

  predicate SameBlock(before: Registry, after: Registry) {
    after.blocker == before.blocker && after.record == before.record
  }

  /** The other runs are as they were. */
  ghost predicate SameRunsBut(before: Registry, after: Registry, id: RunId) {
    forall k :: k != id ==> (k in after.statuses <==> k in before.statuses) && (k in before.statuses ==> after.statuses[k] == before.statuses[k])
  }

  ghost predicate SameActiveBut(before: Registry, after: Registry, operation: Operation) {
    forall op :: op != operation ==> (op in after.active <==> op in before.active) && (op in before.active ==> after.active[op] == before.active[op])
  }

  // ---------- the queue ----------

  /** A service begins blocked, with one run that says so. */
  lemma InitialExactly(instance: nat, startup: RunId, now: int)
    ensures var r := Initial(instance, startup, now);
      && r.blocker == Some(startup) && r.record.id == Some(startup) && r.record.code == StartupReconcileRequired && r.record.restarted
      && r.record.version.None? && r.record.preStatus == map[] && r.record.expectedHashes == map[]
      && startup in r.statuses && r.statuses[startup].state == Blocked && r.statuses[startup].code == StartupReconcileRequired
      && (forall k :: k in r.statuses ==> k == startup)
      && r.queue == [] && r.running.None? && r.active == map[] && r.completed == [] && r.deadlines == map[] && !r.configured && !r.stopped
  {
  }

  /** An admitted run: new, at the end of the queue, and with the settings of the moment. */
  ghost predicate IsAdmitted(r: Registry, next: Registry, operation: Operation, id: RunId, now: int) {
    && id in next.statuses && next.statuses[id].id == id && next.statuses[id].operation == operation
    && next.statuses[id].state == Queued && next.statuses[id].attempt == 0 && next.statuses[id].code == NoCode
    && next.statuses[id].queuedAt == now && next.statuses[id].startedAt.None? && next.statuses[id].finishedAt.None?
    && next.statuses[id].version.None? && !next.statuses[id].changed
    && next.statuses[id].instance == r.instance && next.statuses[id].seqNo == r.seqNo && next.statuses[id].hash == r.settings.configHash
    && operation in next.active && next.active[operation] == id
    && |next.queue| == |r.queue| + 1 && next.queue[..|r.queue|] == r.queue && next.queue[|r.queue|] == Job(id, operation, r.settings)
    && SameRunsBut(r, next, id) && SameActiveBut(r, next, operation)
    && next.running == r.running && next.stopped == r.stopped && next.completed == r.completed && SameBlock(r, next) && SameSettings(r, next)
  }

  /** A config write is refused while a block stands, a run there is already is the answer, and else there is a new one. */
  lemma EnqueueExactly(r: Registry, operation: Operation, newId: Option<RunId>, now: int)
    requires Invariant(r)
    ensures var (next, reply) := Enqueue(r, operation, newId, now);
      if (operation == AutoPull || operation == MetadataSync) && r.blocker.Some? then
        next == r && reply.Refused? && reply.blocking == r.blocker && reply.code == r.record.code && reply.code != NoCode
      else if operation in r.active then next == r && reply == Coalesced(r.active[operation])
      else if newId.Some? then reply == Admitted(newId.value) && IsAdmitted(r, next, operation, newId.value, now)
      else next == r && reply == Refused(None, NotImplemented)
  {
    hide Invariant;
    if r.blocker.Some? {
      BlockSays(r);
    }
  }

  lemma BlockSays(r: Registry)
    requires Invariant(r) && r.blocker.Some?
    ensures r.blocker.value in r.statuses && r.statuses[r.blocker.value].code == r.record.code != NoCode
  {
  }

  /** The worker may take this job. */
  predicate Takeable(r: Registry, k: int) {
    0 <= k < |r.queue| && !(r.blocker.Some? && (r.queue[k].operation == AutoPull || r.queue[k].operation == MetadataSync))
  }

  /** The worker takes the first job it may, if it has none and the service runs, and only that leaves the queue. */
  lemma DequeueExactly(r: Registry)
    ensures CanDequeue(r) <==> !r.stopped && r.running.None? && exists k :: Takeable(r, k)
    ensures CanDequeue(r) ==> exists k :: IsTaken(r, Dequeue(r), k)
  {
    var first := FirstRunnable(r.queue, r.blocker.Some?);
    assert forall k :: 0 <= k < first ==> !Takeable(r, k);
    if first < |r.queue| {
      assert Takeable(r, first);
      if CanDequeue(r) {
        TakesFirst(r, first);
        hide IsTaken;
        assert IsTaken(r, Dequeue(r), first);
      }
    }
  }

  lemma TakesFirst(r: Registry, first: nat)
    requires CanDequeue(r) && first == FirstRunnable(r.queue, r.blocker.Some?)
    ensures IsTaken(r, Dequeue(r), first)
  {
    FirstIsTakeable(r);
    LeftAfter(r.queue, first);
    hide FirstRunnable, Takeable;
  }

  lemma FirstIsTakeable(r: Registry)
    requires CanDequeue(r)
    ensures var first := FirstRunnable(r.queue, r.blocker.Some?); first < |r.queue| && Takeable(r, first) && forall j :: 0 <= j < first ==> !Takeable(r, j)
  {
  }

  lemma LeftAfter(queue: seq<Job>, k: nat)
    requires k < |queue|
    ensures var left := queue[..k] + queue[k + 1..];
      && |left| == |queue| - 1 && (forall j :: 0 <= j < k ==> left[j] == queue[j]) && (forall j :: k < j < |queue| ==> left[j - 1] == queue[j])
  {
  }

  ghost predicate IsTaken(r: Registry, next: Registry, k: int) {
    && Takeable(r, k) && (forall j :: 0 <= j < k ==> !Takeable(r, j))
    && next.running == Some(r.queue[k]) && |next.queue| == |r.queue| - 1
    && (forall j :: 0 <= j < k ==> next.queue[j] == r.queue[j]) && (forall j :: k < j < |r.queue| ==> next.queue[j - 1] == r.queue[j])
    && next.statuses == r.statuses && next.active == r.active && next.completed == r.completed
    && next.stopped == r.stopped && SameBlock(r, next) && SameSettings(r, next)
  }

  // ---------- the run in progress ----------

  /** Apart from what the run says nothing changes. */
  ghost predicate OnlyTheRun(r: Registry, next: Registry, id: RunId) {
    && SameRunsBut(r, next, id) && next.active == r.active && next.completed == r.completed
    && SameQueue(r, next) && SameBlock(r, next) && SameSettings(r, next)
  }

  lemma BeginExactly(r: Registry, job: Job, now: int)
    requires job.id in r.statuses
    ensures var next := Begin(r, job, now);
      && OnlyTheRun(r, next, job.id) && job.id in next.statuses
      && next.statuses[job.id] == r.statuses[job.id].(state := next.statuses[job.id].state, attempt := 1, startedAt := Some(now))
      && next.statuses[job.id].state == if job.operation == Reconcile then Reconciling else Planning
  {
  }

  lemma ProgressExactly(r: Registry, job: Job, attempt: nat, state: Option<RunState>)
    requires job.id in r.statuses
    ensures var next := Progress(r, job, attempt, state);
      && OnlyTheRun(r, next, job.id) && job.id in next.statuses
      && next.statuses[job.id] == r.statuses[job.id].(state := next.statuses[job.id].state, attempt := next.statuses[job.id].attempt)
      && (state.Some? ==> next.statuses[job.id].state == state.value) && (state.None? ==> next.statuses[job.id].state == r.statuses[job.id].state)
      && (attempt > 0 ==> next.statuses[job.id].attempt == attempt) && (attempt == 0 ==> next.statuses[job.id].attempt == r.statuses[job.id].attempt)
  {
  }

  // ---------- retention ----------

  /** The run joins the retained ones, and if there are 32 already the oldest is forgotten. */
  ghost predicate Joins(before: seq<RunId>, statuses: map<RunId, Run>, after: seq<RunId>, left: map<RunId, Run>, id: RunId) {
    if |before| < 32 then after == before + [id] && left == statuses
    else
      && |after| == 32 && after[31] == id && (forall i :: 0 <= i < 31 ==> after[i] == before[i + 1])
      && before[0] !in left && (forall k :: k != before[0] ==> (k in left <==> k in statuses) && (k in left ==> left[k] == statuses[k]))
  }

  lemma RetainExactly(r: Registry, id: RunId)
    requires BoundedHistory(r.completed) && r.blocker != Some(id) && id !in r.completed
    ensures var next := RetainCompleted(r, id);
      && Joins(r.completed, r.statuses, next.completed, next.statuses, id)
      && next.active == r.active && SameQueue(r, next) && SameBlock(r, next) && SameSettings(r, next)
  {
    EvictOldest(r.statuses, r.completed, id);
  }

  // ---------- the end of a run ----------

  predicate StopsTheWriter(code: ErrorCode) {
    code == PlannerStalled || code == PersistedRuntimeUncertain || code == CommitVerificationFailed
  }

  /** What a run says when it has ended. */
  predicate IsFinished(before: Run, after: Run, outcome: Outcome, now: int) {
    && after.id == before.id && after.operation == before.operation && after.attempt == before.attempt
    && after.queuedAt == before.queuedAt && after.startedAt == before.startedAt && after.finishedAt == Some(now)
    && after.instance == before.instance && after.seqNo == before.seqNo
    && after.code == outcome.code && after.version == outcome.version && after.changed == outcome.changed
    && (outcome.configHash.Some? ==> after.hash == outcome.configHash) && (outcome.configHash.None? ==> after.hash == before.hash)
    && (StopsTheWriter(outcome.code) ==> after.state == Uncertain)
    && (!StopsTheWriter(outcome.code) && outcome.state.Some? ==> after.state == outcome.state.value)
    && (!StopsTheWriter(outcome.code) && outcome.state.None? ==> after.state == if outcome.code == NoCode then Succeeded else Failed)
  }

  /** The job is done: the worker is free, the operation may be asked for again. */
  ghost predicate IsRetired(r: Registry, next: Registry, job: Job) {
    && next.running.None? && next.queue == r.queue && next.stopped == r.stopped && SameSettings(r, next)
    && job.operation !in next.active && SameActiveBut(r, next, job.operation)
  }

  /** The block is that of the run, with the evidence it brought. */
  ghost predicate BlocksWith(r: Registry, next: Registry, job: Job, outcome: Outcome, now: int) {
    && next.blocker == Some(job.id) && next.completed == r.completed && SameRunsBut(r, next, job.id)
    && next.record.id == Some(job.id) && next.record.code == outcome.code && next.record.version == outcome.block.version
    && next.record.preStatus == outcome.block.preStatus && next.record.expectedHashes == outcome.block.expectedHashes
    && next.record.restarted == outcome.block.restarted
    && next.record.evidenceCaptured == (if outcome.block.evidenceCaptured.Some? then outcome.block.evidenceCaptured else Some(now))
  }

  /** A run that ends in doubt stays and blocks; any other is retained. */
  lemma FinishExactly(r: Registry, job: Job, outcome: Outcome, now: int)
    requires Invariant(r) && r.running == Some(job)
    ensures var next := Finish(r, job, outcome, now);
      && IsRetired(r, next, job) && job.id in next.statuses && IsFinished(r.statuses[job.id], next.statuses[job.id], outcome, now)
      && (if StopsTheWriter(outcome.code) then BlocksWith(r, next, job, outcome, now)
          else
            && SameBlock(r, next)
            && Joins(r.completed, r.statuses[job.id := next.statuses[job.id]], next.completed, next.statuses, job.id))
  {
    RunningFacts(r, job);
    FinishedIs(r.statuses[job.id], outcome, now);
    hide Invariant, FinishedRun, IsFinished;
    if StopsTheWriter(outcome.code) {
      FinishBlocks(r, job, outcome, now);
      hide *;
    } else {
      FinishRetains(r, job, outcome, now);
      hide *;
    }
  }

  lemma FinishedIs(run: Run, outcome: Outcome, now: int)
    ensures IsFinished(run, FinishedRun(run, outcome, now), outcome, now)
  {
  }

  lemma FinishBlocks(r: Registry, job: Job, outcome: Outcome, now: int)
    requires job.id in r.statuses && StopsTheWriter(outcome.code)
    ensures var next := Finish(r, job, outcome, now);
      IsRetired(r, next, job) && job.id in next.statuses && next.statuses[job.id] == FinishedRun(r.statuses[job.id], outcome, now)
    ensures BlocksWith(r, Finish(r, job, outcome, now), job, outcome, now)
  {
    hide Evict, FinishedRun;
  }

  lemma FinishRetains(r: Registry, job: Job, outcome: Outcome, now: int)
    requires job.id in r.statuses && !StopsTheWriter(outcome.code)
    requires BoundedHistory(r.completed) && job.id !in r.completed && r.blocker != Some(job.id) && (|r.completed| == 32 ==> r.completed[0] != job.id)
    ensures var next, run := Finish(r, job, outcome, now), FinishedRun(r.statuses[job.id], outcome, now);
      && IsRetired(r, next, job) && job.id in next.statuses && next.statuses[job.id] == run
      && SameBlock(r, next) && Joins(r.completed, r.statuses[job.id := run], next.completed, next.statuses, job.id)
  {
    hide Evict, FinishedRun;
    var run := FinishedRun(r.statuses[job.id], outcome, now);
    var done := SetRun(r, job.id, run).(active := r.active - {job.operation});
    RetainExactly(done, job.id);
    assert Finish(r, job, outcome, now) == RetainCompleted(done, job.id).(running := None);
    hide RetainCompleted;
  }

  lemma RunningFacts(r: Registry, job: Job)
    requires Invariant(r) && r.running == Some(job)
    ensures job.id in r.statuses && BoundedHistory(r.completed) && job.id !in r.completed && r.blocker != Some(job.id)
    ensures job.operation in r.active && r.active[job.operation] == job.id && r.statuses[job.id].operation == job.operation
    ensures |r.completed| == 32 ==> r.completed[0] != job.id
  {
  }

  /** The check has ended, as the result says. */
  lemma FinishReconcileExactly(r: Registry, job: Job, result: ReconcileResult, now: int)
    requires Invariant(r) && r.running == Some(job)
    ensures var next := FinishReconcile(r, job, result, now);
      && IsRetired(r, next, job) && SameBlock(r, next) && job.id in next.statuses
      && next.statuses[job.id].finishedAt == Some(now)
      && (result.cleared ==> next.statuses[job.id].state == Succeeded && next.statuses[job.id].code == NoCode && next.statuses[job.id].version == result.version)
      && (!result.cleared ==> next.statuses[job.id].state == Failed && next.statuses[job.id].code == ReconcileFailed)
      && (!result.cleared ==> next.statuses[job.id].version == r.statuses[job.id].version)
      && Joins(r.completed, r.statuses[job.id := next.statuses[job.id]], next.completed, next.statuses, job.id)
  {
    RunningFacts(r, job);
    var done := SetRun(r, job.id, ReconciledRun(r.statuses[job.id], result, now)).(active := r.active - {job.operation});
    RetainExactly(done, job.id);
    hide Invariant, Evict;
  }

  // ---------- the block ----------

  /** Clearing forgets the block. A run in doubt is retained, the one of the start is dropped. */
  lemma ClearBlockExactly(r: Registry)
    requires Invariant(r) && r.blocker.Some?
    ensures var next, id := ClearBlock(r), r.blocker.value;
      && next.blocker.None? && next.record == BlockRecord(None, NoCode, None, map[], map[], false, None)
      && next.active == r.active && SameQueue(r, next) && SameSettings(r, next)
      && (r.record.code == StartupReconcileRequired ==> next.completed == r.completed && id !in next.statuses && SameRunsBut(r, next, id))
      && (r.record.code != StartupReconcileRequired ==> Joins(r.completed, r.statuses, next.completed, next.statuses, id))
  {
    BlockerFacts(r);
    if r.record.code != StartupReconcileRequired {
      RetainExactly(r.(blocker := None, record := EMPTY_RECORD), r.blocker.value);
    }
    hide Invariant, Evict;
  }

  lemma BlockerFacts(r: Registry)
    requires Invariant(r) && r.blocker.Some?
    ensures r.blocker.value in r.statuses && BoundedHistory(r.completed) && r.blocker.value !in r.completed
    ensures r.statuses[r.blocker.value].state == Uncertain <==> r.record.code != StartupReconcileRequired
  {
  }

  predicate StillStands(r: Registry, expected: BlockRecord) {
    r.blocker.Some? && r.record.id == expected.id && r.record.code == expected.code && r.record.version == expected.version
  }

  /** A check clears the block it was about, if that still stands, and no other. */
  lemma ClearMatchingExactly(r: Registry, expected: BlockRecord, version: Option<Digest>)
    ensures var (next, cleared) := ClearMatching(r, expected, version);
      && (cleared <==> StillStands(r, expected) && (expected.version.None? || version == expected.version))
      && next == if cleared then ClearBlock(r) else r
  {
    hide ClearBlock;
  }

  // ---------- settings ----------

  /** A new deadline is one interval from now; an interval that has not changed keeps its deadline; without one there is none. */
  ghost predicate DeadlineFollows(r: Registry, next: Registry, operation: Operation, was: nat, interval: nat, now: int) {
    if interval == 0 then operation !in next.deadlines
    else
      && operation in next.deadlines
      && (if r.configured && was == interval then operation in r.deadlines && next.deadlines[operation] == r.deadlines[operation]
          else next.deadlines[operation] == now + interval)
  }

  lemma ConfigureExactly(r: Registry, settings: Settings, now: int)
    requires Invariant(r)
    ensures var next := Configure(r, settings, now);
      && next.settings == settings && next.configured && next.instance == r.instance && next.seqNo == r.seqNo + 1
      && DeadlineFollows(r, next, AutoPull, r.settings.autoPullInterval, settings.autoPullInterval, now)
      && DeadlineFollows(r, next, MetadataSync, r.settings.metadataSyncInterval, settings.metadataSyncInterval, now)
      && DeadlineFollows(r, next, ModelInfo, r.settings.modelInfoInterval, settings.modelInfoInterval, now)
      && Reconcile !in next.deadlines
      && next.statuses.Keys == r.statuses.Keys
      && (forall id :: id in r.statuses ==>
           next.statuses[id] == r.statuses[id].(instance := r.instance, seqNo := r.seqNo + 1, hash := settings.configHash))
      && next.active == r.active && next.completed == r.completed && SameQueue(r, next) && SameBlock(r, next)
  {
    DeadlinesThere(r);
    hide Invariant;
  }

  lemma DeadlinesThere(r: Registry)
    requires Invariant(r)
    ensures Reconcile !in r.deadlines
    ensures r.settings.autoPullInterval > 0 <==> AutoPull in r.deadlines
    ensures r.settings.metadataSyncInterval > 0 <==> MetadataSync in r.deadlines
    ensures r.settings.modelInfoInterval > 0 <==> ModelInfo in r.deadlines
  {
    hide Runs;
    assert Interval(r.settings, AutoPull) == r.settings.autoPullInterval && Interval(r.settings, Reconcile) == 0;
    assert Interval(r.settings, MetadataSync) == r.settings.metadataSyncInterval && Interval(r.settings, ModelInfo) == r.settings.modelInfoInterval;
  }

  // ---------- the schedule ----------

  predicate IsDue(r: Registry, operation: Operation, now: int) {
    operation in r.deadlines && r.deadlines[operation] <= now
  }

  predicate IsHeld(r: Registry, operation: Operation) {
    (operation == AutoPull || operation == MetadataSync) && r.blocker.Some?
  }

  /** By whole intervals to the first moment after now. */
  ghost predicate MovedBy(deadline: int, next: int, interval: nat, now: int) {
    next > now && next - interval <= now && exists k: nat :: next == deadline + k * interval
  }

  /** A deadline that is due and not held moves on, and its operation runs; any other stays, and starts nothing. */
  lemma FireExactly(r: Registry, order: seq<Operation>, ids: Operation -> Option<RunId>, now: int, operation: Operation)
    requires Invariant(r) && Distinct(order) && NewIds(r, order, ids) && operation in order && operation in r.deadlines
    ensures var next := Fire(r, order, ids, now);
      && operation in next.deadlines
      && (if IsDue(r, operation, now) && !IsHeld(r, operation) && (operation in r.active || ids(operation).Some?) then
            && (operation == AutoPull ==> MovedBy(r.deadlines[operation], next.deadlines[operation], r.settings.autoPullInterval, now))
            && (operation == MetadataSync ==> MovedBy(r.deadlines[operation], next.deadlines[operation], r.settings.metadataSyncInterval, now))
            && (operation == ModelInfo ==> MovedBy(r.deadlines[operation], next.deadlines[operation], r.settings.modelInfoInterval, now))
            && operation in next.active
            && next.active[operation] == (if operation in r.active then r.active[operation] else ids(operation).value)
          else
            && next.deadlines[operation] == r.deadlines[operation]
            && (operation in next.active <==> operation in r.active)
            && (operation in r.active ==> next.active[operation] == r.active[operation]))
  {
    DeadlinesThere(r);
    InvariantParts(r);
    FireIsOrderFree(r, order, ids, now);
    hide Invariant, Fire, NewIds, BlockerRecorded, DeadlinesMatch;
    var next := Fire(r, order, ids, now);
    assert operation in next.deadlines.Keys;
    if IsDue(r, operation, now) && !IsHeld(r, operation) && (operation in r.active || ids(operation).Some?) {
      NextDeadlineOnGrid(r.deadlines[operation], Interval(r.settings, operation), now);
    }
  }

  lemma InvariantParts(r: Registry)
    requires Invariant(r)
    ensures DeadlinesMatch(r.deadlines, r.settings, r.configured) && BlockerRecorded(r.blocker, r.record, r.statuses)
  {
  }

  // ---------- the end of the service ----------

  /** The last 32 of a list. */
  function LastThirtyTwo(ids: seq<RunId>): seq<RunId> {
    if |ids| <= 32 then ids else ids[|ids| - 32..]
  }

  function IdsOf(queue: seq<Job>): seq<RunId> {
    seq(|queue|, i requires 0 <= i < |queue| => queue[i].id)
  }

  predicate Waits(queue: seq<Job>, operation: Operation) {
    exists i :: 0 <= i < |queue| && queue[i].operation == operation
  }

  /** What was queued has failed and is retained after what was; everything else stays. */
  ghost predicate Drained(r: Registry, next: Registry, now: int) {
    && next.queue == [] && next.running == r.running && SameBlock(r, next) && SameSettings(r, next)
    && next.completed == LastThirtyTwo(r.completed + IdsOf(r.queue))
    && (forall op :: op in next.active <==> op in r.active && !Waits(r.queue, op))
    && (forall op :: op in next.active ==> next.active[op] == r.active[op])
    && (forall id :: id in next.statuses ==> id in r.statuses)
    && (forall id :: id in next.statuses ==> next.statuses[id] == if id in IdsOf(r.queue) then Shut(r.statuses[id], now) else r.statuses[id])
  }

  function Shut(run: Run, now: int): Run {
    run.(state := Failed, code := NotImplemented, finishedAt := Some(now))
  }

  lemma {:induction false} DrainsExactly(r: Registry, now: int)
    requires Invariant(r)
    ensures Drained(r, DrainQueue(r, now), now)
    decreases |r.queue|
  {
    if r.queue == [] {
      assert r.completed + IdsOf([]) == r.completed;
      SmallHistory(r);
    } else {
      var mid := ShutdownJob(r, r.queue[0], now).(queue := r.queue[1..]);
      ShutdownJobInvariant(r, now);
      DrainsExactly(mid, now);
      OneDrained(r, now);
      assert DrainQueue(r, now) == DrainQueue(mid, now);
      hide Invariant, DrainQueue, ShutdownJob;
      DrainedMore(r, mid, DrainQueue(r, now), now);
    }
  }

  lemma SmallHistory(r: Registry)
    requires Invariant(r)
    ensures |r.completed| <= 32
  {
  }

  /** One queued job has failed. */
  ghost predicate OneLess(r: Registry, mid: Registry, now: int)
    requires r.queue != []
  {
    var job := r.queue[0];
    && mid.queue == r.queue[1..] && mid.running == r.running && SameBlock(r, mid) && SameSettings(r, mid)
    && mid.completed == LastThirtyTwo(r.completed + [job.id]) && mid.active == r.active - {job.operation}
    && (forall id :: id in mid.statuses ==> id in r.statuses)
    && (forall id :: id in mid.statuses ==> mid.statuses[id] == if id == job.id then Shut(r.statuses[id], now) else r.statuses[id])
  }

  lemma QueuedFacts(r: Registry)
    requires Invariant(r) && r.queue != []
    ensures var job := r.queue[0]; job.id in r.statuses && job.id !in r.completed && r.blocker != Some(job.id) && BoundedHistory(r.completed)
  {
    assert r.queue[0] in r.queue;
  }

  lemma OneDrained(r: Registry, now: int)
    requires Invariant(r) && r.queue != []
    ensures OneLess(r, ShutdownJob(r, r.queue[0], now).(queue := r.queue[1..]), now)
  {
    QueuedFacts(r);
    var job := r.queue[0];
    var failed := SetRun(r, job.id, FailedRun(r.statuses[job.id], now));
    RetainExactly(failed, job.id);
    hide Invariant, RetainCompleted;
    assert failed.completed == r.completed;
    JoinsIsLast(r.completed, failed.statuses, RetainCompleted(failed, job.id).completed, RetainCompleted(failed, job.id).statuses, job.id);
  }

  lemma JoinsIsLast(before: seq<RunId>, statuses: map<RunId, Run>, after: seq<RunId>, left: map<RunId, Run>, id: RunId)
    requires |before| <= 32 && Joins(before, statuses, after, left, id)
    ensures after == LastThirtyTwo(before + [id])
    ensures forall k :: k in left ==> k in statuses && left[k] == statuses[k]
  {
    if |before| == 32 {
      assert (before + [id])[1..] == before[1..] + [id];
    }
  }

  lemma LastOfLast(a: seq<RunId>, x: RunId, b: seq<RunId>)
    ensures LastThirtyTwo(LastThirtyTwo(a + [x]) + b) == LastThirtyTwo(a + ([x] + b))
  {
    var s := a + [x];
    assert a + ([x] + b) == s + b;
    if |s| > 32 {
      var last := s[|s| - 32..];
      SuffixOfSum(s, b, |s| - 32);
      assert |last + b| > 32 ==> (last + b)[|last + b| - 32..] == (s + b)[|s| - 32..][|b|..];
    }
  }

  lemma SuffixOfSum(s: seq<RunId>, b: seq<RunId>, k: nat)
    requires k <= |s|
    ensures s[k..] + b == (s + b)[k..]
  {
  }

  lemma DrainedMore(r: Registry, mid: Registry, next: Registry, now: int)
    requires r.queue != [] && OneLess(r, mid, now) && Drained(mid, next, now)
    ensures Drained(r, next, now)
  {
    IdsNext(r.queue);
    LastOfLast(r.completed, r.queue[0].id, IdsOf(mid.queue));
    forall op {
      WaitsNext(r.queue, op);
    }
    hide LastThirtyTwo, IdsOf, Waits, Shut, SameBlock, SameSettings;
    ShutTwice(r, mid, next, now);
  }

  lemma IdsNext(queue: seq<Job>)
    requires queue != []
    ensures IdsOf(queue) == [queue[0].id] + IdsOf(queue[1..])
    ensures forall id :: id in IdsOf(queue) <==> id == queue[0].id || id in IdsOf(queue[1..])
  {
    assert IdsOf(queue) == [queue[0].id] + IdsOf(queue[1..]);
    hide IdsOf;
  }

  lemma WaitsNext(queue: seq<Job>, op: Operation)
    requires queue != []
    ensures Waits(queue, op) <==> op == queue[0].operation || Waits(queue[1..], op)
  {
    if Waits(queue[1..], op) {
      var i :| 0 <= i < |queue[1..]| && queue[1..][i].operation == op;
      assert queue[i + 1].operation == op;
    }
    if Waits(queue, op) && op != queue[0].operation {
      var i :| 0 <= i < |queue| && queue[i].operation == op;
      assert queue[1..][i - 1].operation == op;
    }
  }

  lemma ShutTwice(r: Registry, mid: Registry, next: Registry, now: int)
    requires r.queue != [] && mid.queue == r.queue[1..]
    requires forall id :: id in IdsOf(r.queue) <==> id == r.queue[0].id || id in IdsOf(mid.queue)
    requires (forall id :: id in mid.statuses ==> id in r.statuses) && forall id :: id in next.statuses ==> id in mid.statuses
    requires forall id :: id in mid.statuses ==> mid.statuses[id] == if id == r.queue[0].id then Shut(r.statuses[id], now) else r.statuses[id]
    requires forall id :: id in next.statuses ==> next.statuses[id] == if id in IdsOf(mid.queue) then Shut(mid.statuses[id], now) else mid.statuses[id]
    ensures forall id :: id in next.statuses ==> id in r.statuses
    ensures forall id :: id in next.statuses ==> next.statuses[id] == if id in IdsOf(r.queue) then Shut(r.statuses[id], now) else r.statuses[id]
  {
    hide IdsOf;
  }

  /** Stopping fails what waits, and neither the run in progress nor a block. */
  lemma ShutdownExactly(r: Registry, now: int)
    requires Invariant(r)
    ensures Shutdown(r, now).stopped
    ensures if r.stopped then Shutdown(r, now) == r else Drained(r, Shutdown(r, now), now)
  {
    DrainsExactly(r, now);
    StoppedIsDrained(r, DrainQueue(r, now), now);
    hide Invariant, DrainQueue, Drained;
  }

  lemma StoppedIsDrained(r: Registry, next: Registry, now: int)
    requires Drained(r, next, now)
    ensures Drained(r, next.(stopped := true), now)
  {
    hide LastThirtyTwo, IdsOf, Waits, Shut;
  }
}
