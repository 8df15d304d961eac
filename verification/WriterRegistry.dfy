/** The Writer's run registry as a value, one function for each mutex-protected section of the
    service, and the invariant all of them keep. WriterService proves that the object with its
    shared status records computes exactly these functions. */
module WriterRegistry {
  import opened Options
  import opened WriterTypes

  const MAX_COMPLETED := 32

  datatype Run = Run(
    id: RunId, operation: Operation, state: RunState, attempt: nat,
    queuedAt: int, startedAt: Option<int>, finishedAt: Option<int>,
    version: Option<Digest>, changed: bool, code: ErrorCode,
    instance: nat, seqNo: nat, hash: Option<Digest>)

  /** `running` is the item the worker goroutine holds in its local variable. */
  datatype Registry = Registry(
    settings: Settings, configured: bool, instance: nat, seqNo: nat,
    queue: seq<Job>, running: Option<Job>, stopped: bool,
    statuses: map<RunId, Run>, active: map<Operation, RunId>, completed: seq<RunId>,
    blocker: Option<RunId>, record: BlockRecord,
    deadlines: map<Operation, int>)

  datatype EnqueueReply =
    | Refused(blocking: Option<RunId>, code: ErrorCode)
    | Coalesced(id: RunId)
    | Admitted(id: RunId)

  const NO_SETTINGS := Settings(0, 0, 0, 0, None)

  // ---------- the sections ----------

  function NewRun(r: Registry, id: RunId, operation: Operation, now: int): Run {
    Run(id, operation, Queued, 0, now, None, None, None, false, NoCode, r.instance, r.seqNo, r.settings.configHash)
  }

  function Initial(instance: nat, startup: RunId, now: int): Registry {
    Registry(NO_SETTINGS, false, instance, 0, [], None, false,
      map[startup := Run(startup, Reconcile, Blocked, 0, now, None, None, None, false, StartupReconcileRequired, instance, 0, None)],
      map[], [], Some(startup),
      BlockRecord(Some(startup), StartupReconcileRequired, None, map[], map[], true, Some(now)), map[])
  }

  function Enqueue(r: Registry, operation: Operation, newId: Option<RunId>, now: int): (Registry, EnqueueReply) {
    if IsConfigWrite(operation) && r.blocker.Some? then
      (r, Refused(r.blocker, if r.blocker.value in r.statuses then r.statuses[r.blocker.value].code else NoCode))
    else if operation in r.active then
      (r, Coalesced(r.active[operation]))
    else if newId.None? then
      (r, Refused(None, NotImplemented))
    else
      var id := newId.value;
      (r.(statuses := r.statuses[id := NewRun(r, id, operation, now)],
          active := r.active[operation := id],
          queue := r.queue + [Job(id, operation, r.settings)]),
       Admitted(id))
  }

  /** The position of the first job the worker may take; |queue| when there is none. */
  function FirstRunnable(queue: seq<Job>, blocked: bool): (index: nat)
    ensures index <= |queue|
    ensures forall k :: 0 <= k < index ==> blocked && IsConfigWrite(queue[k].operation)
    ensures index < |queue| ==> !blocked || !IsConfigWrite(queue[index].operation)
  {
    if queue == [] then 0
    else if !blocked || !IsConfigWrite(queue[0].operation) then 0
    else 1 + FirstRunnable(queue[1..], blocked)
  }

  predicate CanDequeue(r: Registry) {
    !r.stopped && r.running.None? && FirstRunnable(r.queue, r.blocker.Some?) < |r.queue|
  }

  function Dequeue(r: Registry): Registry
    requires CanDequeue(r)
  {
    var index := FirstRunnable(r.queue, r.blocker.Some?);
    r.(queue := r.queue[..index] + r.queue[index + 1..], running := Some(r.queue[index]))
  }

  function SetRun(r: Registry, id: RunId, run: Run): Registry {
    r.(statuses := r.statuses[id := run])
  }

  function Begin(r: Registry, job: Job, now: int): Registry {
    if job.id !in r.statuses then r
    else
      var run := r.statuses[job.id];
      SetRun(r, job.id, run.(attempt := 1, startedAt := Some(now),
        state := if job.operation == Reconcile then Reconciling else Planning))
  }

  function Progress(r: Registry, job: Job, attempt: nat, state: Option<RunState>): Registry {
    if job.id !in r.statuses then r
    else
      var run := r.statuses[job.id];
      SetRun(r, job.id, run.(
        attempt := if attempt > 0 then attempt else run.attempt,
        state := if state.Some? then state.value else run.state))
  }

  function Evict(statuses: map<RunId, Run>, completed: seq<RunId>): (map<RunId, Run>, seq<RunId>)
    decreases |completed|
  {
    if |completed| <= MAX_COMPLETED then (statuses, completed)
    else Evict(statuses - {completed[0]}, completed[1..])
  }

  function RetainCompleted(r: Registry, id: RunId): Registry {
    if r.blocker == Some(id) || id in r.completed then r
    else
      var (statuses, completed) := Evict(r.statuses, r.completed + [id]);
      r.(statuses := statuses, completed := completed)
  }

  /** Clearing with `retainUncertain` set, the only way the running service clears. */
  function ClearBlock(r: Registry): Registry {
    var cleared := r.(blocker := None, record := EMPTY_RECORD);
    if r.blocker.None? then cleared
    else
      var id := r.blocker.value;
      if id in r.statuses && r.statuses[id].state == Uncertain then RetainCompleted(cleared, id)
      else cleared.(statuses := r.statuses - {id})
  }

  predicate Matches(r: Registry, expected: BlockRecord, version: Option<Digest>) {
    && r.blocker.Some?
    && r.record.id == expected.id && r.record.code == expected.code && r.record.version == expected.version
    && (expected.version.Some? ==> version == expected.version)
  }

  function ClearMatching(r: Registry, expected: BlockRecord, version: Option<Digest>): (Registry, bool) {
    if Matches(r, expected, version) then (ClearBlock(r), true) else (r, false)
  }

  function Retire(r: Registry, job: Job, run: Run): Registry {
    RetainCompleted(SetRun(r, job.id, run).(active := r.active - {job.operation}), job.id)
  }

  function ReconciledRun(run: Run, result: ReconcileResult, now: int): Run {
    if result.cleared then run.(state := Succeeded, code := NoCode, version := result.version, finishedAt := Some(now))
    else run.(state := Failed, code := ReconcileFailed, finishedAt := Some(now))
  }

  function FinishReconcile(r: Registry, job: Job, result: ReconcileResult, now: int): Registry {
    if job.id !in r.statuses then r.(running := None)
    else Retire(r, job, ReconciledRun(r.statuses[job.id], result, now)).(running := None)
  }

  function FinishedRun(run: Run, outcome: Outcome, now: int): Run {
    var state := if outcome.state.Some? then outcome.state.value
                 else if outcome.code != NoCode then Failed else Succeeded;
    run.(
      state := if IsBlockingCode(outcome.code) then Uncertain else state,
      code := outcome.code, version := outcome.version, changed := outcome.changed,
      hash := if outcome.configHash.Some? then outcome.configHash else run.hash,
      finishedAt := Some(now))
  }

  function FinishedRecord(job: Job, outcome: Outcome, now: int): BlockRecord {
    outcome.block.(id := Some(job.id), code := outcome.code,
      evidenceCaptured := if outcome.block.evidenceCaptured.None? then Some(now) else outcome.block.evidenceCaptured)
  }

  function InstallBlock(r: Registry, job: Job, outcome: Outcome, now: int): Registry {
    if IsBlockingCode(outcome.code) then r.(blocker := Some(job.id), record := FinishedRecord(job, outcome, now)) else r
  }

  function Finish(r: Registry, job: Job, outcome: Outcome, now: int): Registry {
    if job.id !in r.statuses then r.(running := None)
    else Retire(InstallBlock(r, job, outcome, now), job, FinishedRun(r.statuses[job.id], outcome, now)).(running := None)
  }

  function UpdateDeadline(deadlines: map<Operation, int>, operation: Operation, previous: nat, next: nat, existed: bool, now: int): map<Operation, int> {
    if next == 0 then deadlines - {operation}
    else if !existed || previous != next then deadlines[operation := now + next]
    else deadlines
  }

  function Refreshed(run: Run, instance: nat, seqNo: nat, hash: Option<Digest>): Run {
    run.(instance := instance, seqNo := seqNo, hash := hash)
  }

  function RefreshAll(statuses: map<RunId, Run>, instance: nat, seqNo: nat, hash: Option<Digest>): map<RunId, Run> {
    map id | id in statuses :: Refreshed(statuses[id], instance, seqNo, hash)
  }

  function ConfigureDeadlines(deadlines: map<Operation, int>, previous: Settings, next: Settings, existed: bool, now: int): map<Operation, int> {
    var d1 := UpdateDeadline(deadlines, AutoPull, previous.autoPullInterval, next.autoPullInterval, existed, now);
    var d2 := UpdateDeadline(d1, MetadataSync, previous.metadataSyncInterval, next.metadataSyncInterval, existed, now);
    UpdateDeadline(d2, ModelInfo, previous.modelInfoInterval, next.modelInfoInterval, existed, now)
  }

  function Configure(r: Registry, next: Settings, now: int): Registry {
    r.(settings := next, configured := true, seqNo := r.seqNo + 1,
       deadlines := ConfigureDeadlines(r.deadlines, r.settings, next, r.configured, now),
       statuses := RefreshAll(r.statuses, r.instance, r.seqNo + 1, next.configHash))
  }

  function FailedRun(run: Run, now: int): Run {
    run.(state := Failed, code := NotImplemented, finishedAt := Some(now))
  }

  function ShutdownJob(r: Registry, job: Job, now: int): Registry {
    var retained :=
      if job.id !in r.statuses then r
      else RetainCompleted(SetRun(r, job.id, FailedRun(r.statuses[job.id], now)), job.id);
    retained.(active := retained.active - {job.operation})
  }

  lemma RetainIgnoresQueue(r: Registry, queue: seq<Job>, id: RunId)
    ensures RetainCompleted(r.(queue := queue), id) == RetainCompleted(r, id).(queue := queue)
  {
    hide Evict;
  }

  lemma ShutdownJobIgnoresQueue(r: Registry, queue: seq<Job>, job: Job, now: int)
    ensures ShutdownJob(r.(queue := queue), job, now) == ShutdownJob(r, job, now).(queue := queue)
  {
    hide RetainCompleted, FailedRun;
    if job.id in r.statuses {
      var updated := SetRun(r, job.id, FailedRun(r.statuses[job.id], now));
      RetainIgnoresQueue(updated, queue, job.id);
      assert SetRun(r.(queue := queue), job.id, FailedRun(r.statuses[job.id], now)) == updated.(queue := queue);
    }
  }

  /** Fails the queued jobs in order. */
  function DrainQueue(r: Registry, now: int): Registry
    decreases |r.queue|
  {
    if r.queue == [] then r
    else DrainQueue(ShutdownJob(r, r.queue[0], now).(queue := r.queue[1..]), now)
  }

  function Shutdown(r: Registry, now: int): Registry {
    if r.stopped then r else DrainQueue(r, now).(stopped := true)
  }

  // ---------- the invariant ----------

  ghost predicate NoDuplicates(ids: seq<RunId>) {
    forall i, j :: 0 <= i < j < |ids| ==> ids[i] != ids[j]
  }

  /** The run is the active one of its operation. */
  predicate IsActive(statuses: map<RunId, Run>, active: map<Operation, RunId>, id: RunId) {
    && id in statuses
    && statuses[id].operation in active
    && active[statuses[id].operation] == id
  }

  /** All of Partition but the rule that a status has a reason to exist, which `spare` alone may break. */
  ghost predicate PartitionExcept(
    statuses: map<RunId, Run>, active: map<Operation, RunId>, completed: seq<RunId>, blocker: Option<RunId>, spare: Option<RunId>)
  {
    && (forall id :: id in statuses ==> statuses[id].id == id)
    && (forall id :: id in completed ==> id in statuses)
    && (forall op :: op in active ==> active[op] in statuses && statuses[active[op]].operation == op)
    && (blocker.Some? ==> blocker.value in statuses)
    && (forall id :: id in statuses && spare != Some(id) ==>
         id in completed || IsActive(statuses, active, id) || blocker == Some(id))
    && (forall id :: id in completed ==> !IsActive(statuses, active, id) && blocker != Some(id))
    && (blocker.Some? ==> !IsActive(statuses, active, blocker.value))
  }

  /** The registry knows a status exactly for retained, active and blocking runs, and no run is two of these. */
  ghost predicate Partition(
    statuses: map<RunId, Run>, active: map<Operation, RunId>, completed: seq<RunId>, blocker: Option<RunId>)
  {
    PartitionExcept(statuses, active, completed, blocker, None)
  }

  ghost predicate BoundedHistory(completed: seq<RunId>) {
    NoDuplicates(completed) && |completed| <= MAX_COMPLETED
  }

  /** Queued and running jobs are active, one for each operation. */
  ghost predicate JobsActive(queue: seq<Job>, running: Option<Job>, active: map<Operation, RunId>) {
    && (forall j :: j in queue ==> j.operation in active && active[j.operation] == j.id)
    && (running.Some? ==> running.value.operation in active && active[running.value.operation] == running.value.id)
    && (forall i, j :: 0 <= i < j < |queue| ==> queue[i].operation != queue[j].operation)
    && (running.Some? ==> forall j :: j in queue ==> j.operation != running.value.operation)
  }

  ghost predicate Pending(queue: seq<Job>, running: Option<Job>, op: Operation) {
    || (running.Some? && running.value.operation == op)
    || (exists j :: j in queue && j.operation == op)
  }

  /** Every active operation is queued or running. */
  ghost predicate ActivePending(queue: seq<Job>, running: Option<Job>, active: map<Operation, RunId>) {
    forall op :: op in active ==> Pending(queue, running, op)
  }

  /** A blocker is either the startup block or a run that ended in doubt, and its record says which. */
  predicate Explains(record: BlockRecord, run: Run) {
    && record.code == run.code
    && ((record.code == StartupReconcileRequired && run.state == Blocked)
        || (IsBlockingCode(record.code) && run.state == Uncertain))
  }

  ghost predicate BlockerRecorded(blocker: Option<RunId>, record: BlockRecord, statuses: map<RunId, Run>) {
    match blocker
    case None => record == EMPTY_RECORD
    case Some(id) => id in statuses && record.id == blocker && Explains(record, statuses[id])
  }

  /** No config write runs beside a blocker. */
  ghost predicate WritesHeld(blocker: Option<RunId>, running: Option<Job>) {
    blocker.Some? && running.Some? ==> !IsConfigWrite(running.value.operation)
  }

  ghost predicate DeadlinesMatch(deadlines: map<Operation, int>, settings: Settings, configured: bool) {
    && (forall op :: op in deadlines <==> Interval(settings, op) > 0)
    && (!configured ==> settings == NO_SETTINGS)
  }

  ghost predicate Runs(r: Registry) {
    && Partition(r.statuses, r.active, r.completed, r.blocker)
    && BoundedHistory(r.completed)
    && JobsActive(r.queue, r.running, r.active)
    && ActivePending(r.queue, r.running, r.active)
    && BlockerRecorded(r.blocker, r.record, r.statuses)
    && WritesHeld(r.blocker, r.running)
  }

  ghost predicate Invariant(r: Registry) {
    Runs(r) && DeadlinesMatch(r.deadlines, r.settings, r.configured)
  }

  // ---------- preservation ----------

  lemma InitialInvariant(instance: nat, startup: RunId, now: int)
    ensures Invariant(Initial(instance, startup, now))
  {
  }

  lemma AddRun(statuses: map<RunId, Run>, active: map<Operation, RunId>, completed: seq<RunId>, blocker: Option<RunId>, run: Run)
    requires Partition(statuses, active, completed, blocker)
    requires run.id !in statuses && run.operation !in active
    ensures Partition(statuses[run.id := run], active[run.operation := run.id], completed, blocker)
  {
  }

  lemma AppendJob(queue: seq<Job>, running: Option<Job>, active: map<Operation, RunId>, job: Job)
    requires JobsActive(queue, running, active) && ActivePending(queue, running, active)
    requires job.operation !in active
    ensures JobsActive(queue + [job], running, active[job.operation := job.id])
    ensures ActivePending(queue + [job], running, active[job.operation := job.id])
  {
    var longer := queue + [job];
    assert job in longer;
    forall op | op in active[job.operation := job.id] ensures Pending(longer, running, op) {
      if op != job.operation && !(running.Some? && running.value.operation == op) {
        var j :| j in queue && j.operation == op;
        assert j in longer;
      }
    }
  }

  lemma TakeJob(queue: seq<Job>, active: map<Operation, RunId>, index: nat)
    requires JobsActive(queue, None, active) && ActivePending(queue, None, active)
    requires index < |queue|
    ensures JobsActive(queue[..index] + queue[index + 1..], Some(queue[index]), active)
    ensures ActivePending(queue[..index] + queue[index + 1..], Some(queue[index]), active)
  {
    var shorter := queue[..index] + queue[index + 1..];
    forall i | 0 <= i < |shorter|
      ensures shorter[i] == queue[if i < index then i else i + 1]
    {
    }
    forall op | op in active ensures Pending(shorter, Some(queue[index]), op) {
      var j :| j in queue && j.operation == op;
      if j != queue[index] {
        assert j in queue[..index] || j in queue[index + 1..];
        assert j in shorter;
      }
    }
  }

  lemma EnqueueInvariant(r: Registry, operation: Operation, newId: Option<RunId>, now: int)
    requires Invariant(r)
    requires newId.Some? ==> newId.value !in r.statuses
    ensures Invariant(Enqueue(r, operation, newId, now).0)
  {
    if operation !in r.active && newId.Some? {
      AddRun(r.statuses, r.active, r.completed, r.blocker, NewRun(r, newId.value, operation, now));
      AppendJob(r.queue, r.running, r.active, Job(newId.value, operation, r.settings));
    }
  }

  lemma DequeueInvariant(r: Registry)
    requires Invariant(r) && CanDequeue(r)
    ensures Invariant(Dequeue(r))
  {
    TakeJob(r.queue, r.active, FirstRunnable(r.queue, r.blocker.Some?));
  }

  /** Overwriting the record of an active run without changing whose it is. */
  lemma SetActiveRun(statuses: map<RunId, Run>, active: map<Operation, RunId>, completed: seq<RunId>, blocker: Option<RunId>, run: Run)
    requires Partition(statuses, active, completed, blocker) && IsActive(statuses, active, run.id)
    requires run.operation == statuses[run.id].operation
    ensures Partition(statuses[run.id := run], active, completed, blocker)
  {
    forall other ensures IsActive(statuses[run.id := run], active, other) <==> IsActive(statuses, active, other) {
    }
  }

  lemma BeginInvariant(r: Registry, job: Job, now: int)
    requires Invariant(r) && r.running == Some(job)
    ensures Invariant(Begin(r, job, now))
  {
    SetActiveRun(r.statuses, r.active, r.completed, r.blocker, Begin(r, job, now).statuses[job.id]);
  }

  lemma ProgressInvariant(r: Registry, job: Job, attempt: nat, state: Option<RunState>)
    requires Invariant(r) && r.running == Some(job)
    ensures Invariant(Progress(r, job, attempt, state))
  {
    SetActiveRun(r.statuses, r.active, r.completed, r.blocker, Progress(r, job, attempt, state).statuses[job.id]);
  }

  /** Appending to a full history drops its oldest entry. */
  lemma EvictOldest(statuses: map<RunId, Run>, completed: seq<RunId>, id: RunId)
    requires BoundedHistory(completed) && id !in completed
    ensures var longer := completed + [id];
      Evict(statuses, longer) ==
        if |longer| <= MAX_COMPLETED then (statuses, longer) else (statuses - {longer[0]}, longer[1..])
    ensures BoundedHistory(Evict(statuses, completed + [id]).1)
    ensures forall k :: k in completed + [id] && (|completed| == MAX_COMPLETED ==> k != (completed + [id])[0]) ==>
      k in Evict(statuses, completed + [id]).1
    ensures |completed| == MAX_COMPLETED ==> (completed + [id])[0] !in Evict(statuses, completed + [id]).1
  {
    var longer := completed + [id];
    if |longer| > MAX_COMPLETED {
      assert Evict(statuses, longer) == Evict(statuses - {longer[0]}, longer[1..]);
      forall k | k in longer && k != longer[0] ensures k in longer[1..] {
        var i :| 0 <= i < |longer| && longer[i] == k;
        assert longer[1..][i - 1] == k;
      }
    }
  }

  /** Retention gives a finished run its reason to stay, and evicts only the oldest retained run:
      never an active one and never the blocker. */
  lemma RetainKeeps(r: Registry, id: RunId)
    requires PartitionExcept(r.statuses, r.active, r.completed, r.blocker, Some(id)) && BoundedHistory(r.completed)
    requires id in r.statuses && !IsActive(r.statuses, r.active, id)
    ensures var next := RetainCompleted(r, id);
      && Partition(next.statuses, r.active, next.completed, r.blocker) && BoundedHistory(next.completed)
      && next == r.(statuses := next.statuses, completed := next.completed)
      && (forall k :: k in r.statuses && (IsActive(r.statuses, r.active, k) || r.blocker == Some(k)) ==> k in next.statuses)
      && (forall k :: k in next.statuses ==> k in r.statuses && next.statuses[k] == r.statuses[k])
  {
    if r.blocker != Some(id) && id !in r.completed {
      EvictOldest(r.statuses, r.completed, id);
      var next := RetainCompleted(r, id);
      assert forall k :: k in next.completed ==> k in r.completed || k == id;
      forall k | k in next.statuses ensures IsActive(next.statuses, r.active, k) <==> IsActive(r.statuses, r.active, k) {
      }
    }
  }

  /** The worker's job leaves the active set. */
  lemma DropRunning(queue: seq<Job>, job: Job, active: map<Operation, RunId>)
    requires JobsActive(queue, Some(job), active) && ActivePending(queue, Some(job), active)
    ensures JobsActive(queue, None, active - {job.operation})
    ensures ActivePending(queue, None, active - {job.operation})
  {
    forall op | op in active - {job.operation} ensures Pending(queue, None, op) {
      assert Pending(queue, Some(job), op);
    }
  }

  /** Taking a finished run out of the active set leaves it as the one status without a reason to exist. */
  lemma DeactivateRun(statuses: map<RunId, Run>, active: map<Operation, RunId>, completed: seq<RunId>,
    before: Option<RunId>, blocker: Option<RunId>, run: Run)
    requires Partition(statuses, active, completed, before)
    requires IsActive(statuses, active, run.id) && statuses[run.id].operation == run.operation
    requires blocker == before || (before.None? && blocker == Some(run.id))
    ensures var after, rest := statuses[run.id := run], active - {run.operation};
      PartitionExcept(after, rest, completed, blocker, Some(run.id)) && !IsActive(after, rest, run.id)
  {
    var after, rest := statuses[run.id := run], active - {run.operation};
    forall k | k in after && k != run.id ensures IsActive(after, rest, k) <==> IsActive(statuses, active, k) {
    }
  }

  /** Retiring the running job, possibly as the new blocker, keeps the partition. */
  lemma RetireKeeps(r: Registry, job: Job, run: Run, blocker: Option<RunId>)
    requires Partition(r.statuses, r.active, r.completed, r.blocker) && BoundedHistory(r.completed)
    requires IsActive(r.statuses, r.active, job.id) && r.statuses[job.id].operation == job.operation
    requires run.id == job.id && run.operation == job.operation
    requires blocker == r.blocker || (r.blocker.None? && blocker == Some(job.id))
    ensures var next := Retire(r.(blocker := blocker), job, run);
      && Partition(next.statuses, next.active, next.completed, blocker) && BoundedHistory(next.completed)
      && next == r.(blocker := blocker, active := r.active - {job.operation}, statuses := next.statuses, completed := next.completed)
      && (blocker.Some? ==> blocker.value in next.statuses)
      && (forall k :: k in next.statuses ==> k in r.statuses && next.statuses[k] == if k == job.id then run else r.statuses[k])
  {
    DeactivateRun(r.statuses, r.active, r.completed, r.blocker, blocker, run);
    RetainKeeps(SetRun(r.(blocker := blocker), job.id, run).(active := r.active - {job.operation}), job.id);
  }

  lemma RetireRuns(r: Registry, job: Job, run: Run, blocker: Option<RunId>, record: BlockRecord)
    requires Runs(r) && r.running == Some(job)
    requires run.id == job.id && run.operation == job.operation
    requires (blocker == r.blocker && record == r.record)
      || (r.blocker.None? && blocker == Some(job.id) && record.id == blocker && Explains(record, run))
    ensures Runs(Retire(r.(blocker := blocker, record := record), job, run).(running := None))
    ensures blocker == Some(job.id) ==>
      var next := Retire(r.(blocker := blocker, record := record), job, run);
      job.id in next.statuses && next.statuses[job.id] == run
  {
    assert r.active[job.operation] == job.id && r.statuses[job.id].operation == job.operation;
    RetireKeeps(r.(record := record), job, run, blocker);
    DropRunning(r.queue, job, r.active);
  }

  lemma FinishReconcileInvariant(r: Registry, job: Job, result: ReconcileResult, now: int)
    requires Invariant(r) && r.running == Some(job)
    ensures var next := FinishReconcile(r, job, result, now);
      Invariant(next) && next.blocker == r.blocker && next.record == r.record && next.running.None?
  {
    RetireRuns(r, job, ReconciledRun(r.statuses[job.id], result, now), r.blocker, r.record);
  }

  /** A run that ends in doubt becomes the blocker and its status stays on record: the source would
      drop the blocker silently if the status were missing, and this shows it never is. */
  lemma FinishInvariant(r: Registry, job: Job, outcome: Outcome, now: int)
    requires Invariant(r) && r.running == Some(job)
    requires IsBlockingCode(outcome.code) ==> IsConfigWrite(job.operation)
    ensures Invariant(Finish(r, job, outcome, now))
    ensures IsBlockingCode(outcome.code) ==>
      var next := Finish(r, job, outcome, now);
      && next.blocker == Some(job.id) && next.record == FinishedRecord(job, outcome, now)
      && job.id in next.statuses && next.statuses[job.id].state == Uncertain
    ensures !IsBlockingCode(outcome.code) ==>
      Finish(r, job, outcome, now).blocker == r.blocker && Finish(r, job, outcome, now).record == r.record
  {
    var run := FinishedRun(r.statuses[job.id], outcome, now);
    if IsBlockingCode(outcome.code) {
      RetireRuns(r, job, run, Some(job.id), FinishedRecord(job, outcome, now));
    } else {
      RetireRuns(r, job, run, r.blocker, r.record);
    }
  }

  lemma ClearBlockInvariant(r: Registry)
    requires Invariant(r)
    ensures Invariant(ClearBlock(r)) && ClearBlock(r).blocker.None?
    ensures ClearBlock(r).running == r.running && ClearBlock(r).queue == r.queue
  {
    if r.blocker.Some? {
      var id := r.blocker.value;
      var cleared := r.(blocker := None, record := EMPTY_RECORD);
      if r.statuses[id].state == Uncertain {
        RetainKeeps(cleared, id);
      } else {
        DropStatus(r.statuses, r.active, r.completed, id);
      }
    }
  }

  lemma DropStatus(statuses: map<RunId, Run>, active: map<Operation, RunId>, completed: seq<RunId>, id: RunId)
    requires Partition(statuses, active, completed, Some(id))
    ensures Partition(statuses - {id}, active, completed, None)
  {
    forall k | k in statuses - {id} ensures IsActive(statuses - {id}, active, k) <==> IsActive(statuses, active, k) {
    }
  }

  lemma DeadlinesFollowSettings(deadlines: map<Operation, int>, previous: Settings, next: Settings, existed: bool, now: int)
    requires DeadlinesMatch(deadlines, previous, existed)
    ensures DeadlinesMatch(ConfigureDeadlines(deadlines, previous, next, existed, now), next, true)
  {
    var after := ConfigureDeadlines(deadlines, previous, next, existed, now);
    forall op ensures op in after <==> Interval(next, op) > 0 {
      assert op in deadlines <==> Interval(previous, op) > 0;
    }
  }

  lemma RefreshKeepsPartition(statuses: map<RunId, Run>, active: map<Operation, RunId>, completed: seq<RunId>, blocker: Option<RunId>,
    instance: nat, seqNo: nat, hash: Option<Digest>)
    requires Partition(statuses, active, completed, blocker)
    ensures Partition(RefreshAll(statuses, instance, seqNo, hash), active, completed, blocker)
  {
    var after := RefreshAll(statuses, instance, seqNo, hash);
    forall k ensures IsActive(after, active, k) <==> IsActive(statuses, active, k) {
    }
  }

  lemma RefreshKeepsRuns(r: Registry, next: Settings, now: int)
    requires Runs(r)
    ensures Runs(r.(statuses := RefreshAll(r.statuses, r.instance, r.seqNo + 1, next.configHash)))
  {
    RefreshKeepsPartition(r.statuses, r.active, r.completed, r.blocker, r.instance, r.seqNo + 1, next.configHash);
  }

  lemma ConfigureInvariant(r: Registry, next: Settings, now: int)
    requires Invariant(r)
    ensures Invariant(Configure(r, next, now))
  {
    hide ConfigureDeadlines, RefreshAll;
    DeadlinesFollowSettings(r.deadlines, r.settings, next, r.configured, now);
    RefreshKeepsRuns(r, next, now);
  }

  // ---------- shutdown ----------

  /** Shutdown retains the status while the operation is still marked active, and only then unmarks it. */
  lemma ShutdownJobPartition(r: Registry, job: Job, run: Run)
    requires Partition(r.statuses, r.active, r.completed, r.blocker) && BoundedHistory(r.completed)
    requires IsActive(r.statuses, r.active, job.id) && r.statuses[job.id].operation == job.operation
    requires run.id == job.id && run.operation == job.operation
    ensures var next := RetainCompleted(SetRun(r, job.id, run), job.id);
      && Partition(next.statuses, r.active - {job.operation}, next.completed, r.blocker) && BoundedHistory(next.completed)
      && next == r.(statuses := next.statuses, completed := next.completed)
      && (r.blocker.Some? ==> r.blocker.value in next.statuses && next.statuses[r.blocker.value] == r.statuses[r.blocker.value])
  {
    RetireKeeps(r, job, run, r.blocker);
  }

  lemma DropQueued(queue: seq<Job>, running: Option<Job>, active: map<Operation, RunId>)
    requires JobsActive(queue, running, active) && ActivePending(queue, running, active)
    requires queue != []
    ensures JobsActive(queue[1..], running, active - {queue[0].operation})
    ensures ActivePending(queue[1..], running, active - {queue[0].operation})
  {
    var rest := queue[1..];
    forall j | j in rest ensures j in queue && j.operation != queue[0].operation {
      var i :| 0 <= i < |rest| && rest[i] == j;
      assert queue[i + 1] == j;
    }
    forall op | op in active - {queue[0].operation} ensures Pending(rest, running, op) {
      if !(running.Some? && running.value.operation == op) {
        var j :| j in queue && j.operation == op;
        assert j in rest;
      }
    }
  }

  lemma ShutdownJobInvariant(r: Registry, now: int)
    requires Invariant(r) && r.queue != []
    ensures var next := ShutdownJob(r, r.queue[0], now).(queue := r.queue[1..]);
      && Invariant(next) && next.blocker == r.blocker && next.record == r.record && next.running == r.running
  {
    var job := r.queue[0];
    assert job in r.queue;
    ShutdownJobPartition(r, job, FailedRun(r.statuses[job.id], now));
    DropQueued(r.queue, r.running, r.active);
  }

  lemma {:induction false} DrainQueueInvariant(r: Registry, now: int)
    requires Invariant(r)
    ensures Invariant(DrainQueue(r, now))
    ensures DrainQueue(r, now).queue == [] && DrainQueue(r, now).running == r.running
    ensures DrainQueue(r, now).blocker == r.blocker && DrainQueue(r, now).record == r.record
    decreases |r.queue|
  {
    if r.queue != [] {
      ShutdownJobInvariant(r, now);
      DrainQueueInvariant(ShutdownJob(r, r.queue[0], now).(queue := r.queue[1..]), now);
    }
  }

  /** Shutdown fails everything queued, but a blocker and the run in progress outlive it. */
  lemma ShutdownInvariant(r: Registry, now: int)
    requires Invariant(r)
    ensures Invariant(Shutdown(r, now))
    ensures Shutdown(r, now).blocker == r.blocker && Shutdown(r, now).record == r.record
    ensures Shutdown(r, now).running == r.running
  {
    DrainQueueInvariant(r, now);
  }
}
