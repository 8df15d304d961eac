/** The Writer service as an object. Run statuses are shared records: the blocker is a pointer to one
    of the records in `statuses`, and every section updates records in place. Each method is one
    mutex-protected section and is proved to compute the registry function of the same name. */
module WriterService {
  import opened Options
  import opened WriterTypes
  import R = WriterRegistry
  import WriterSchedule

  /** A shared status record. All its fields live in one value; sharing and update in place are those of the record. */
  class RunStatus {
    const id: RunId
    var run: R.Run

    constructor (run: R.Run)
      ensures this.id == run.id && this.run == run
    {
      this.id, this.run := run.id, run;
    }

    /** How `finish` fills in the record. */
    method Settle(outcome: Outcome, now: int)
      modifies this
      ensures run == R.FinishedRun(old(run), outcome, now)
    {
      if outcome.state.Some? {
        run := run.(state := outcome.state.value);
      } else if outcome.code != NoCode {
        run := run.(state := Failed);
      } else {
        run := run.(state := Succeeded);
      }
      run := run.(code := outcome.code, version := outcome.version, changed := outcome.changed);
      if IsBlockingCode(outcome.code) {
        run := run.(state := Uncertain);
      }
      if outcome.configHash.Some? {
        run := run.(hash := outcome.configHash);
      }
      run := run.(finishedAt := Some(now));
    }
  }

  class Service {
    var settings: Settings
    var configured: bool
    const instanceId: nat
    var reconfigureSeq: nat
    var queue: seq<Job>
    var stopped: bool
    var statuses: map<RunId, RunStatus>
    var activeByOp: map<Operation, RunId>
    var completed: seq<RunId>
    var blocker: RunStatus?
    var blockRecord: BlockRecord
    var deadlines: map<Operation, int>
    /** The worker's local variable `item`. */
    ghost var running: Option<Job>
    /** What the shared records hold. */
    ghost var runs: map<RunId, R.Run>
    ghost var records: set<RunStatus>

    /** Records are filed under their own identifier, so no two entries share a record, and the
        blocker is the very record the registry holds, and is not a retained one. */
    ghost predicate Valid()
      reads this`statuses, this`runs, this`records, this`blocker, this`completed, records
    {
      && runs.Keys == statuses.Keys
      && (forall id :: id in statuses ==> statuses[id] in records && statuses[id].id == id && statuses[id].run == runs[id])
      && (blocker != null ==> blocker.id in statuses && statuses[blocker.id] == blocker && blocker.id !in completed)
    }

    ghost function State(): R.Registry
      reads this
    {
      R.Registry(settings, configured, instanceId, reconfigureSeq, queue, running, stopped,
        runs, activeByOp, completed,
        if blocker == null then None else Some(blocker.id), blockRecord, deadlines)
    }

    constructor (instance: nat, startup: RunId, now: int)
      ensures Valid() && State() == R.Initial(instance, startup, now)
      ensures fresh(records)
    {
      settings, configured, reconfigureSeq := R.NO_SETTINGS, false, 0;
      instanceId := instance;
      queue, stopped, activeByOp, completed, deadlines := [], false, map[], [], map[];
      running := None;
      var status := new RunStatus(R.Run(startup, Reconcile, Blocked, 0, now, None, None, None, false,
        StartupReconcileRequired, instance, 0, None));
      statuses := map[startup := status];
      runs, records := R.Initial(instance, startup, now).statuses, {status};
      blocker := status;
      blockRecord := BlockRecord(Some(startup), StartupReconcileRequired, None, map[], map[], true, Some(now));
    }

    lemma Known(id: RunId)
      requires Valid()
      ensures id in statuses <==> id in runs
      ensures id in statuses ==> statuses[id] in records && statuses[id].id == id && statuses[id].run == runs[id]
    {
    }

    lemma BlockerKnown()
      requires Valid() && blocker != null
      ensures blocker in records && blocker.id in statuses && statuses[blocker.id] == blocker
      ensures blocker.id in runs && runs[blocker.id] == blocker.run && blocker.id !in completed
    {
    }

    /** Files a queued run under a new identifier. */
    method FileRun(id: RunId, operation: Operation, now: int)
      requires Valid() && id !in statuses
      modifies this`statuses, this`runs, this`records
      ensures Valid() && runs == old(runs)[id := R.NewRun(old(State()), id, operation, now)]
      ensures statuses.Keys == old(statuses).Keys + {id}
    {
      var status := new RunStatus(R.Run(id, operation, Queued, 0, now, None, None, None, false, NoCode,
        instanceId, reconfigureSeq, settings.configHash));
      statuses := statuses[id := status];
      runs, records := runs[id := status.run], records + {status};
    }

    method EnqueueLocked(operation: Operation, newId: Option<RunId>, now: int) returns (reply: R.EnqueueReply)
      requires Valid()
      requires newId.Some? ==> newId.value !in statuses
      modifies this
      ensures Valid() && (State(), reply) == R.Enqueue(old(State()), operation, newId, now)
      ensures forall id :: id in statuses ==> id in old(statuses) || newId == Some(id)
    {
      hide Valid, R.NewRun;
      if IsConfigWrite(operation) && blocker != null {
        BlockerKnown();
        return R.Refused(Some(blocker.id), blocker.run.code);
      }
      if operation in activeByOp {
        return R.Coalesced(activeByOp[operation]);
      }
      if newId.None? {
        return R.Refused(None, NotImplemented);
      }
      FileRun(newId.value, operation, now);
      activeByOp := activeByOp[operation := newId.value];
      queue := queue + [Job(newId.value, operation, settings)];
      return R.Admitted(newId.value);
    }

    method RunnableJobIndexLocked() returns (index: nat)
      ensures index == R.FirstRunnable(queue, blocker != null)
    {
      index := 0;
      while index < |queue|
        invariant index <= |queue|
        invariant index + R.FirstRunnable(queue[index..], blocker != null) == R.FirstRunnable(queue, blocker != null)
      {
        if blocker == null || !IsConfigWrite(queue[index].operation) {
          return;
        }
        assert queue[index..][1..] == queue[index + 1..];
        index := index + 1;
      }
    }

    /** The worker's wait returns when a job is runnable; it then takes the first one. */
    method TakeJob() returns (item: Job)
      requires Valid() && R.CanDequeue(State())
      modifies this`queue, this`running
      ensures Valid() && State() == R.Dequeue(old(State())) && State().running == Some(item)
    {
      var index := RunnableJobIndexLocked();
      item := queue[index];
      queue := queue[..index] + queue[index + 1..];
      running := Some(item);
    }

    /** Applies a change to the record of a run, if the registry still has it. */
    method UpdateRun(id: RunId, update: R.Run -> R.Run)
      requires Valid()
      modifies this`runs, records
      ensures Valid() && runs == if id in old(runs) then old(runs)[id := update(old(runs)[id])] else old(runs)
    {
      if id in statuses {
        var status := statuses[id];
        status.run := update(status.run);
        runs := runs[id := status.run];
      }
    }

    /** The first thing the worker records about the job it took. */
    method BeginRun(item: Job, now: int)
      requires Valid()
      modifies this`runs, records
      ensures Valid() && State() == R.Begin(old(State()), item, now)
    {
      UpdateRun(item.id, (run: R.Run) => run.(attempt := 1, startedAt := Some(now),
        state := if item.operation == Reconcile then Reconciling else Planning));
    }

    /** The progress callback the executor is given. */
    method ReportProgress(item: Job, attempt: nat, state: Option<RunState>)
      requires Valid()
      modifies this`runs, records
      ensures Valid() && State() == R.Progress(old(State()), item, attempt, state)
    {
      UpdateRun(item.id, (run: R.Run) => run.(
        attempt := if attempt > 0 then attempt else run.attempt,
        state := if state.Some? then state.value else run.state));
    }

    method EvictLocked()
      requires Valid()
      modifies this`completed, this`statuses, this`runs
      ensures Valid() && (runs, completed) == R.Evict(old(runs), old(completed))
    {
      while |completed| > R.MAX_COMPLETED
        invariant forall id :: id in statuses ==> id in old(statuses) && statuses[id] == old(statuses[id])
        invariant blocker != null ==> blocker.id in statuses && statuses[blocker.id] == blocker && blocker.id !in completed
        invariant runs.Keys == statuses.Keys && forall id :: id in statuses ==> runs[id] == old(runs)[id]
        invariant R.Evict(runs, completed) == R.Evict(old(runs), old(completed))
      {
        runs := runs - {completed[0]};
        statuses := statuses - {completed[0]};
        completed := completed[1..];
      }
    }

    method RetainCompletedLocked(status: RunStatus)
      requires Valid()
      modifies this`completed, this`statuses, this`runs
      ensures Valid() && State() == R.RetainCompleted(old(State()), status.id)
    {
      hide R.Evict;
      if (blocker != null && status.id == blocker.id) || status.id in completed {
        return;
      }
      completed := completed + [status.id];
      EvictLocked();
    }

    method ClearBlockLocked()
      requires Valid()
      modifies this`blocker, this`blockRecord, this`completed, this`statuses, this`runs
      ensures Valid() && State() == R.ClearBlock(old(State()))
    {
      hide R.RetainCompleted;
      var blocked := blocker;
      blocker := null;
      blockRecord := EMPTY_RECORD;
      if blocked == null {
        return;
      }
      if blocked.run.state == Uncertain {
        RetainCompletedLocked(blocked);
        return;
      }
      runs := runs - {blocked.id};
      statuses := statuses - {blocked.id};
    }

    method ClearMatchingBlock(expected: BlockRecord, version: Option<Digest>) returns (cleared: bool)
      requires Valid()
      modifies this`blocker, this`blockRecord, this`completed, this`statuses, this`runs
      ensures Valid() && (State(), cleared) == R.ClearMatching(old(State()), expected, version)
    {
      if blocker == null || blockRecord.id != expected.id || blockRecord.code != expected.code
         || blockRecord.version != expected.version || (expected.version.Some? && version != expected.version) {
        return false;
      }
      ClearBlockLocked();
      return true;
    }

    /** The common end of both finish sections. */
    method RetireLocked(item: Job, status: RunStatus)
      requires Valid() && status.id == item.id
      modifies this`activeByOp, this`completed, this`statuses, this`runs, this`running
      ensures Valid()
      ensures State() ==
        R.RetainCompleted(old(State()).(active := old(State()).active - {item.operation}), item.id).(running := None)
    {
      hide R.RetainCompleted, Valid;
      activeByOp := activeByOp - {item.operation};
      RetainCompletedLocked(status);
      running := None;
    }

    method SettleReconcileLocked(status: RunStatus, result: ReconcileResult, now: int)
      requires Valid() && status.id in statuses && statuses[status.id] == status
      modifies this`runs, records
      ensures Valid() && runs == old(runs)[status.id := R.ReconciledRun(old(runs)[status.id], result, now)]
    {
      if result.cleared {
        status.run := status.run.(state := Succeeded, code := NoCode, version := result.version);
      } else {
        status.run := status.run.(state := Failed, code := ReconcileFailed);
      }
      status.run := status.run.(finishedAt := Some(now));
      runs := runs[status.id := status.run];
    }

    method FinishAtomicReconcile(item: Job, result: ReconcileResult, now: int)
      requires Valid()
      modifies this`activeByOp, this`completed, this`statuses, this`runs, this`running, records
      ensures Valid() && State() == R.FinishReconcile(old(State()), item, result, now)
    {
      hide R.RetainCompleted, R.ReconciledRun, Valid;
      Known(item.id);
      if item.id !in statuses {
        running := None;
        return;
      }
      var status := statuses[item.id];
      SettleReconcileLocked(status, result, now);
      RetireLocked(item, status);
    }

    method InstallBlockLocked(status: RunStatus, item: Job, outcome: Outcome, now: int)
      requires status.id == item.id
      modifies this`blocker, this`blockRecord
      ensures blocker == if IsBlockingCode(outcome.code) then status else old(blocker)
      ensures State() == R.InstallBlock(old(State()), item, outcome, now)
    {
      if IsBlockingCode(outcome.code) {
        blocker := status;
        blockRecord := outcome.block;
        blockRecord := blockRecord.(id := Some(status.id), code := outcome.code);
        if blockRecord.evidenceCaptured.None? {
          blockRecord := blockRecord.(evidenceCaptured := Some(now));
        }
      }
    }

    method SettleLocked(status: RunStatus, outcome: Outcome, now: int)
      requires Valid() && status.id in statuses && statuses[status.id] == status
      modifies this`runs, records
      ensures Valid() && runs == old(runs)[status.id := R.FinishedRun(old(runs)[status.id], outcome, now)]
    {
      status.Settle(outcome, now);
      runs := runs[status.id := status.run];
    }

    /** The record of a finished run is filled in, and becomes the blocker if the run ended in doubt. */
    method SettleAndBlockLocked(status: RunStatus, item: Job, outcome: Outcome, now: int)
      requires Valid() && status.id == item.id && status.id in statuses && statuses[status.id] == status && status.id !in completed
      modifies this`runs, this`blocker, this`blockRecord, records
      ensures Valid()
      ensures item.id in old(runs) && State() ==
        R.SetRun(R.InstallBlock(old(State()), item, outcome, now), item.id, R.FinishedRun(old(runs)[item.id], outcome, now))
    {
      hide R.FinishedRun, R.FinishedRecord;
      SettleLocked(status, outcome, now);
      InstallBlockLocked(status, item, outcome, now);
    }

    method Finish(item: Job, outcome: Outcome, now: int)
      requires Valid()
      requires item.id !in completed
      modifies this`activeByOp, this`completed, this`statuses, this`runs, this`running, this`blocker, this`blockRecord, records
      ensures Valid() && State() == R.Finish(old(State()), item, outcome, now)
    {
      hide R.RetainCompleted, R.FinishedRun, R.InstallBlock, Valid;
      Known(item.id);
      if item.id !in statuses {
        running := None;
        return;
      }
      var status := statuses[item.id];
      SettleAndBlockLocked(status, item, outcome, now);
      RetireLocked(item, status);
    }

    method UpdateDeadlineLocked(operation: Operation, previous: nat, next: nat, existed: bool, now: int)
      modifies this`deadlines
      ensures deadlines == R.UpdateDeadline(old(deadlines), operation, previous, next, existed, now)
    {
      if next == 0 {
        deadlines := deadlines - {operation};
        return;
      }
      if !existed || previous != next {
        deadlines := deadlines[operation := now + next];
      }
    }

    method RefreshStatusIdentityLocked()
      requires Valid()
      modifies this`runs, records
      ensures Valid() && runs == R.RefreshAll(old(runs), instanceId, reconfigureSeq, settings.configHash)
    {
      var todo := statuses.Keys;
      while todo != {}
        invariant todo <= statuses.Keys && runs == old(runs) && runs.Keys == statuses.Keys
        invariant forall id :: id in statuses ==> statuses[id] in records && statuses[id].id == id
        invariant forall id :: id in todo ==> statuses[id].run == runs[id]
        invariant forall id :: id in statuses && id !in todo ==>
          statuses[id].run == R.Refreshed(runs[id], instanceId, reconfigureSeq, settings.configHash)
      {
        var id :| id in todo;
        var status := statuses[id];
        status.run := status.run.(instance := instanceId, seqNo := reconfigureSeq, hash := settings.configHash);
        todo := todo - {id};
      }
      runs := R.RefreshAll(runs, instanceId, reconfigureSeq, settings.configHash);
    }

    method UpdateDeadlinesLocked(previous: Settings, next: Settings, existed: bool, now: int)
      modifies this`deadlines
      ensures deadlines == R.ConfigureDeadlines(old(deadlines), previous, next, existed, now)
    {
      hide R.UpdateDeadline;
      UpdateDeadlineLocked(AutoPull, previous.autoPullInterval, next.autoPullInterval, existed, now);
      UpdateDeadlineLocked(MetadataSync, previous.metadataSyncInterval, next.metadataSyncInterval, existed, now);
      UpdateDeadlineLocked(ModelInfo, previous.modelInfoInterval, next.modelInfoInterval, existed, now);
    }

    method ConfigureSettings(next: Settings, now: int)
      requires Valid()
      modifies this`settings, this`configured, this`reconfigureSeq, this`deadlines, this`runs, records
      ensures Valid() && State() == R.Configure(old(State()), next, now)
    {
      hide R.ConfigureDeadlines, R.RefreshAll, Valid;
      var previous, wasConfigured := settings, configured;
      settings := next;
      configured := true;
      reconfigureSeq := reconfigureSeq + 1;
      UpdateDeadlinesLocked(previous, next, wasConfigured, now);
      RefreshStatusIdentityLocked();
    }

    /** The scheduler's inner loop over one deadline. */
    method AdvanceDeadline(deadline: int, interval: nat, now: int) returns (next: int)
      requires interval > 0 && deadline <= now
      ensures next == WriterSchedule.NextDeadline(deadline, interval, now)
    {
      next := deadline + interval;
      ghost var k: nat := 1;
      while next <= now
        invariant next == deadline + k * interval && next - interval <= now
        decreases now - next
      {
        next := next + interval;
        k := k + 1;
      }
      WriterSchedule.GridPointUnique(deadline, interval, now, next, k);
    }

    method FireOneLocked(operation: Operation, newId: Option<RunId>, now: int)
      requires Valid()
      requires newId.Some? ==> newId.value !in statuses
      modifies this
      ensures Valid() && State() == WriterSchedule.FireOne(old(State()), operation, newId, now)
      ensures forall id :: id in statuses ==> id in old(statuses) || newId == Some(id)
    {
      hide R.Enqueue, WriterSchedule.NextDeadline, Valid;
      if operation !in deadlines || deadlines[operation] > now {
        return;
      }
      var deadline := deadlines[operation];
      var reply := EnqueueLocked(operation, newId, now);
      if reply.Refused? && reply.code != NoCode {
        return;
      }
      var interval := Interval(settings, operation);
      if interval == 0 {
        deadlines := deadlines - {operation};
        return;
      }
      var next := AdvanceDeadline(deadline, interval, now);
      deadlines := deadlines[operation := next];
    }

    /** `order` is the order in which the deadlines map hands out its keys. */
    method FireExpired(order: seq<Operation>, ids: Operation -> Option<RunId>, now: int)
      requires Valid()
      requires WriterSchedule.Distinct(order) && WriterSchedule.NewIds(State(), order, ids)
      modifies this
      ensures Valid() && State() == WriterSchedule.Fire(old(State()), order, ids, now)
    {
      var i := 0;
      while i < |order|
        invariant i <= |order| && Valid()
        invariant forall j :: i <= j < |order| && ids(order[j]).Some? ==> ids(order[j]).value !in statuses
        invariant WriterSchedule.Fire(old(State()), order, ids, now) == WriterSchedule.Fire(State(), order[i..], ids, now)
      {
        assert order[i..][0] == order[i] && order[i..][1..] == order[i + 1..];
        FireOneLocked(order[i], ids(order[i]), now);
        i := i + 1;
      }
    }

    method FailQueued(item: Job, now: int)
      requires Valid()
      modifies this`activeByOp, this`completed, this`statuses, this`runs, records
      ensures Valid() && State() == R.ShutdownJob(old(State()), item, now)
    {
      hide R.RetainCompleted, Valid;
      Known(item.id);
      if item.id in statuses {
        UpdateRun(item.id, (run: R.Run) => run.(state := Failed, code := NotImplemented, finishedAt := Some(now)));
        Known(item.id);
        RetainCompletedLocked(statuses[item.id]);
      }
      activeByOp := activeByOp - {item.operation};
    }

    /** `stopped` stands for the closed stop channel; the once-guard makes a second call a no-op. */
    method Shutdown(now: int)
      requires Valid()
      modifies this, records
      ensures Valid() && State() == R.Shutdown(old(State()), now)
    {
      if !stopped {
        FailAllQueued(now);
        queue := [];
        stopped := true;
      }
    }

    method FailAllQueued(now: int)
      requires Valid()
      modifies this`activeByOp, this`completed, this`statuses, this`runs, records
      ensures Valid() && State().(queue := []) == R.DrainQueue(old(State()), now)
    {
      var i := 0;
      while i < |queue|
        invariant i <= |queue| && Valid()
        invariant R.DrainQueue(old(State()), now) == R.DrainQueue(State().(queue := queue[i..]), now)
      {
        ghost var before := State();
        assert queue[i..][0] == queue[i] && queue[i..][1..] == queue[i + 1..];
        R.ShutdownJobIgnoresQueue(before, queue[i..], queue[i], now);
        FailQueued(queue[i], now);
        i := i + 1;
      }
    }
  }
}
