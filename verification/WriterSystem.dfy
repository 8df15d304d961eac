/** The whole Writer: triggers, the scheduler, reconfiguration and shutdown interleave freely with one
    worker, whose runs and reconcile checks hear arbitrary answers. One action is one mutex-protected
    section or one answer. The theorems are about every reachable state. */
module WriterSystem {
  import opened Options
  import opened WriterTypes
  import R = WriterRegistry
  import S = WriterSchedule
  import E = WriterEngine
  import C = WriterReconcile
  import RegistryRules

  /** Where the worker goroutine is, with the conversation it has held so far. */
  datatype Worker =
    | Idle
    | Taken(job: Job)
    | Executing(job: Job, log: seq<E.Reply>)
    | Reading(job: Job)
    | Checking(job: Job, block: BlockRecord, log: seq<E.Reply>)
    | Concluding(job: Job, result: ReconcileResult)

  /** A run that has ended and its complete conversation. */
  datatype EndedRun = EndedRun(job: Job, log: seq<E.Reply>)

  /** A blocker that was cleared and the conversation that cleared it. */
  datatype Clearance = Clearance(block: BlockRecord, log: seq<E.Reply>)

  /** `ended` and `cleared` only remember; no step reads them. */
  datatype System = System(reg: R.Registry, worker: Worker, ended: seq<EndedRun>, cleared: seq<Clearance>)

  datatype Action =
    | Trigger(operation: Operation, newId: Option<RunId>, now: int)
    | Expire(order: seq<Operation>, ids: Operation -> Option<RunId>, now: int)
    | Reconfigure(settings: Settings, now: int)
    | Stop(now: int)
    | Take
    | Start(now: int)
    | Report(attempt: nat, state: Option<RunState>)
    | Answer(reply: E.Reply)
    | Finish(now: int)
    | ReadBlock
    | Probe(reply: E.Reply)
    | Clear
    | Conclude(now: int)

  function ContextOf(codec: E.Codec, job: Job): E.Context {
    E.Context(codec, job.operation, job.settings.maxVersionRetries)
  }

  function JobOf(worker: Worker): Option<Job> {
    if worker.Idle? then None else Some(worker.job)
  }

  /** The identifier of a run that has ended or of a block that was cleared, on record or not. */
  predicate Spent(s: System, id: RunId) {
    (exists run :: run in s.ended && run.job.id == id) || (exists c :: c in s.cleared && c.block.id == Some(id))
  }

  /** Fresh identifiers are neither on record nor spent; the other side answers the question that was asked. */
  ghost predicate Enabled(codec: E.Codec, s: System, action: Action) {
    match action
    case Trigger(_, newId, _) => newId.Some? ==> newId.value !in s.reg.statuses && !Spent(s, newId.value)
    case Expire(order, ids, _) =>
      S.Distinct(order) && S.NewIds(s.reg, order, ids) && forall op :: op in order && ids(op).Some? ==> !Spent(s, ids(op).value)
    case Reconfigure(_, _) => true
    case Stop(_) => true
    case Take => s.worker.Idle? && R.CanDequeue(s.reg)
    case Start(_) => s.worker.Taken?
    case Report(_, _) => s.worker.Executing?
    case Answer(reply) =>
      s.worker.Executing? && !E.Step(ContextOf(codec, s.worker.job), E.Run(ContextOf(codec, s.worker.job), s.worker.log), reply).Stuck?
    case Finish(_) => s.worker.Executing? && E.Run(ContextOf(codec, s.worker.job), s.worker.log).Done?
    case ReadBlock => s.worker.Reading?
    case Probe(reply) =>
      s.worker.Checking? && !C.Step(codec, s.worker.block, C.Run(codec, s.worker.block, s.worker.log), reply).Astray?
    case Clear => s.worker.Checking? && C.Run(codec, s.worker.block, s.worker.log).Over?
    case Conclude(_) => s.worker.Concluding?
  }

  function OutcomeOf(codec: E.Codec, run: EndedRun): Outcome
    requires E.Run(ContextOf(codec, run.job), run.log).Done?
  {
    E.Run(ContextOf(codec, run.job), run.log).outcome
  }

  /** The conditional clear at the end of a check, under the registry's mutex. */
  function ClearStep(codec: E.Codec, s: System): System
    requires s.worker.Checking? && C.Run(codec, s.worker.block, s.worker.log).Over?
  {
    var job, block := s.worker.job, s.worker.block;
    var result := C.Run(codec, block, s.worker.log).result;
    var refused := s.(worker := Concluding(job, ReconcileResult(false, ReconcileFailed, result.version)));
    if !result.cleared then refused
    else
      var (reg, cleared) := R.ClearMatching(s.reg, block, result.version);
      if !cleared then refused
      else s.(reg := reg, worker := Concluding(job, result), cleared := s.cleared + [Clearance(block, s.worker.log)])
  }

  function Next(codec: E.Codec, s: System, action: Action): System
    requires Enabled(codec, s, action)
  {
    match action
    case Trigger(operation, newId, now) => s.(reg := R.Enqueue(s.reg, operation, newId, now).0)
    case Expire(order, ids, now) => s.(reg := S.Fire(s.reg, order, ids, now))
    case Reconfigure(settings, now) => s.(reg := R.Configure(s.reg, settings, now))
    case Stop(now) => s.(reg := R.Shutdown(s.reg, now))
    case Take => s.(reg := R.Dequeue(s.reg), worker := Taken(R.Dequeue(s.reg).running.value))
    case Start(now) =>
      var job := s.worker.job;
      s.(reg := R.Begin(s.reg, job, now),
         worker := if job.operation == Reconcile then Reading(job) else Executing(job, []))
    case Report(attempt, state) => s.(reg := R.Progress(s.reg, s.worker.job, attempt, state))
    case Answer(reply) => s.(worker := Executing(s.worker.job, s.worker.log + [reply]))
    case Finish(now) =>
      var run := EndedRun(s.worker.job, s.worker.log);
      s.(reg := R.Finish(s.reg, run.job, OutcomeOf(codec, run), now), worker := Idle, ended := s.ended + [run])
    case ReadBlock => s.(worker := Checking(s.worker.job, s.reg.record, []))
    case Probe(reply) => s.(worker := Checking(s.worker.job, s.worker.block, s.worker.log + [reply]))
    case Clear => ClearStep(codec, s)
    case Conclude(now) =>
      s.(reg := R.FinishReconcile(s.reg, s.worker.job, s.worker.result, now), worker := Idle)
  }

  function Startup(instance: nat, startup: RunId, now: int): System {
    System(R.Initial(instance, startup, now), Idle, [], [])
  }

  /** The states a sequence of enabled actions leads to. */
  ghost predicate Reaches(codec: E.Codec, s: System, actions: seq<Action>, t: System)
    decreases |actions|
  {
    if actions == [] then s == t
    else Enabled(codec, s, actions[0]) && Reaches(codec, Next(codec, s, actions[0]), actions[1..], t)
  }

  // ---------- what every reachable state keeps ----------

  /** The run ended with one of the three codes that install a blocker. */
  ghost predicate EndedInDoubt(codec: E.Codec, run: EndedRun) {
    && E.Run(ContextOf(codec, run.job), run.log).Done?
    && IsBlockingCode(OutcomeOf(codec, run).code)
  }

  /** The record was made from this run's outcome and has lost nothing of its evidence. */
  ghost predicate RecordOf(codec: E.Codec, record: BlockRecord, run: EndedRun)
    requires EndedInDoubt(codec, run)
  {
    var outcome := OutcomeOf(codec, run);
    record == outcome.block.(id := Some(run.job.id), code := outcome.code, evidenceCaptured := record.evidenceCaptured)
  }

  ghost predicate Holds(codec: E.Codec, reg: R.Registry, run: EndedRun)
    requires EndedInDoubt(codec, run)
  {
    reg.blocker == Some(run.job.id) && RecordOf(codec, reg.record, run)
  }

  ghost predicate Released(codec: E.Codec, cleared: seq<Clearance>, run: EndedRun)
    requires EndedInDoubt(codec, run)
  {
    exists c :: c in cleared && RecordOf(codec, c.block, run) && C.Evidence(codec, c.block, c.log)
  }

  ghost predicate StartupReleased(codec: E.Codec, cleared: seq<Clearance>) {
    exists c :: c in cleared && c.block.code == StartupReconcileRequired && C.Evidence(codec, c.block, c.log)
  }

  ghost predicate RunsAccounted(codec: E.Codec, reg: R.Registry, ended: seq<EndedRun>, cleared: seq<Clearance>) {
    forall run :: run in ended && EndedInDoubt(codec, run) ==> Holds(codec, reg, run) || Released(codec, cleared, run)
  }

  ghost predicate StartupAccounted(codec: E.Codec, reg: R.Registry, cleared: seq<Clearance>) {
    (reg.blocker.Some? && reg.record.code == StartupReconcileRequired) || StartupReleased(codec, cleared)
  }

  ghost predicate WorkerAgrees(reg: R.Registry, worker: Worker) {
    && reg.running == JobOf(worker)
    && (worker.Executing? ==> worker.job.operation != Reconcile)
    && (worker.Reading? || worker.Checking? || worker.Concluding? ==> worker.job.operation == Reconcile)
    && (worker.Checking? ==> worker.block == reg.record)
  }

  /** Only a stalled planner blocks without saying which version it saw. */
  predicate StalledUnversioned(record: BlockRecord) {
    record.code == PlannerStalled ==> record.version.None?
  }

  ghost predicate Safe(codec: E.Codec, s: System) {
    && R.Invariant(s.reg)
    && WorkerAgrees(s.reg, s.worker) && StalledUnversioned(s.reg.record)
    && (forall run :: run in s.ended ==> E.Run(ContextOf(codec, run.job), run.log).Done?)
    && RunsAccounted(codec, s.reg, s.ended, s.cleared)
    && StartupAccounted(codec, s.reg, s.cleared)
  }

  /** A section that leaves the blocker, its record and the worker's job alone. */
  lemma Undisturbed(codec: E.Codec, s: System, reg: R.Registry)
    requires Safe(codec, s) && R.Invariant(reg)
    requires reg.blocker == s.reg.blocker && reg.record == s.reg.record && reg.running == s.reg.running
    ensures Safe(codec, s.(reg := reg))
  {
    hide R.Invariant;
    forall run | run in s.ended && EndedInDoubt(codec, run)
      ensures Holds(codec, reg, run) || Released(codec, s.cleared, run)
    {
      assert Holds(codec, s.reg, run) ==> Holds(codec, reg, run);
    }
  }

  lemma OutsideStep(codec: E.Codec, s: System, action: Action)
    requires Safe(codec, s) && Enabled(codec, s, action)
    requires action.Trigger? || action.Expire? || action.Reconfigure? || action.Stop?
    ensures Safe(codec, Next(codec, s, action))
  {
    hide RunsAccounted, StartupAccounted, R.Invariant;
    match action {
      case Trigger(operation, newId, now) => R.EnqueueInvariant(s.reg, operation, newId, now);
      case Expire(order, ids, now) => S.FireInvariant(s.reg, order, ids, now);
      case Reconfigure(settings, now) => R.ConfigureInvariant(s.reg, settings, now);
      case Stop(now) => R.ShutdownInvariant(s.reg, now);
    }
    Undisturbed(codec, s, Next(codec, s, action).reg);
  }

  lemma WorkerStep(codec: E.Codec, s: System, action: Action)
    requires Safe(codec, s) && Enabled(codec, s, action)
    requires action.Take? || action.Start? || action.Report? || action.Answer? || action.ReadBlock? || action.Probe?
    ensures Safe(codec, Next(codec, s, action))
  {
    hide R.Invariant;
    match action {
      case Take => R.DequeueInvariant(s.reg);
      case Start(now) => R.BeginInvariant(s.reg, s.worker.job, now);
      case Report(attempt, state) => R.ProgressInvariant(s.reg, s.worker.job, attempt, state);
      case _ =>
    }
    var next := Next(codec, s, action);
    forall run | run in s.ended && EndedInDoubt(codec, run)
      ensures Holds(codec, next.reg, run) || Released(codec, s.cleared, run)
    {
      assert Holds(codec, s.reg, run) ==> Holds(codec, next.reg, run);
    }
  }

  /** While a config write executes there is no blocker, so everything in doubt before it was released. */
  lemma AllReleased(codec: E.Codec, s: System)
    requires Safe(codec, s)
    requires s.worker.Executing? && IsConfigWrite(s.worker.job.operation)
    ensures s.reg.blocker.None?
    ensures forall run :: run in s.ended && EndedInDoubt(codec, run) ==> Released(codec, s.cleared, run)
    ensures StartupReleased(codec, s.cleared)
  {
    assert R.WritesHeld(s.reg.blocker, s.reg.running);
    forall run | run in s.ended && EndedInDoubt(codec, run) ensures Released(codec, s.cleared, run) {
      assert !Holds(codec, s.reg, run);
    }
  }

  lemma FinishStep(codec: E.Codec, s: System, now: int)
    requires Safe(codec, s) && Enabled(codec, s, Finish(now))
    ensures Safe(codec, Next(codec, s, Finish(now)))
  {
    hide RunsAccounted, StartupAccounted, R.Invariant, R.Finish, E.Run;
    FinishSection(codec, s, now);
    FinishAccounts(codec, s, now);
    var run := EndedRun(s.worker.job, s.worker.log);
    assert Next(codec, s, Finish(now)).ended == s.ended + [run];
  }

  lemma FinishAccounts(codec: E.Codec, s: System, now: int)
    requires Safe(codec, s) && Enabled(codec, s, Finish(now))
    ensures var next := Next(codec, s, Finish(now));
      RunsAccounted(codec, next.reg, next.ended, next.cleared) && StartupAccounted(codec, next.reg, next.cleared)
  {
    var run := EndedRun(s.worker.job, s.worker.log);
    var next := Next(codec, s, Finish(now));
    FinishSection(codec, s, now);
    if IsBlockingCode(OutcomeOf(codec, run).code) {
      AllReleased(codec, s);
      assert RecordOf(codec, next.reg.record, run);
    }
    forall other | other in next.ended && EndedInDoubt(codec, other)
      ensures Holds(codec, next.reg, other) || Released(codec, next.cleared, other)
    {
      if other != run && !IsBlockingCode(OutcomeOf(codec, run).code) {
        assert Holds(codec, s.reg, other) ==> Holds(codec, next.reg, other);
      }
    }
  }

  lemma FinishSection(codec: E.Codec, s: System, now: int)
    requires Safe(codec, s) && Enabled(codec, s, Finish(now))
    ensures var run := EndedRun(s.worker.job, s.worker.log);
      var outcome, reg := OutcomeOf(codec, run), Next(codec, s, Finish(now)).reg;
      && R.Invariant(reg) && reg.running.None?
      && (IsBlockingCode(outcome.code) ==> IsConfigWrite(run.job.operation))
      && (IsBlockingCode(outcome.code) ==> reg.blocker == Some(run.job.id) && reg.record == R.FinishedRecord(run.job, outcome, now))
      && (!IsBlockingCode(outcome.code) ==> reg.blocker == s.reg.blocker && reg.record == s.reg.record)
      && StalledUnversioned(reg.record)
  {
    hide R.Invariant;
    var run := EndedRun(s.worker.job, s.worker.log);
    if !IsConfigWrite(run.job.operation) {
      E.OnlyWritesBlock(ContextOf(codec, run.job), run.log);
    }
    if OutcomeOf(codec, run).code == PlannerStalled {
      E.StalledBeforePut(ContextOf(codec, run.job), run.log);
    }
    R.FinishInvariant(s.reg, run.job, OutcomeOf(codec, run), now);
  }

  /** Evidence is only ever gathered against the record in force, so the clear never misses it. */
  lemma EvidenceMatches(codec: E.Codec, s: System)
    requires Safe(codec, s) && s.worker.Checking?
    requires C.Cleared(C.Run(codec, s.worker.block, s.worker.log))
    ensures C.Evidence(codec, s.worker.block, s.worker.log)
    ensures s.reg.blocker.Some? && s.reg.blocker == s.worker.block.id
    ensures s.reg.record == s.worker.block
    ensures R.Matches(s.reg, s.worker.block, C.Run(codec, s.worker.block, s.worker.log).result.version)
  {
    C.ClearsExactlyOnEvidence(codec, s.worker.block, s.worker.log);
    assert R.BlockerRecorded(s.reg.blocker, s.reg.record, s.reg.statuses);
  }

  lemma ClearSafe(codec: E.Codec, s: System)
    requires Safe(codec, s) && Enabled(codec, s, Clear)
    ensures Safe(codec, Next(codec, s, Clear))
  {
    hide R.Invariant;
    if C.Cleared(C.Run(codec, s.worker.block, s.worker.log)) {
      EvidenceMatches(codec, s);
      R.ClearBlockInvariant(s.reg);
      hide C.Run, C.Evidence, E.Run;
      ClearAccounts(codec, s, Next(codec, s, Clear));
    }
  }

  /** The conversation that clears the record in force accounts for whatever that record accounted for. */
  lemma ClearAccounts(codec: E.Codec, s: System, next: System)
    requires s.worker.Checking? && s.worker.block == s.reg.record && C.Evidence(codec, s.worker.block, s.worker.log)
    requires next.ended == s.ended && next.cleared == s.cleared + [Clearance(s.worker.block, s.worker.log)]
    requires RunsAccounted(codec, s.reg, s.ended, s.cleared) && StartupAccounted(codec, s.reg, s.cleared)
    ensures RunsAccounted(codec, next.reg, next.ended, next.cleared) && StartupAccounted(codec, next.reg, next.cleared)
  {
    hide C.Evidence, E.Run;
    var clearance := Clearance(s.worker.block, s.worker.log);
    assert clearance in next.cleared && forall c :: c in s.cleared ==> c in next.cleared;
    forall run | run in s.ended && EndedInDoubt(codec, run)
      ensures Released(codec, next.cleared, run)
    {
      assert Holds(codec, s.reg, run) ==> RecordOf(codec, clearance.block, run);
    }
  }

  lemma ConcludeStep(codec: E.Codec, s: System, now: int)
    requires Safe(codec, s) && Enabled(codec, s, Conclude(now))
    ensures Safe(codec, Next(codec, s, Conclude(now)))
  {
    hide R.Invariant;
    R.FinishReconcileInvariant(s.reg, s.worker.job, s.worker.result, now);
  }

  lemma StepSafe(codec: E.Codec, s: System, action: Action)
    requires Safe(codec, s) && Enabled(codec, s, action)
    ensures Safe(codec, Next(codec, s, action))
  {
    hide Safe;
    match action
    case Trigger(_, _, _) => OutsideStep(codec, s, action);
    case Expire(_, _, _) => OutsideStep(codec, s, action);
    case Reconfigure(_, _) => OutsideStep(codec, s, action);
    case Stop(_) => OutsideStep(codec, s, action);
    case Finish(now) => FinishStep(codec, s, now);
    case Clear => ClearSafe(codec, s);
    case Conclude(now) => ConcludeStep(codec, s, now);
    case _ => WorkerStep(codec, s, action);
  }

  lemma {:induction false} ReachableSafe(codec: E.Codec, s: System, actions: seq<Action>, t: System)
    requires Safe(codec, s) && Reaches(codec, s, actions, t)
    ensures Safe(codec, t)
    decreases |actions|
  {
    hide Safe, Next;
    if actions != [] {
      StepSafe(codec, s, actions[0]);
      ReachableSafe(codec, Next(codec, s, actions[0]), actions[1..], t);
    }
  }

  lemma StartupSafe(codec: E.Codec, instance: nat, startup: RunId, now: int)
    ensures Safe(codec, Startup(instance, startup, now))
  {
    R.InitialInvariant(instance, startup, now);
  }

  // ---------- identifiers ----------

  ghost predicate EndedOnce(ended: seq<EndedRun>) {
    forall i, j :: 0 <= i < j < |ended| ==> ended[i].job.id != ended[j].job.id
  }

  ghost predicate ClearedOnce(cleared: seq<Clearance>) {
    && (forall i :: 0 <= i < |cleared| ==> cleared[i].block.id.Some?)
    && (forall i, j :: 0 <= i < j < |cleared| ==> cleared[i].block.id != cleared[j].block.id)
  }

  /** No identifier names two runs: one that is queued or running is not spent, and a blocker not yet cleared. */
  ghost predicate Named(s: System) {
    && EndedOnce(s.ended) && ClearedOnce(s.cleared)
    && (forall op :: op in s.reg.active ==> !Spent(s, s.reg.active[op]))
    && (s.reg.blocker.Some? ==> forall c :: c in s.cleared ==> c.block.id != s.reg.blocker)
  }

  /** A section that ends no run and clears no block, and makes only unspent identifiers active. */
  lemma NamesStay(s: System, next: System)
    requires Named(s) && next.ended == s.ended && next.cleared == s.cleared && next.reg.blocker == s.reg.blocker
    requires forall op :: op in next.reg.active ==> !Spent(s, next.reg.active[op])
    ensures Named(next)
  {
  }

  lemma {:induction false} DrainedActive(r: R.Registry, now: int)
    ensures forall op :: op in R.DrainQueue(r, now).active ==> op in r.active && R.DrainQueue(r, now).active[op] == r.active[op]
    decreases |r.queue|
  {
    hide R.FailedRun, R.Evict;
    if r.queue != [] {
      DrainedActive(R.ShutdownJob(r, r.queue[0], now).(queue := r.queue[1..]), now);
    }
  }

  lemma OutsideNamed(codec: E.Codec, s: System, action: Action)
    requires Safe(codec, s) && Named(s) && Enabled(codec, s, action)
    requires action.Trigger? || action.Expire? || action.Reconfigure? || action.Stop?
    ensures Named(Next(codec, s, action))
  {
    hide RunsAccounted, StartupAccounted, R.DrainQueue, S.Fire;
    match action {
      case Expire(order, ids, now) =>
        S.FireIsOrderFree(s.reg, order, ids, now);
        S.FireInvariant(s.reg, order, ids, now);
      case Stop(now) =>
        DrainedActive(s.reg, now);
        R.ShutdownInvariant(s.reg, now);
      case _ =>
    }
    NamesStay(s, Next(codec, s, action));
  }

  lemma FinishNamed(codec: E.Codec, s: System, now: int)
    requires Safe(codec, s) && Named(s) && Enabled(codec, s, Finish(now))
    ensures Named(Next(codec, s, Finish(now)))
  {
    FinishSection(codec, s, now);
    var run, next := EndedRun(s.worker.job, s.worker.log), Next(codec, s, Finish(now));
    RetiredActive(s.reg, run.job, OutcomeOf(codec, run), now);
    hide Named, R.Invariant, R.Finish, E.Run, RunsAccounted, StartupAccounted;
    EndedNames(s, next, run);
  }

  lemma EndedNames(s: System, next: System, run: EndedRun)
    requires Named(s) && next.ended == s.ended + [run] && next.cleared == s.cleared
    requires run.job.operation in s.reg.active && s.reg.active[run.job.operation] == run.job.id
    requires next.reg.blocker == s.reg.blocker || next.reg.blocker == Some(run.job.id)
    requires forall op :: op in next.reg.active ==> op in s.reg.active && next.reg.active[op] == s.reg.active[op] != run.job.id
    ensures Named(next)
  {
    assert !Spent(s, run.job.id);
    forall op | op in next.reg.active ensures !Spent(next, next.reg.active[op]) {
      assert !Spent(s, s.reg.active[op]);
    }
    forall c | c in s.cleared ensures c.block.id != Some(run.job.id) {
    }
    forall i | 0 <= i < |s.ended| ensures s.ended[i].job.id != run.job.id {
      assert s.ended[i] in s.ended;
    }
  }

  lemma RetiredActive(r: R.Registry, job: Job, outcome: Outcome, now: int)
    requires R.Runs(r) && r.running == Some(job)
    ensures job.operation in r.active && r.active[job.operation] == job.id
    ensures forall op :: op in R.Finish(r, job, outcome, now).active ==>
      op in r.active && R.Finish(r, job, outcome, now).active[op] == r.active[op] != job.id
  {
    assert R.Partition(r.statuses, r.active, r.completed, r.blocker);
    assert R.JobsActive(r.queue, r.running, r.active);
    hide R.FinishedRun, R.InstallBlock, R.Evict, R.Partition, R.BoundedHistory, R.ActivePending, R.BlockerRecorded, R.WritesHeld;
    hide R.JobsActive;
    InstallActive(r, job, outcome, now);
    assert forall op :: op in r.active ==> r.statuses[r.active[op]].operation == op by {
      RunOperations(r);
    }
  }

  lemma InstallActive(r: R.Registry, job: Job, outcome: Outcome, now: int)
    ensures R.InstallBlock(r, job, outcome, now).active == r.active
    ensures R.InstallBlock(r, job, outcome, now).statuses == r.statuses
  {
  }

  lemma RunOperations(r: R.Registry)
    requires R.Runs(r)
    ensures forall op :: op in r.active ==> r.active[op] in r.statuses && r.statuses[r.active[op]].operation == op
  {
  }

  lemma ClearNamed(codec: E.Codec, s: System)
    requires Safe(codec, s) && Named(s) && Enabled(codec, s, Clear)
    ensures Named(Next(codec, s, Clear))
  {
    hide RunsAccounted, StartupAccounted, E.Run;
    if C.Cleared(C.Run(codec, s.worker.block, s.worker.log)) {
      EvidenceMatches(codec, s);
      hide C.Run, C.Evidence;
      var clearance, next := Clearance(s.worker.block, s.worker.log), Next(codec, s, Clear);
      assert clearance.block.id == s.reg.blocker && s.reg.blocker.Some?;
      ClearedNames(s, next, clearance);
    }
  }

  lemma ClearedNames(s: System, next: System, clearance: Clearance)
    requires Named(s) && R.Invariant(s.reg) && s.reg.blocker.Some? && clearance.block.id == s.reg.blocker
    requires next.ended == s.ended && next.cleared == s.cleared + [clearance]
    requires next.reg == R.ClearBlock(s.reg)
    ensures Named(next)
  {
    ClearedRegistry(s.reg);
    hide R.Invariant, R.ClearBlock;
    forall op | op in s.reg.active ensures s.reg.active[op] != s.reg.blocker.value && !Spent(next, s.reg.active[op]) {
      assert !Spent(s, s.reg.active[op]);
    }
  }

  lemma ClearedRegistry(r: R.Registry)
    requires R.Invariant(r) && r.blocker.Some?
    ensures R.ClearBlock(r).active == r.active && R.ClearBlock(r).blocker.None?
    ensures forall op :: op in r.active ==> r.active[op] != r.blocker.value
  {
    assert R.Partition(r.statuses, r.active, r.completed, r.blocker);
    RegistryRules.ClearBlockExactly(r);
    hide R.ClearBlock, R.Invariant;
  }

  lemma StepNamed(codec: E.Codec, s: System, action: Action)
    requires Safe(codec, s) && Named(s) && Enabled(codec, s, action)
    ensures Named(Next(codec, s, action))
  {
    hide Safe, Named;
    match action
    case Trigger(_, _, _) => OutsideNamed(codec, s, action);
    case Expire(_, _, _) => OutsideNamed(codec, s, action);
    case Reconfigure(_, _) => OutsideNamed(codec, s, action);
    case Stop(_) => OutsideNamed(codec, s, action);
    case Finish(now) => FinishNamed(codec, s, now);
    case Clear => ClearNamed(codec, s);
    case Conclude(now) => ConcludeNamed(codec, s, now);
    case _ => WorkerNamed(codec, s, action);
  }

  lemma ConcludeNamed(codec: E.Codec, s: System, now: int)
    requires Safe(codec, s) && Named(s) && Enabled(codec, s, Conclude(now))
    ensures Named(Next(codec, s, Conclude(now)))
  {
    hide RunsAccounted, StartupAccounted, EndedOnce, ClearedOnce, Spent, E.Run, R.FinishReconcile, R.Invariant;
    R.FinishReconcileInvariant(s.reg, s.worker.job, s.worker.result, now);
    ConcludedActive(s.reg, s.worker.job, s.worker.result, now);
    NamesStay(s, Next(codec, s, Conclude(now)));
  }

  lemma ConcludedActive(r: R.Registry, job: Job, result: ReconcileResult, now: int)
    ensures forall op :: op in R.FinishReconcile(r, job, result, now).active ==>
      op in r.active && R.FinishReconcile(r, job, result, now).active[op] == r.active[op]
  {
    hide R.ReconciledRun, R.Evict;
  }

  lemma WorkerNamed(codec: E.Codec, s: System, action: Action)
    requires Safe(codec, s) && Named(s) && Enabled(codec, s, action)
    requires action.Take? || action.Start? || action.Report? || action.Answer? || action.ReadBlock? || action.Probe?
    ensures Named(Next(codec, s, action))
  {
    hide RunsAccounted, StartupAccounted, R.Invariant;
    NamesStay(s, Next(codec, s, action));
  }

  lemma {:induction false} ReachableNamed(codec: E.Codec, s: System, actions: seq<Action>, t: System)
    requires Safe(codec, s) && Named(s) && Reaches(codec, s, actions, t)
    ensures Named(t)
    decreases |actions|
  {
    hide Safe, Named, Next;
    if actions != [] {
      StepSafe(codec, s, actions[0]);
      StepNamed(codec, s, actions[0]);
      ReachableNamed(codec, Next(codec, s, actions[0]), actions[1..], t);
    }
  }

  // ---------- the theorems about the whole Writer ----------

  /** The states the process can be in, whatever happens around it. */
  ghost predicate Reachable(codec: E.Codec, t: System) {
    exists instance, startup, now, actions :: Reaches(codec, Startup(instance, startup, now), actions, t)
  }

  ghost predicate CarriesEvidence(codec: E.Codec, run: EndedRun, record: BlockRecord) {
    && record.id == Some(run.job.id)
    && exists k :: E.EvidenceOf(ContextOf(codec, run.job), run.log, k, record)
  }

  /** A clearance of this run's block, with the statuses from before its PUT, on full evidence. */
  ghost predicate ClearedOnEvidence(codec: E.Codec, t: System, run: EndedRun) {
    exists c :: c in t.cleared && CarriesEvidence(codec, run, c.block) && C.Evidence(codec, c.block, c.log)
  }

  lemma ReachableIsSafe(codec: E.Codec, t: System)
    requires Reachable(codec, t)
    ensures Safe(codec, t)
  {
    var instance, startup, now, actions :| Reaches(codec, Startup(instance, startup, now), actions, t);
    StartupSafe(codec, instance, startup, now);
    ReachableSafe(codec, Startup(instance, startup, now), actions, t);
  }

  /** An unproven PUT is always in doubt, and any record of the run carries the four statuses from before it. */
  lemma UnprovenInDoubt(codec: E.Codec, run: EndedRun)
    requires E.Run(ContextOf(codec, run.job), run.log).Done?
    requires E.Unproven(ContextOf(codec, run.job), run.log)
    ensures EndedInDoubt(codec, run)
    ensures forall record :: RecordOf(codec, record, run) ==> CarriesEvidence(codec, run, record)
  {
    var ctx := ContextOf(codec, run.job);
    E.UnprovenPutBlocks(ctx, run.log);
    forall record | RecordOf(codec, record, run) ensures CarriesEvidence(codec, run, record) {
      var k :| E.EvidenceOf(ctx, run.log, k, OutcomeOf(codec, run).block);
      assert E.EvidenceOf(ctx, run.log, k, record);
    }
  }

  /** Write safety. Whatever Core, the plugins, the clock and other writers do: a run whose PUT may have
      changed the configuration and was not proven either blocks the Writer now, with the four statuses
      from before the PUT on record, or was cleared by a check that had full evidence against that record. */
  lemma WriteSafety(codec: E.Codec, t: System, run: EndedRun)
    requires Reachable(codec, t)
    requires run in t.ended && E.Unproven(ContextOf(codec, run.job), run.log)
    ensures (t.reg.blocker == Some(run.job.id) && CarriesEvidence(codec, run, t.reg.record))
      || ClearedOnEvidence(codec, t, run)
  {
    ReachableIsSafe(codec, t);
    UnprovenInDoubt(codec, run);
    if !Holds(codec, t.reg, run) {
      assert Released(codec, t.cleared, run);
    }
  }

  /** No second doubt: when a run is about to hear the answer to its PUT it has sent none before, no
      blocker is in force, the startup block was cleared on evidence, and so was every earlier unproven PUT. */
  lemma PutOnlyAfterClearance(codec: E.Codec, t: System, reply: E.Reply)
    requires Reachable(codec, t)
    requires Enabled(codec, t, Answer(reply)) && reply.Put?
    ensures E.NoPut(t.worker.log) && t.reg.blocker.None?
    ensures StartupReleased(codec, t.cleared)
    ensures forall run :: run in t.ended && E.Unproven(ContextOf(codec, run.job), run.log) ==> ClearedOnEvidence(codec, t, run)
  {
    ReachableIsSafe(codec, t);
    var ctx := ContextOf(codec, t.worker.job);
    E.RunInvariant(ctx, t.worker.log);
    if !IsConfigWrite(t.worker.job.operation) {
      E.OnlyWritesBlock(ctx, t.worker.log);
    }
    AllReleased(codec, t);
    forall run | run in t.ended && E.Unproven(ContextOf(codec, run.job), run.log)
      ensures ClearedOnEvidence(codec, t, run)
    {
      UnprovenInDoubt(codec, run);
      assert Released(codec, t.cleared, run);
    }
  }

  /** A check clears exactly when it has evidence against the record in force, and then it clears that
      very blocker; otherwise the registry stays as it is. */
  lemma ClearIsExact(codec: E.Codec, t: System)
    requires Reachable(codec, t) && Enabled(codec, t, Clear)
    ensures t.worker.block == t.reg.record
    ensures var next := Next(codec, t, Clear);
      if C.Evidence(codec, t.reg.record, t.worker.log) then
        && t.reg.blocker.Some? && t.reg.blocker == t.reg.record.id
        && next.reg == R.ClearBlock(t.reg) && next.reg.blocker.None?
      else next.reg == t.reg
  {
    ReachableIsSafe(codec, t);
    C.ClearsExactlyOnEvidence(codec, t.worker.block, t.worker.log);
    if C.Cleared(C.Run(codec, t.worker.block, t.worker.log)) {
      EvidenceMatches(codec, t);
      R.ClearBlockInvariant(t.reg);
    }
  }

  /** The registry's partition, its bounded history and the held writes are there in every reachable state. */
  lemma RegistryInvariant(codec: E.Codec, t: System)
    requires Reachable(codec, t)
    ensures R.Invariant(t.reg)
    ensures t.reg.blocker.Some? && R.CanDequeue(t.reg) ==> !IsConfigWrite(R.Dequeue(t.reg).running.value.operation)
  {
    ReachableIsSafe(codec, t);
  }

  /** An identifier names one run for good: no two runs end under the same one and no block is cleared twice,
      so a clearance is of the run it names, and a run that was cleared does not block again. */
  lemma NamesOneRun(codec: E.Codec, t: System)
    requires Reachable(codec, t)
    ensures EndedOnce(t.ended) && ClearedOnce(t.cleared)
    ensures forall run, other :: run in t.ended && other in t.ended && run.job.id == other.job.id ==> run == other
    ensures forall c, d :: c in t.cleared && d in t.cleared && c.block.id == d.block.id ==> c == d
    ensures t.reg.blocker.Some? ==> forall c :: c in t.cleared ==> c.block.id != t.reg.blocker
    ensures t.reg.running.Some? ==> !Spent(t, t.reg.running.value.id)
  {
    var instance, startup, now, actions :| Reaches(codec, Startup(instance, startup, now), actions, t);
    StartupSafe(codec, instance, startup, now);
    assert Named(Startup(instance, startup, now));
    ReachableNamed(codec, Startup(instance, startup, now), actions, t);
    ReachableIsSafe(codec, t);
    hide Reaches, RunsAccounted, StartupAccounted, Spent;
    assert R.JobsActive(t.reg.queue, t.reg.running, t.reg.active);
  }
}
