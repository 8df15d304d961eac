/** The Writer is not safe by standing still: from its start every conversation that clears the block can take place,
    and after it every conversation of a write, to its end. */
module WriterProgress {
  import opened Options
  import opened WriterTypes
  import opened WriterSystem
  import opened RegistryRules
  import R = WriterRegistry
  import E = WriterEngine
  import C = WriterReconcile

  // ---------- sequences of actions ----------

  lemma {:induction false} ThenOne(codec: E.Codec, s: System, actions: seq<Action>, t: System, action: Action)
    requires Reaches(codec, s, actions, t) && Enabled(codec, t, action)
    ensures Reaches(codec, s, actions + [action], Next(codec, t, action))
    decreases |actions|
  {
    hide Enabled, Next;
    var longer := actions + [action];
    if actions == [] {
      assert longer[0] == action && longer[1..] == [];
      assert Reaches(codec, Next(codec, s, action), longer[1..], Next(codec, t, action));
    } else {
      ThenOne(codec, Next(codec, s, actions[0]), actions[1..], t, action);
      assert longer[0] == actions[0] && longer[1..] == actions[1..] + [action];
    }
  }

  lemma {:induction false} ThenAll(codec: E.Codec, s: System, first: seq<Action>, t: System, second: seq<Action>, u: System)
    requires Reaches(codec, s, first, t) && Reaches(codec, t, second, u)
    ensures Reaches(codec, s, first + second, u)
    decreases |first|
  {
    hide Enabled, Next;
    if first == [] {
      assert first + second == second;
    } else {
      ThenAll(codec, Next(codec, s, first[0]), first[1..], t, second, u);
      assert (first + second)[0] == first[0] && (first + second)[1..] == first[1..] + second;
    }
  }

  function Probes(log: seq<E.Reply>): seq<Action> {
    seq(|log|, i requires 0 <= i < |log| => Probe(log[i]))
  }

  function Answers(log: seq<E.Reply>): seq<Action> {
    seq(|log|, i requires 0 <= i < |log| => Answer(log[i]))
  }

  lemma ProbesNext(log: seq<E.Reply>)
    requires log != []
    ensures var n := |log| - 1; Probes(log) == Probes(log[..n]) + [Probe(log[n])] && log[..n] + [log[n]] == log
  {
  }

  lemma AnswersNext(log: seq<E.Reply>)
    requires log != []
    ensures var n := |log| - 1; Answers(log) == Answers(log[..n]) + [Answer(log[n])] && log[..n] + [log[n]] == log
  {
  }

  // ---------- a conversation takes place ----------

  lemma {:induction false} CheckTalks(codec: E.Codec, s: System, job: Job, block: BlockRecord, log: seq<E.Reply>)
    requires s.worker == Checking(job, block, []) && !C.Run(codec, block, log).Astray?
    ensures Reaches(codec, s, Probes(log), s.(worker := Checking(job, block, log)))
    decreases |log|
  {
    if log != [] {
      var n := |log| - 1;
      var earlier, t := log[..n], s.(worker := Checking(job, block, log[..n]));
      NotAstrayBefore(codec, block, log);
      ProbesNext(log);
      CheckTalks(codec, s, job, block, earlier);
      hide C.Run, Reaches, Probes, Enabled, Next;
      OneProbe(codec, t, job, block, earlier, log[n]);
      ThenOne(codec, s, Probes(earlier), t, Probe(log[n]));
    }
  }

  lemma OneProbe(codec: E.Codec, t: System, job: Job, block: BlockRecord, log: seq<E.Reply>, reply: E.Reply)
    requires t.worker == Checking(job, block, log) && !C.Run(codec, block, log + [reply]).Astray?
    ensures Enabled(codec, t, Probe(reply)) && Next(codec, t, Probe(reply)) == t.(worker := Checking(job, block, log + [reply]))
  {
    C.RunAppend(codec, block, log, reply);
    hide C.Run, C.Step;
  }

  lemma NotAstrayBefore(codec: E.Codec, block: BlockRecord, log: seq<E.Reply>)
    requires log != [] && !C.Run(codec, block, log).Astray?
    ensures !C.Run(codec, block, log[..|log| - 1]).Astray?
  {
    hide C.Begin;
    assert C.Run(codec, block, log) == C.Step(codec, block, C.Run(codec, block, log[..|log| - 1]), log[|log| - 1]);
  }

  lemma {:induction false} RunTalks(codec: E.Codec, s: System, job: Job, log: seq<E.Reply>)
    requires s.worker == Executing(job, []) && !E.Run(ContextOf(codec, job), log).Stuck?
    ensures Reaches(codec, s, Answers(log), s.(worker := Executing(job, log)))
    decreases |log|
  {
    if log != [] {
      var n := |log| - 1;
      var earlier, t := log[..n], s.(worker := Executing(job, log[..n]));
      NotStuckBefore(ContextOf(codec, job), log);
      AnswersNext(log);
      RunTalks(codec, s, job, earlier);
      hide E.Run, Reaches, Answers, Enabled, Next;
      OneAnswer(codec, t, job, earlier, log[n]);
      ThenOne(codec, s, Answers(earlier), t, Answer(log[n]));
    }
  }

  lemma OneAnswer(codec: E.Codec, t: System, job: Job, log: seq<E.Reply>, reply: E.Reply)
    requires t.worker == Executing(job, log) && !E.Run(ContextOf(codec, job), log + [reply]).Stuck?
    ensures Enabled(codec, t, Answer(reply)) && Next(codec, t, Answer(reply)) == t.(worker := Executing(job, log + [reply]))
  {
    E.RunAppend(ContextOf(codec, job), log, reply);
    hide E.Run, E.Step;
  }

  lemma NotStuckBefore(ctx: E.Context, log: seq<E.Reply>)
    requires log != [] && !E.Run(ctx, log).Stuck?
    ensures !E.Run(ctx, log[..|log| - 1]).Stuck?
  {
    hide E.Begin;
    assert E.Run(ctx, log) == E.Step(ctx, E.Run(ctx, log[..|log| - 1]), log[|log| - 1]);
  }

  // ---------- from the trigger to the conversation ----------

  /** Nothing waits and nothing runs. */
  ghost predicate AtRest(codec: E.Codec, s: System) {
    Safe(codec, s) && s.worker.Idle? && s.reg.queue == [] && !s.reg.stopped && s.reg.active == map[]
  }

  predicate Unused(s: System, id: RunId) {
    id !in s.reg.statuses && !Spent(s, id)
  }

  /** What a start leaves alone. */
  predicate Unchanged(s: System, t: System) {
    && t.reg.blocker == s.reg.blocker && t.reg.record == s.reg.record && t.reg.settings == s.reg.settings && t.reg.stopped == s.reg.stopped
    && t.ended == s.ended && t.cleared == s.cleared
  }

  /** No other identifier has come on record. */
  predicate OnlyNew(s: System, t: System, id: RunId) {
    forall k :: k in t.reg.statuses ==> k in s.reg.statuses || k == id
  }

  lemma Starts(codec: E.Codec, s: System, operation: Operation, id: RunId, now: int) returns (t: System)
    requires AtRest(codec, s) && Unused(s, id) && (IsConfigWrite(operation) ==> s.reg.blocker.None?)
    ensures Reaches(codec, s, [Trigger(operation, Some(id), now), Take, Start(now)], t) && Safe(codec, t)
    ensures OnlyNew(s, t, id) && Unchanged(s, t) && t.reg.queue == [] && t.reg.active == map[operation := id] && t.reg.running == Some(Job(id, operation, s.reg.settings))
    ensures t.worker == if operation == Reconcile then Reading(Job(id, operation, s.reg.settings)) else Executing(Job(id, operation, s.reg.settings), [])
  {
    var job := Job(id, operation, s.reg.settings);
    var one := Triggered(codec, s, operation, id, now);
    var two := TakenUp(codec, one, job);
    SafeParts(codec, two);
    RunningFacts(two.reg, job);
    BeginExactly(two.reg, job, now);
    StartIs(codec, two, job, now);
    t := Next(codec, two, Start(now));
    StepSafe(codec, two, Start(now));
    hide Safe, AtRest, Next, Enabled, R.Begin, R.Invariant;
    ThreeSteps(codec, s, Trigger(operation, Some(id), now), one, Take, two, Start(now), t);
  }

  lemma StartIs(codec: E.Codec, s: System, job: Job, now: int)
    requires s.worker == Taken(job)
    ensures Enabled(codec, s, Start(now))
    ensures Next(codec, s, Start(now)) ==
      System(R.Begin(s.reg, job, now), if job.operation == Reconcile then Reading(job) else Executing(job, []), s.ended, s.cleared)
  {
    hide R.Begin;
  }

  lemma ThreeSteps(codec: E.Codec, s: System, a: Action, one: System, b: Action, two: System, c: Action, t: System)
    requires Enabled(codec, s, a) && one == Next(codec, s, a) && Enabled(codec, one, b) && two == Next(codec, one, b)
    requires Enabled(codec, two, c) && t == Next(codec, two, c)
    ensures Reaches(codec, s, [a, b, c], t)
  {
    hide Enabled, Next;
    assert [a, b, c][1..] == [b, c] && [b, c][1..] == [c] && [c][1..] == [];
    assert Reaches(codec, two, [c], t);
    assert Reaches(codec, one, [b, c], t);
  }

  lemma Triggered(codec: E.Codec, s: System, operation: Operation, id: RunId, now: int) returns (one: System)
    requires AtRest(codec, s) && Unused(s, id) && (IsConfigWrite(operation) ==> s.reg.blocker.None?)
    ensures Enabled(codec, s, Trigger(operation, Some(id), now)) && one == Next(codec, s, Trigger(operation, Some(id), now))
    ensures Safe(codec, one) && Unchanged(s, one) && one.worker.Idle? && one.reg.queue == [Job(id, operation, s.reg.settings)]
    ensures one.reg.active == map[operation := id] && OnlyNew(s, one, id)
  {
    var action := Trigger(operation, Some(id), now);
    one := Next(codec, s, action);
    StepSafe(codec, s, action);
    hide Safe;
  }

  lemma TakenUp(codec: E.Codec, one: System, job: Job) returns (two: System)
    requires Safe(codec, one) && one.worker.Idle? && one.reg.queue == [job] && !one.reg.stopped
    requires IsConfigWrite(job.operation) ==> one.reg.blocker.None?
    ensures Enabled(codec, one, Take) && two == Next(codec, one, Take)
    ensures Safe(codec, two) && Unchanged(one, two) && two.worker == Taken(job) && two.reg.queue == [] && two.reg.active == one.reg.active
    ensures two.reg.running == Some(job) && two.reg.statuses == one.reg.statuses
  {
    assert one.reg.running.None? by { assert WorkerAgrees(one.reg, one.worker); }
    assert R.FirstRunnable(one.reg.queue, one.reg.blocker.Some?) == 0;
    two := Next(codec, one, Take);
    StepSafe(codec, one, Take);
    hide Safe;
  }

  // ---------- from the conversation to its end ----------

  function CheckActions(id: RunId, now: int, log: seq<E.Reply>): seq<Action> {
    [Trigger(Reconcile, Some(id), now), Take, Start(now)] + ([ReadBlock] + Probes(log) + [Clear, Conclude(now)])
  }

  function RunActions(operation: Operation, id: RunId, now: int, log: seq<E.Reply>): seq<Action> {
    [Trigger(operation, Some(id), now), Take, Start(now)] + (Answers(log) + [Finish(now)])
  }

  /** A conversation that clears the block clears it in the service. */
  lemma BlockIsLifted(codec: E.Codec, s: System, id: RunId, now: int, log: seq<E.Reply>) returns (t: System)
    requires AtRest(codec, s) && Unused(s, id) && s.reg.blocker.Some? && C.Cleared(C.Run(codec, s.reg.record, log))
    ensures Reaches(codec, s, CheckActions(id, now, log), t) && AtRest(codec, t)
    ensures t.reg.blocker.None? && t.reg.settings == s.reg.settings && t.ended == s.ended && t.cleared == s.cleared + [Clearance(s.reg.record, log)]
    ensures id in t.reg.statuses && t.reg.statuses[id].state == Succeeded && OnlyNew(s, t, id)
  {
    var started := Starts(codec, s, Reconcile, id, now);
    var job := Job(id, Reconcile, s.reg.settings);
    var reading := started.(worker := Checking(job, s.reg.record, []));
    var asked := started.(worker := Checking(job, s.reg.record, log));
    CheckTalks(codec, reading, job, s.reg.record, log);
    ReadsFirst(codec, started, reading, Probes(log), asked);
    hide AtRest, Reaches, C.Run;
    ReachableSafe(codec, started, [ReadBlock] + Probes(log), asked);
    t := Clears(codec, asked, job, s.reg.record, log, now);
    ThenAll(codec, started, [ReadBlock] + Probes(log), asked, [Clear, Conclude(now)], t);
    ThenAll(codec, s, [Trigger(Reconcile, Some(id), now), Take, Start(now)], started, [ReadBlock] + Probes(log) + [Clear, Conclude(now)], t);
  }

  lemma ReadsFirst(codec: E.Codec, started: System, reading: System, probes: seq<Action>, asked: System)
    requires started.worker.Reading? && reading == started.(worker := Checking(started.worker.job, started.reg.record, []))
    requires Reaches(codec, reading, probes, asked)
    ensures Reaches(codec, started, [ReadBlock] + probes, asked)
  {
    assert ([ReadBlock] + probes)[1..] == probes;
    assert Next(codec, started, ReadBlock) == reading;
  }

  lemma Clears(codec: E.Codec, asked: System, job: Job, block: BlockRecord, log: seq<E.Reply>, now: int) returns (t: System)
    requires Safe(codec, asked) && asked.worker == Checking(job, block, log) && asked.reg.running == Some(job) && asked.reg.queue == []
    requires C.Cleared(C.Run(codec, block, log)) && !asked.reg.stopped && asked.reg.active == map[job.operation := job.id]
    ensures Reaches(codec, asked, [Clear, Conclude(now)], t) && AtRest(codec, t)
    ensures t.reg.blocker.None? && t.reg.settings == asked.reg.settings && t.ended == asked.ended && t.cleared == asked.cleared + [Clearance(block, log)]
    ensures job.id in t.reg.statuses && t.reg.statuses[job.id].state == Succeeded && OnlyNew(asked, t, job.id)
  {
    var cleared := ClearedNow(codec, asked, job, block, log);
    var result := C.Run(codec, block, log).result;
    t := ConcludedNow(codec, cleared, job, result, now);
    hide Safe, Reaches, C.Run, Enabled, Next;
    TwoSteps(codec, asked, Clear, cleared, Conclude(now), t);
  }

  lemma ClearedNow(codec: E.Codec, asked: System, job: Job, block: BlockRecord, log: seq<E.Reply>) returns (cleared: System)
    requires Safe(codec, asked) && asked.worker == Checking(job, block, log) && C.Cleared(C.Run(codec, block, log))
    ensures Enabled(codec, asked, Clear) && cleared == Next(codec, asked, Clear) && Safe(codec, cleared)
    ensures cleared.worker == Concluding(job, C.Run(codec, block, log).result) && cleared.cleared == asked.cleared + [Clearance(block, log)]
    ensures cleared.ended == asked.ended && cleared.reg.blocker.None? && cleared.reg.settings == asked.reg.settings && SameQueue(asked.reg, cleared.reg)
    ensures cleared.reg.active == asked.reg.active && forall k :: k in cleared.reg.statuses ==> k in asked.reg.statuses
  {
    EvidenceMatches(codec, asked);
    ClearIs(codec, asked, job, block, log);
    cleared := Next(codec, asked, Clear);
    StepSafe(codec, asked, Clear);
    SafeParts(codec, asked);
    ClearBlockExactly(asked.reg);
    ClearDropsOnly(asked.reg);
    hide Safe, C.Run, C.Evidence, R.ClearBlock, R.Matches, R.Invariant, Next, Enabled, Joins, SameRunsBut;
  }

  lemma ClearIs(codec: E.Codec, s: System, job: Job, block: BlockRecord, log: seq<E.Reply>)
    requires s.worker == Checking(job, block, log) && C.Cleared(C.Run(codec, block, log))
    requires R.Matches(s.reg, block, C.Run(codec, block, log).result.version)
    ensures Enabled(codec, s, Clear)
    ensures Next(codec, s, Clear) ==
      System(R.ClearBlock(s.reg), Concluding(job, C.Run(codec, block, log).result), s.ended, s.cleared + [Clearance(block, log)])
  {
    hide C.Run, R.ClearBlock, R.Matches;
  }

  lemma ClearDropsOnly(r: R.Registry)
    requires R.Invariant(r) && r.blocker.Some?
    ensures forall k :: k in R.ClearBlock(r).statuses ==> k in r.statuses
  {
    R.ClearBlockInvariant(r);
    ClearBlockExactly(r);
    hide R.ClearBlock, R.Invariant;
  }

  lemma ConcludedNow(codec: E.Codec, cleared: System, job: Job, result: ReconcileResult, now: int) returns (t: System)
    requires Safe(codec, cleared) && cleared.worker == Concluding(job, result) && result.cleared
    requires cleared.reg.running == Some(job) && cleared.reg.queue == [] && !cleared.reg.stopped && cleared.reg.active == map[job.operation := job.id]
    ensures Enabled(codec, cleared, Conclude(now)) && t == Next(codec, cleared, Conclude(now)) && AtRest(codec, t)
    ensures t.reg.blocker == cleared.reg.blocker && t.reg.settings == cleared.reg.settings && t.ended == cleared.ended && t.cleared == cleared.cleared
    ensures job.id in t.reg.statuses && t.reg.statuses[job.id].state == Succeeded && OnlyNew(cleared, t, job.id)
  {
    ConcludeIs(codec, cleared, job, result, now);
    t := Next(codec, cleared, Conclude(now));
    StepSafe(codec, cleared, Conclude(now));
    SafeParts(codec, cleared);
    FinishReconcileExactly(cleared.reg, job, result, now);
    hide Safe, R.FinishReconcile, R.Invariant, Next, Enabled;
    NoneActive(cleared.reg, t.reg, job);
    JoinedFrom(cleared.reg, t.reg, job.id);
  }

  lemma JoinedFrom(before: R.Registry, after: R.Registry, id: RunId)
    requires id in after.statuses && Joins(before.completed, before.statuses[id := after.statuses[id]], after.completed, after.statuses, id)
    ensures forall k :: k in after.statuses ==> k in before.statuses || k == id
  {
  }

  lemma ConcludeIs(codec: E.Codec, s: System, job: Job, result: ReconcileResult, now: int)
    requires s.worker == Concluding(job, result)
    ensures Enabled(codec, s, Conclude(now))
    ensures Next(codec, s, Conclude(now)) == System(R.FinishReconcile(s.reg, job, result, now), Idle, s.ended, s.cleared)
  {
    hide R.FinishReconcile;
  }

  lemma NoneActive(before: R.Registry, after: R.Registry, job: Job)
    requires before.active == map[job.operation := job.id] && IsRetired(before, after, job)
    ensures after.active == map[]
  {
  }

  lemma TwoSteps(codec: E.Codec, s: System, a: Action, one: System, b: Action, t: System)
    requires Enabled(codec, s, a) && one == Next(codec, s, a) && Enabled(codec, one, b) && t == Next(codec, one, b)
    ensures Reaches(codec, s, [a, b], t)
  {
    hide Enabled, Next;
    assert [a, b][1..] == [b] && [b][1..] == [];
    assert Reaches(codec, one, [b], t);
  }

  /** A conversation of a run that ends is a run of the service, with its outcome on record. */
  lemma RunTakesPlace(codec: E.Codec, s: System, operation: Operation, id: RunId, now: int, log: seq<E.Reply>) returns (t: System)
    requires AtRest(codec, s) && Unused(s, id) && operation != Reconcile && (IsConfigWrite(operation) ==> s.reg.blocker.None?)
    requires E.Run(E.Context(codec, operation, s.reg.settings.maxVersionRetries), log).Done?
    ensures Reaches(codec, s, RunActions(operation, id, now, log), t) && AtRest(codec, t)
    ensures t.ended == s.ended + [EndedRun(Job(id, operation, s.reg.settings), log)] && t.cleared == s.cleared
    ensures var outcome := E.Run(E.Context(codec, operation, s.reg.settings.maxVersionRetries), log).outcome;
      id in t.reg.statuses && IsFinished(t.reg.statuses[id], t.reg.statuses[id], outcome, now)
      && (t.reg.blocker == Some(id) <==> StopsTheWriter(outcome.code))
  {
    var started := Starts(codec, s, operation, id, now);
    var job := Job(id, operation, s.reg.settings);
    assert ContextOf(codec, job) == E.Context(codec, operation, s.reg.settings.maxVersionRetries);
    var ended := started.(worker := Executing(job, log));
    RunTalks(codec, started, job, log);
    hide AtRest, Reaches, E.Run;
    ReachableSafe(codec, started, Answers(log), ended);
    t := Ends(codec, ended, job, log, now);
    ThenOne(codec, started, Answers(log), ended, Finish(now));
    ThenAll(codec, s, [Trigger(operation, Some(id), now), Take, Start(now)], started, Answers(log) + [Finish(now)], t);
  }

  lemma Ends(codec: E.Codec, s: System, job: Job, log: seq<E.Reply>, now: int) returns (t: System)
    requires Safe(codec, s) && s.worker == Executing(job, log) && s.reg.running == Some(job) && s.reg.queue == [] && !s.reg.stopped
    requires E.Run(ContextOf(codec, job), log).Done? && s.reg.active == map[job.operation := job.id]
    ensures Enabled(codec, s, Finish(now)) && t == Next(codec, s, Finish(now)) && AtRest(codec, t)
    ensures t.ended == s.ended + [EndedRun(job, log)] && t.cleared == s.cleared
    ensures var outcome := E.Run(ContextOf(codec, job), log).outcome;
      job.id in t.reg.statuses && IsFinished(t.reg.statuses[job.id], t.reg.statuses[job.id], outcome, now)
      && (t.reg.blocker == Some(job.id) <==> StopsTheWriter(outcome.code))
  {
    var outcome := E.Run(ContextOf(codec, job), log).outcome;
    FinishIs(codec, s, job, log, now);
    hide E.Run;
    t := Next(codec, s, Finish(now));
    StepSafe(codec, s, Finish(now));
    SafeParts(codec, s);
    FinishExactly(s.reg, job, outcome, now);
    RunningFacts(s.reg, job);
    hide Safe, R.Finish, R.Invariant, Next, Enabled, BlocksWith, Joins;
    NoneActive(s.reg, t.reg, job);
    BlockedOrNot(s.reg, t.reg, job, outcome, now);
    SaysItself(s.reg.statuses[job.id], t.reg.statuses[job.id], outcome, now);
  }

  lemma SaysItself(before: R.Run, after: R.Run, outcome: Outcome, now: int)
    requires IsFinished(before, after, outcome, now)
    ensures IsFinished(after, after, outcome, now)
  {
  }

  lemma BlockedOrNot(before: R.Registry, after: R.Registry, job: Job, outcome: Outcome, now: int)
    requires if StopsTheWriter(outcome.code) then BlocksWith(before, after, job, outcome, now) else SameBlock(before, after) && before.blocker != Some(job.id)
    ensures after.blocker == Some(job.id) <==> StopsTheWriter(outcome.code)
  {
  }

  lemma FinishIs(codec: E.Codec, s: System, job: Job, log: seq<E.Reply>, now: int)
    requires s.worker == Executing(job, log) && E.Run(ContextOf(codec, job), log).Done?
    ensures Enabled(codec, s, Finish(now))
    ensures Next(codec, s, Finish(now)) ==
      System(R.Finish(s.reg, job, E.Run(ContextOf(codec, job), log).outcome, now), Idle, s.ended + [EndedRun(job, log)], s.cleared)
  {
    hide E.Run, R.Finish;
  }

  lemma SafeParts(codec: E.Codec, s: System)
    requires Safe(codec, s)
    ensures R.Invariant(s.reg) && WorkerAgrees(s.reg, s.worker)
  {
    hide R.Invariant, WorkerAgrees;
  }

  // ---------- from the start of the service ----------

  /** A service that has just started can be cleared and can then write: with any conversation that clears its first
      block, and any conversation of a write that ends. */
  lemma TheWriterWorks(codec: E.Codec, instance: nat, startup: RunId, check: RunId, write: RunId, operation: Operation, now: int,
      talk: seq<E.Reply>, log: seq<E.Reply>) returns (actions: seq<Action>, t: System)
    requires startup != check && check != write && startup != write && IsConfigWrite(operation)
    requires C.Cleared(C.Run(codec, Startup(instance, startup, now).reg.record, talk))
    requires E.Run(E.Context(codec, operation, 0), log).Done?
    ensures Reaches(codec, Startup(instance, startup, now), actions, t)
    ensures t.ended == [EndedRun(Job(write, operation, R.NO_SETTINGS), log)] && |t.cleared| == 1 && t.cleared[0].log == talk
  {
    var s := Startup(instance, startup, now);
    StartupSafe(codec, instance, startup, now);
    InitialExactly(instance, startup, now);
    hide Safe, C.Run, E.Run, Reaches;
    var mid := BlockIsLifted(codec, s, check, now, talk);
    assert Unused(mid, write);
    t := RunTakesPlace(codec, mid, operation, write, now, log);
    actions := CheckActions(check, now, talk) + RunActions(operation, write, now, log);
    ThenAll(codec, s, CheckActions(check, now, talk), mid, RunActions(operation, write, now, log), t);
  }
}
