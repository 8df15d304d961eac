/** The fence that keeps concurrent planning calls apart: one attempt at a time, each step of it entered
    with the request identifier the previous step handed out. Both planners carry the same one. */
module PlannerFence {
  import opened Options

  /** The empty string stands for "none", as in the source. */
  type Id = string

  datatype Fence = Fence(configured: bool, generation: nat, attempt: Id, pending: Id, activePlans: nat)

  const NONE: Id := ""

  // ---------- the mutex-protected sections ----------

  function Configure(f: Fence): Fence {
    f.(configured := true, generation := f.generation + 1, attempt := NONE, pending := NONE)
  }

  function Shutdown(f: Fence): Fence {
    f.(configured := false, attempt := NONE, pending := NONE)
  }

  function BeginPlan(f: Fence): Fence {
    f.(activePlans := f.activePlans + 1)
  }

  function EndPlan(f: Fence): Fence {
    f.(activePlans := if f.activePlans > 0 then f.activePlans - 1 else 0)
  }

  predicate CanStart(f: Fence, generation: nat) {
    f.configured && f.generation == generation
  }

  function Start(f: Fence, attempt: Id, generation: nat): Fence {
    if CanStart(f, generation) then f.(attempt := attempt, pending := NONE) else f
  }

  predicate CanConsume(f: Fence, request: Id, generation: nat) {
    f.configured && f.generation == generation && f.attempt != NONE && f.pending == request
  }

  function Consume(f: Fence, request: Id, generation: nat): Fence {
    if CanConsume(f, request, generation) then f.(pending := NONE) else f
  }

  predicate CanRegister(f: Fence, attempt: Id, generation: nat) {
    f.configured && f.generation == generation && f.attempt == attempt && f.pending == NONE
  }

  function Register(f: Fence, attempt: Id, request: Id, generation: nat): Fence {
    if CanRegister(f, attempt, generation) then f.(pending := request) else f
  }

  function Complete(f: Fence, attempt: Id, generation: nat): Fence {
    if CanRegister(f, attempt, generation) then f.(attempt := NONE) else f
  }

  function Abandon(f: Fence, attempt: Id, generation: nat): Fence {
    if f.generation == generation && f.attempt == attempt then f.(attempt := NONE, pending := NONE) else f
  }

  // ---------- concurrent calls ----------

  /** What planning came to: an error, one more fetch, or the final proposal. */
  datatype PlanResult = Failed | NextFetch(request: Id) | Final

  /** One planning call: admitted (and perhaps turned away for an unreadable request), inside the fence, or on
      its way out. `request` is None for a first call and the identifier it presents otherwise; `names` is the
      identifier in the continuation it brings along. */
  datatype Call =
    | Admitted(generation: nat, request: Option<Id>, names: Id)
    | Planning(generation: nat, attempt: Id, request: Option<Id>, names: Id)
    | Leaving

  /** Planning succeeds only for a first call or one that presents the identifier its continuation names, and
      a valid continuation names one. Both planners' machines prove this of themselves. */
  predicate Plannable(request: Option<Id>, names: Id) {
    request.None? || (request == Some(names) && names != NONE)
  }

  datatype Consumption = Consumption(request: Id, attempt: Id, generation: nat)
  datatype Registration = Registration(request: Id, attempt: Id, generation: nat)

  /** The lists only remember; `drawn` are the random identifiers handed out so far. */
  datatype System = System(
    fence: Fence, calls: map<nat, Call>, drawn: set<Id>,
    registered: seq<Registration>, consumed: seq<Consumption>, completed: seq<Id>)

  datatype Action =
    | Reconfigure
    | Stop
    | Admit(call: nat, request: Option<Id>, names: Id)
    | Enter(call: nat, newAttempt: Id)
    | Conclude(call: nat, result: PlanResult)
    | Leave(call: nat)

  /** Random identifiers are not empty and never repeat. */
  predicate Enabled(s: System, action: Action) {
    match action
    case Reconfigure => true
    case Stop => true
    case Admit(call, _, _) => s.fence.configured && call !in s.calls
    case Enter(call, newAttempt) =>
      call in s.calls && s.calls[call].Admitted? && newAttempt != NONE && newAttempt !in s.drawn
    case Conclude(call, result) =>
      && call in s.calls && s.calls[call].Planning?
      && (result.NextFetch? ==> result.request != NONE && result.request !in s.drawn)
      && (!result.Failed? ==> Plannable(s.calls[call].request, s.calls[call].names))
    case Leave(call) => call in s.calls && !s.calls[call].Planning?
  }

  function EnterStep(s: System, call: nat, newAttempt: Id): System
    requires call in s.calls && s.calls[call].Admitted?
  {
    var c := s.calls[call];
    match c.request
    case None =>
      if CanStart(s.fence, c.generation) then
        s.(fence := Start(s.fence, newAttempt, c.generation), drawn := s.drawn + {newAttempt},
           calls := s.calls[call := Planning(c.generation, newAttempt, None, c.names)])
      else s.(calls := s.calls[call := Leaving])
    case Some(request) =>
      if CanConsume(s.fence, request, c.generation) then
        s.(fence := Consume(s.fence, request, c.generation),
           consumed := s.consumed + [Consumption(request, s.fence.attempt, c.generation)],
           calls := s.calls[call := Planning(c.generation, s.fence.attempt, Some(request), c.names)])
      else s.(calls := s.calls[call := Leaving])
  }

  function ConcludeStep(s: System, call: nat, result: PlanResult): System
    requires call in s.calls && s.calls[call].Planning?
  {
    var c := s.calls[call];
    var left := s.(calls := s.calls[call := Leaving]);
    match result
    case Failed => left.(fence := Abandon(s.fence, c.attempt, c.generation))
    case NextFetch(request) =>
      if CanRegister(s.fence, c.attempt, c.generation) then
        left.(fence := Register(s.fence, c.attempt, request, c.generation), drawn := s.drawn + {request},
              registered := s.registered + [Registration(request, c.attempt, c.generation)])
      else left.(drawn := s.drawn + {request})
    case Final =>
      if CanRegister(s.fence, c.attempt, c.generation) then
        left.(fence := Complete(s.fence, c.attempt, c.generation), completed := s.completed + [c.attempt])
      else left
  }

  function Next(s: System, action: Action): System
    requires Enabled(s, action)
  {
    match action
    case Reconfigure => s.(fence := Configure(s.fence))
    case Stop => s.(fence := Shutdown(s.fence))
    case Admit(call, request, names) =>
      s.(fence := BeginPlan(s.fence), calls := s.calls[call := Admitted(s.fence.generation, request, names)])
    case Enter(call, newAttempt) => EnterStep(s, call, newAttempt)
    case Conclude(call, result) => ConcludeStep(s, call, result)
    case Leave(call) => s.(fence := EndPlan(s.fence), calls := s.calls - {call})
  }

  const INITIAL := System(Fence(false, 0, NONE, NONE, 0), map[], {}, [], [], [])

  predicate Reaches(s: System, actions: seq<Action>, t: System)
    decreases |actions|
  {
    if actions == [] then s == t
    else Enabled(s, actions[0]) && Reaches(Next(s, actions[0]), actions[1..], t)
  }

  // ---------- what every reachable state keeps ----------

  ghost predicate WasRegistered(s: System, request: Id, attempt: Id, generation: nat) {
    Registration(request, attempt, generation) in s.registered
  }

  ghost predicate WasConsumed(s: System, request: Id) {
    exists c :: c in s.consumed && c.request == request
  }

  /** The call plans for the attempt in force and did not get in with the empty identifier. */
  predicate Owns(s: System, call: nat) {
    && call in s.calls && s.calls[call].Planning? && s.calls[call].request != Some(NONE)
    && s.calls[call].attempt == s.fence.attempt && s.calls[call].generation == s.fence.generation
  }

  ghost predicate FenceInvariant(s: System) {
    && (s.fence.attempt == NONE ==> s.fence.pending == NONE)
    && (s.fence.attempt != NONE ==> s.fence.configured && s.fence.attempt in s.drawn && s.fence.attempt !in s.completed)
    && (s.fence.pending != NONE ==>
         WasRegistered(s, s.fence.pending, s.fence.attempt, s.fence.generation) && !WasConsumed(s, s.fence.pending))
  }

  ghost predicate CallsInvariant(s: System) {
    && s.fence.activePlans == |s.calls|
    && (forall call :: call in s.calls && !s.calls[call].Leaving? ==> s.calls[call].generation <= s.fence.generation)
    && (forall call :: call in s.calls && s.calls[call].Planning? ==> s.calls[call].attempt != NONE && s.calls[call].attempt in s.drawn)
    && (forall one, two :: Owns(s, one) && Owns(s, two) ==> one == two)
    && (s.fence.pending != NONE ==> forall call :: !Owns(s, call))
  }

  ghost predicate HistoryInvariant(s: System) {
    && (forall r :: r in s.registered ==> r.request in s.drawn && r.request != NONE)
    && (forall c :: c in s.consumed && c.request != NONE ==> WasRegistered(s, c.request, c.attempt, c.generation))
    && (forall i, j :: 0 <= i < j < |s.consumed| && s.consumed[i].request != NONE ==> s.consumed[i].request != s.consumed[j].request)
    && (forall i, j :: 0 <= i < j < |s.registered| ==> s.registered[i].request != s.registered[j].request)
    && (forall i, j :: 0 <= i < j < |s.completed| ==> s.completed[i] != s.completed[j])
    && (forall a :: a in s.completed ==> a in s.drawn)
  }

  ghost predicate Invariant(s: System) {
    FenceInvariant(s) && CallsInvariant(s) && HistoryInvariant(s)
  }

  lemma Refenced(s: System, fence: Fence)
    requires Invariant(s) && fence.attempt == NONE && fence.pending == NONE
    requires fence.activePlans == s.fence.activePlans && fence.generation >= s.fence.generation
    ensures Invariant(s.(fence := fence))
  {
    forall call ensures !Owns(s.(fence := fence), call) {
    }
  }

  lemma EnterCalls(s: System, call: nat, newAttempt: Id)
    requires Invariant(s) && Enabled(s, Enter(call, newAttempt))
    ensures CallsInvariant(EnterStep(s, call, newAttempt))
  {
    hide HistoryInvariant, WasRegistered, WasConsumed;
    var t := EnterStep(s, call, newAttempt);
    EnterOwners(s, call, newAttempt);
    assert t.calls.Keys == s.calls.Keys;
    assert |t.calls| == |t.calls.Keys| && |s.calls| == |s.calls.Keys|;
  }

  lemma EnterOwners(s: System, call: nat, newAttempt: Id)
    requires Invariant(s) && Enabled(s, Enter(call, newAttempt))
    ensures forall other :: Owns(EnterStep(s, call, newAttempt), other) ==> other == call || Owns(s, other)
  {
    hide HistoryInvariant, WasRegistered, WasConsumed;
  }

  lemma EnterHistory(s: System, call: nat, newAttempt: Id)
    requires Invariant(s) && Enabled(s, Enter(call, newAttempt))
    ensures FenceInvariant(EnterStep(s, call, newAttempt)) && HistoryInvariant(EnterStep(s, call, newAttempt))
  {
    hide CallsInvariant;
  }

  lemma ConcludeCalls(s: System, call: nat, result: PlanResult)
    requires Invariant(s) && Enabled(s, Conclude(call, result))
    ensures CallsInvariant(ConcludeStep(s, call, result))
  {
    hide HistoryInvariant, WasRegistered, WasConsumed;
    var t := ConcludeStep(s, call, result);
    forall other ensures Owns(t, other) ==> other != call && Owns(s, other) {
    }
    if result.NextFetch? && CanRegister(s.fence, s.calls[call].attempt, s.calls[call].generation) {
      assert Owns(s, call);
    }
    assert t.calls.Keys == s.calls.Keys;
    assert |t.calls| == |t.calls.Keys| && |s.calls| == |s.calls.Keys|;
  }

  lemma ConcludeHistory(s: System, call: nat, result: PlanResult)
    requires Invariant(s) && Enabled(s, Conclude(call, result))
    ensures FenceInvariant(ConcludeStep(s, call, result)) && HistoryInvariant(ConcludeStep(s, call, result))
  {
    assert s.calls[call].attempt != NONE && s.calls[call].attempt in s.drawn;
    hide CallsInvariant, Owns;
    var t := ConcludeStep(s, call, result);
    assert forall r :: r in s.registered ==> r in t.registered;
  }

  lemma AdmitInvariant(s: System, call: nat, request: Option<Id>, names: Id)
    requires Invariant(s) && Enabled(s, Admit(call, request, names))
    ensures Invariant(Next(s, Admit(call, request, names)))
  {
    var t := Next(s, Admit(call, request, names));
    forall other ensures Owns(t, other) <==> Owns(s, other) {
    }
    assert t.calls.Keys == s.calls.Keys + {call};
    assert |t.calls| == |t.calls.Keys| && |s.calls| == |s.calls.Keys|;
  }

  lemma LeaveInvariant(s: System, call: nat)
    requires Invariant(s) && Enabled(s, Leave(call))
    ensures Invariant(Next(s, Leave(call)))
  {
    var t := Next(s, Leave(call));
    forall other ensures Owns(t, other) <==> Owns(s, other) {
    }
    assert t.calls.Keys == s.calls.Keys - {call};
    assert |t.calls| == |t.calls.Keys| && |s.calls| == |s.calls.Keys|;
  }

  lemma StepInvariant(s: System, action: Action)
    requires Invariant(s) && Enabled(s, action)
    ensures Invariant(Next(s, action))
  {
    match action
    case Reconfigure => Refenced(s, Configure(s.fence));
    case Stop => Refenced(s, Shutdown(s.fence));
    case Admit(call, request, names) => AdmitInvariant(s, call, request, names);
    case Enter(call, newAttempt) =>
      EnterCalls(s, call, newAttempt);
      EnterHistory(s, call, newAttempt);
    case Conclude(call, result) =>
      ConcludeCalls(s, call, result);
      ConcludeHistory(s, call, result);
    case Leave(call) => LeaveInvariant(s, call);
  }

  lemma {:induction false} ReachableInvariant(s: System, actions: seq<Action>, t: System)
    requires Invariant(s) && Reaches(s, actions, t)
    ensures Invariant(t)
    decreases |actions|
  {
    hide Invariant, Next;
    if actions != [] {
      StepInvariant(s, actions[0]);
      ReachableInvariant(Next(s, actions[0]), actions[1..], t);
    }
  }

  ghost predicate Reachable(t: System) {
    exists actions :: Reaches(INITIAL, actions, t)
  }

  lemma ReachableIsSound(t: System)
    requires Reachable(t)
    ensures Invariant(t)
  {
    var actions :| Reaches(INITIAL, actions, t);
    assert Invariant(INITIAL);
    ReachableInvariant(INITIAL, actions, t);
  }

  // ---------- the theorems ----------

  /** Under every interleaving a request identifier is consumed at most once, by the attempt and generation
      it was registered for, and an attempt completes at most once. */
  lemma ReplayFence(t: System)
    requires Reachable(t)
    ensures forall i, j :: 0 <= i < j < |t.consumed| && t.consumed[i].request == t.consumed[j].request ==> t.consumed[i].request == NONE
    ensures forall c :: c in t.consumed && c.request != NONE ==> Registration(c.request, c.attempt, c.generation) in t.registered
    ensures forall i, j :: 0 <= i < j < |t.completed| ==> t.completed[i] != t.completed[j]
  {
    ReachableIsSound(t);
  }

  /** At most one call at a time works for the attempt in force, none while its next step is on offer, and
      the status reports a plan in progress exactly while there is a call. */
  lemma OneCallPerAttempt(t: System)
    requires Reachable(t)
    ensures forall one, two :: Owns(t, one) && Owns(t, two) ==> one == two
    ensures t.fence.pending != NONE ==> forall call :: !Owns(t, call)
    ensures t.fence.activePlans > 0 <==> t.calls != map[]
  {
    ReachableIsSound(t);
    assert |t.calls| == |t.calls.Keys|;
  }

  // ---------- what a step brings about ----------

  /** A first call of the generation in force starts its own attempt, and nothing is on offer yet. */
  lemma FirstCallStarts(t: System, call: nat, newAttempt: Id)
    requires Enabled(t, Enter(call, newAttempt)) && t.calls[call].request == None
    ensures var u := Next(t, Enter(call, newAttempt));
      if t.fence.configured && t.calls[call].generation == t.fence.generation then
        && u.fence.attempt == newAttempt != "" && u.fence.pending == ""
        && u.calls[call] == Planning(t.fence.generation, newAttempt, None, t.calls[call].names)
      else u.fence == t.fence && u.calls[call] == Leaving
  {
  }

  /** What calls of the generation in force meet at the entrance: a call that presents what is on offer goes on
      with the attempt in force, and takes it off offer; any other that presents something is turned away. */
  lemma OnlyTheOfferedEnters(u: System, call: nat, presented: Id, newAttempt: Id)
    requires Enabled(u, Enter(call, newAttempt)) && u.calls[call].request == Some(presented)
    requires u.calls[call].generation == u.fence.generation && u.fence.configured && u.fence.attempt != ""
    ensures var v := Next(u, Enter(call, newAttempt));
      && v.fence.attempt == u.fence.attempt && v.fence.generation == u.fence.generation && v.fence.configured
      && (if presented == u.fence.pending then
            && v.calls[call] == Planning(u.fence.generation, u.fence.attempt, Some(presented), u.calls[call].names)
            && v.fence.pending == ""
          else v.calls[call] == Leaving && v.fence.pending == u.fence.pending)
  {
  }

  /** A call that works for the attempt in force, with nothing on offer, hands over its next step: its identifier
      is on offer then, a call that presents it goes on with this attempt, and one that presents anything else is
      turned away. */
  lemma StepIsHandedOver(t: System, call: nat, request: Id)
    requires Reachable(t) && call in t.calls && t.calls[call].Planning? && t.fence.pending == ""
    requires t.calls[call].attempt == t.fence.attempt && t.calls[call].generation == t.fence.generation
    requires Enabled(t, Conclude(call, NextFetch(request)))
    ensures var u := Next(t, Conclude(call, NextFetch(request)));
      && u.fence.pending == request != "" && u.fence.attempt == t.fence.attempt && u.fence.generation == t.fence.generation
      && u.calls[call] == Leaving
      && forall other, newAttempt ::
           (Enabled(u, Enter(other, newAttempt)) && u.calls[other].generation == t.fence.generation && u.calls[other].request.Some?) ==>
         var v := Next(u, Enter(other, newAttempt));
         if u.calls[other].request == Some(request) then
           v.calls[other] == Planning(t.fence.generation, t.fence.attempt, Some(request), u.calls[other].names) && v.fence.pending == ""
         else v.calls[other] == Leaving && v.fence == u.fence
  {
    ReachableIsSound(t);
    var u := Next(t, Conclude(call, NextFetch(request)));
    forall other, newAttempt | Enabled(u, Enter(other, newAttempt)) && u.calls[other].generation == t.fence.generation
        && u.calls[other].request.Some?
      ensures var v := Next(u, Enter(other, newAttempt));
        if u.calls[other].request == Some(request) then
          v.calls[other] == Planning(t.fence.generation, t.fence.attempt, Some(request), u.calls[other].names) && v.fence.pending == ""
        else v.calls[other] == Leaving && v.fence == u.fence
    {
      OnlyTheOfferedEnters(u, other, u.calls[other].request.value, newAttempt);
    }
  }

  /** If such a call concludes with the final proposal or with an error, no attempt is in force, and no later step of
      it gets in. */
  lemma AttemptEnds(t: System, call: nat, result: PlanResult)
    requires Reachable(t) && call in t.calls && t.calls[call].Planning? && t.fence.pending == ""
    requires t.calls[call].attempt == t.fence.attempt && t.calls[call].generation == t.fence.generation
    requires Enabled(t, Conclude(call, result)) && !result.NextFetch?
    ensures var u := Next(t, Conclude(call, result));
      && u.fence.attempt == "" && u.fence.pending == "" && u.calls[call] == Leaving
      && u.completed == (if result == Final then t.completed + [t.fence.attempt] else t.completed)
      && forall other, newAttempt :: Enabled(u, Enter(other, newAttempt)) && u.calls[other].request.Some? ==>
           Next(u, Enter(other, newAttempt)).calls[other] == Leaving
  {
    ReachableIsSound(t);
  }

  /** A reconfiguration starts the next generation without an attempt; a shutdown leaves nothing to enter. */
  lemma ForgetsEverything(t: System)
    ensures Next(t, Reconfigure).fence == Fence(true, t.fence.generation + 1, "", "", t.fence.activePlans)
    ensures Next(t, Stop).fence == Fence(false, t.fence.generation, "", "", t.fence.activePlans)
    ensures forall call, request, names :: Enabled(t, Admit(call, request, names)) ==>
      && t.fence.configured && Next(t, Admit(call, request, names)).fence == t.fence.(activePlans := t.fence.activePlans + 1)
      && Next(t, Admit(call, request, names)).calls[call] == Admitted(t.fence.generation, request, names)
  {
  }

  // ---------- what is over stays over ----------

  /** Nobody works for this attempt of this generation any more. */
  predicate Stale(s: System, attempt: Id, generation: nat) {
    s.fence.attempt != attempt || s.fence.generation != generation
  }

  lemma {:induction false} StaleStays(s: System, actions: seq<Action>, t: System, attempt: Id, generation: nat)
    requires Reaches(s, actions, t) && attempt != NONE && attempt in s.drawn && Stale(s, attempt, generation)
    ensures attempt in t.drawn && Stale(t, attempt, generation)
    decreases |actions|
  {
    if actions != [] {
      StaleStep(s, actions[0], attempt, generation);
      StaleStays(Next(s, actions[0]), actions[1..], t, attempt, generation);
    }
  }

  lemma StaleStep(s: System, action: Action, attempt: Id, generation: nat)
    requires Enabled(s, action) && attempt != NONE && attempt in s.drawn && Stale(s, attempt, generation)
    ensures attempt in Next(s, action).drawn && Stale(Next(s, action), attempt, generation)
  {
  }

  /** The generation has been left behind, or is no longer configured. */
  predicate Superseded(s: System, generation: nat) {
    s.fence.generation > generation || (s.fence.generation == generation && !s.fence.configured)
  }

  lemma {:induction false} SupersededStays(s: System, actions: seq<Action>, t: System, generation: nat)
    requires Reaches(s, actions, t) && Superseded(s, generation)
    ensures Superseded(t, generation)
    decreases |actions|
  {
    if actions != [] {
      SupersededStays(Next(s, actions[0]), actions[1..], t, generation);
    }
  }

  lemma {:induction false} SupersededBy(s: System, actions: seq<Action>, t: System, generation: nat, i: nat)
    requires Reaches(s, actions, t) && generation <= s.fence.generation
    requires i < |actions| && (actions[i] == Reconfigure || actions[i] == Stop)
    ensures Superseded(t, generation)
    decreases |actions|
  {
    var next := Next(s, actions[0]);
    if i == 0 {
      SupersededStays(next, actions[1..], t, generation);
    } else {
      SupersededBy(next, actions[1..], t, generation, i - 1);
    }
  }

  /** A call left over from an older attempt or generation is harmless for the rest of its life: whatever
      happens before it concludes, and whatever its planning came to, it concludes without touching the
      fence. So does one turned away at the entrance. */
  lemma OldCallsAreHarmless(t: System, actions: seq<Action>, u: System, call: nat, result: PlanResult)
    requires Reachable(t) && call in t.calls && t.calls[call].Planning? && Stale(t, t.calls[call].attempt, t.calls[call].generation)
    requires Reaches(t, actions, u) && call in u.calls && u.calls[call] == t.calls[call] && Enabled(u, Conclude(call, result))
    ensures var next := Next(u, Conclude(call, result));
      next.fence == u.fence && next.registered == u.registered && next.completed == u.completed && next.consumed == u.consumed
  {
    ReachableIsSound(t);
    StaleStays(t, actions, u, t.calls[call].attempt, t.calls[call].generation);
  }

  /** Once there has been a reconfiguration or a shutdown, no call admitted before it ever enters. */
  lemma OldGenerationsAreOut(t: System, actions: seq<Action>, u: System, call: nat, newAttempt: Id, i: nat)
    requires Reachable(t) && call in t.calls && t.calls[call].Admitted?
    requires Reaches(t, actions, u) && i < |actions| && (actions[i] == Reconfigure || actions[i] == Stop)
    requires call in u.calls && u.calls[call] == t.calls[call] && Enabled(u, Enter(call, newAttempt))
    ensures Next(u, Enter(call, newAttempt)) == u.(calls := u.calls[call := Leaving])
  {
    ReachableIsSound(t);
    SupersededBy(t, actions, u, t.calls[call].generation, i);
  }

  // ---------- the empty identifier ----------

  /** The empty identifier gets in exactly while an attempt of the call's own generation is between its steps. */
  lemma EmptyIdentifierEnters(t: System, call: nat, newAttempt: Id)
    requires Reachable(t) && Enabled(t, Enter(call, newAttempt)) && t.calls[call].request == Some(NONE)
    ensures Next(t, Enter(call, newAttempt)).calls[call].Planning? <==>
      t.fence.generation == t.calls[call].generation && t.fence.attempt != NONE && t.fence.pending == NONE
  {
    ReachableIsSound(t);
  }

  /** A call that got in with the empty identifier can only fail, and in failing it abandons the attempt it
      intruded on, if that is still in force, and leaves any other alone. */
  lemma EmptyIdentifierAbandons(t: System, call: nat, result: PlanResult)
    requires Reachable(t) && call in t.calls && t.calls[call].Planning? && t.calls[call].request == Some(NONE)
    requires Enabled(t, Conclude(call, result))
    ensures result == Failed
    ensures Next(t, Conclude(call, result)).fence ==
      if Stale(t, t.calls[call].attempt, t.calls[call].generation) then t.fence else t.fence.(attempt := NONE, pending := NONE)
  {
  }

  /** It does happen: a second call presents the empty identifier while the first is still planning. The
      attempt of the first call is gone before it can answer, and its answer registers and completes nothing. */
  lemma EmptyIdentifierIntrudes() returns (t: System)
    ensures Reachable(t) && t.consumed == [Consumption(NONE, "a", 1)]
    ensures t.calls == map[0 := Planning(1, "a", None, NONE), 1 := Leaving] && t.fence.attempt == NONE
    ensures forall request :: Enabled(t, Conclude(0, NextFetch(request))) ==> Next(t, Conclude(0, NextFetch(request))).registered == []
    ensures Enabled(t, Conclude(0, Final)) && Next(t, Conclude(0, Final)).completed == []
  {
    t := Intrusion();
    IntrusionCosts(t);
    hide *;
  }

  lemma Intrusion() returns (t: System)
    ensures Reachable(t) && t.consumed == [Consumption(NONE, "a", 1)]
    ensures t.calls == map[0 := Planning(1, "a", None, NONE), 1 := Leaving] && t.fence.attempt == NONE
    ensures t.registered == [] && t.completed == []
  {
    var actions := [Reconfigure, Admit(0, None, NONE), Enter(0, "a"), Admit(1, Some(NONE), NONE), Enter(1, "b"), Conclude(1, Failed)];
    var s1 := Next(INITIAL, actions[0]);
    var s2 := Next(s1, actions[1]);
    var s3 := Next(s2, actions[2]);
    var s4 := Next(s3, actions[3]);
    var s5 := Next(s4, actions[4]);
    t := Next(s5, actions[5]);
    hide Reaches;
    ReachesHere(t);
    assert actions[6..] == [] && actions[0..] == actions;
    ReachesFrom(s5, actions, 5, t);
    ReachesFrom(s4, actions, 4, t);
    ReachesFrom(s3, actions, 3, t);
    ReachesFrom(s2, actions, 2, t);
    ReachesFrom(s1, actions, 1, t);
    ReachesFrom(INITIAL, actions, 0, t);
  }

  lemma IntrusionCosts(t: System)
    requires t.calls == map[0 := Planning(1, "a", None, NONE), 1 := Leaving] && t.fence.attempt == NONE
    requires t.registered == [] && t.completed == []
    ensures forall request :: Enabled(t, Conclude(0, NextFetch(request))) ==> Next(t, Conclude(0, NextFetch(request))).registered == []
    ensures Enabled(t, Conclude(0, Final)) && Next(t, Conclude(0, Final)).completed == []
  {
  }

  lemma ReachesHere(t: System)
    ensures Reaches(t, [], t)
  {
  }

  lemma ReachesFrom(s: System, actions: seq<Action>, i: nat, t: System)
    requires i < |actions| && Enabled(s, actions[i]) && Reaches(Next(s, actions[i]), actions[i + 1..], t)
    ensures Reaches(s, actions[i..], t)
  {
    assert actions[i..][0] == actions[i] && actions[i..][1..] == actions[i + 1..];
  }
}
