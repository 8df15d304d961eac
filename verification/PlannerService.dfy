/** The planner's service object and the sequencing of one planning call. */
module PlannerService {
  import opened Options
  import F = PlannerFence

  /** The sections one call goes through, with what each was given and reported. */
  datatype Crossing =
    | Started(generation: nat, attempt: Option<F.Id>)
    | Consumed(request: F.Id, generation: nat, attempt: Option<F.Id>)
    | Registered(own: F.Id, request: F.Id, generation: nat, ok: bool)
    | Completed(own: F.Id, generation: nat, ok: bool)
    | Abandoned(own: F.Id, generation: nat)

  class Service {
    var configured: bool
    var reconfigureSeq: nat
    var activePlans: nat
    var currentAttempt: F.Id
    var pendingRequest: F.Id

    /** What this call has gone through. */
    ghost var crossings: seq<Crossing>

    ghost function State(): F.Fence
      reads this
    {
      F.Fence(configured, reconfigureSeq, currentAttempt, pendingRequest, activePlans)
    }

    constructor ()
      ensures State() == F.INITIAL.fence && crossings == []
    {
      configured, reconfigureSeq, activePlans, currentAttempt, pendingRequest := false, 0, 0, F.NONE, F.NONE;
      crossings := [];
    }

    method Configure()
      modifies this
      ensures crossings == old(crossings)
      ensures State() == F.Configure(old(State()))
    {
      configured := true;
      reconfigureSeq := reconfigureSeq + 1;
      currentAttempt := F.NONE;
      pendingRequest := F.NONE;
    }

    method Shutdown()
      modifies this
      ensures crossings == old(crossings)
      ensures State() == F.Shutdown(old(State()))
    {
      configured := false;
      currentAttempt := F.NONE;
      pendingRequest := F.NONE;
    }

    /** The generation the call is tied to; None when the token does not fit. */
    method BeginAuthorizedPlan(tokenFits: bool) returns (generation: Option<nat>)
      modifies this
      ensures generation.Some? <==> old(configured) && tokenFits
      ensures generation.Some? ==> generation.value == old(reconfigureSeq) && State() == F.BeginPlan(old(State()))
      ensures generation.None? ==> State() == old(State())
    {
      if !configured || !tokenFits {
        return None;
      }
      activePlans := activePlans + 1;
      return Some(reconfigureSeq);
    }

    method StartPlannerAttempt(attemptId: F.Id, generation: nat) returns (attempt: Option<F.Id>)
      modifies this
      ensures State() == F.Start(old(State()), attemptId, generation)
      ensures attempt == if F.CanStart(old(State()), generation) then Some(attemptId) else None
      ensures crossings == old(crossings) + [Started(generation, attempt)]
    {
      if !configured || reconfigureSeq != generation {
        crossings := crossings + [Started(generation, None)];
        return None;
      }
      currentAttempt := attemptId;
      pendingRequest := F.NONE;
      crossings := crossings + [Started(generation, Some(attemptId))];
      return Some(attemptId);
    }

    method ConsumePlannerStep(requestId: F.Id, generation: nat) returns (attempt: Option<F.Id>)
      modifies this
      ensures State() == F.Consume(old(State()), requestId, generation)
      ensures attempt == if F.CanConsume(old(State()), requestId, generation) then Some(old(currentAttempt)) else None
      ensures crossings == old(crossings) + [Consumed(requestId, generation, attempt)]
    {
      if !configured || reconfigureSeq != generation || currentAttempt == F.NONE || pendingRequest != requestId {
        crossings := crossings + [Consumed(requestId, generation, None)];
        return None;
      }
      pendingRequest := F.NONE;
      crossings := crossings + [Consumed(requestId, generation, Some(currentAttempt))];
      return Some(currentAttempt);
    }

    method RegisterPlannerStep(attemptId: F.Id, requestId: F.Id, generation: nat) returns (ok: bool)
      modifies this
      ensures State() == F.Register(old(State()), attemptId, requestId, generation)
      ensures ok == F.CanRegister(old(State()), attemptId, generation)
      ensures crossings == old(crossings) + [Registered(attemptId, requestId, generation, ok)]
    {
      if !configured || reconfigureSeq != generation || currentAttempt != attemptId || pendingRequest != F.NONE {
        crossings := crossings + [Registered(attemptId, requestId, generation, false)];
        return false;
      }
      pendingRequest := requestId;
      crossings := crossings + [Registered(attemptId, requestId, generation, true)];
      return true;
    }

    method CompletePlannerAttempt(attemptId: F.Id, generation: nat) returns (ok: bool)
      modifies this
      ensures State() == F.Complete(old(State()), attemptId, generation)
      ensures ok == F.CanRegister(old(State()), attemptId, generation)
      ensures crossings == old(crossings) + [Completed(attemptId, generation, ok)]
    {
      if !configured || reconfigureSeq != generation || currentAttempt != attemptId || pendingRequest != F.NONE {
        crossings := crossings + [Completed(attemptId, generation, false)];
        return false;
      }
      currentAttempt := F.NONE;
      crossings := crossings + [Completed(attemptId, generation, true)];
      return true;
    }

    method AbandonPlannerAttempt(attemptId: F.Id, generation: nat)
      modifies this
      ensures State() == F.Abandon(old(State()), attemptId, generation)
      ensures crossings == old(crossings) + [Abandoned(attemptId, generation)]
    {
      crossings := crossings + [Abandoned(attemptId, generation)];
      if reconfigureSeq == generation && currentAttempt == attemptId {
        currentAttempt := F.NONE;
        pendingRequest := F.NONE;
      }
    }

    method EndPlan()
      modifies this
      ensures State() == F.EndPlan(old(State()))
    {
      if activePlans > 0 {
        activePlans := activePlans - 1;
      }
    }

    /** Other calls, reconfiguration and shutdown may run here. */
    method Elsewhere()
      modifies this
      ensures crossings == old(crossings)
    {
      configured, reconfigureSeq, activePlans, currentAttempt, pendingRequest := *, *, *, *, *;
    }

    /** One call between its admission and its end. `request` is None for a first call; planning answers
        anything. The trace shows the order of its sections; each acts on whatever state it finds. */
    method ExecutePlan(request: Option<F.Id>, generation: nat) returns (result: Option<F.PlanResult>)
      requires crossings == []
      modifies this
      ensures Sequenced(request, generation, result, crossings)
    {
      var attempt: Option<F.Id>;
      if request.None? {
        var attemptId: F.Id := *;
        attempt := StartPlannerAttempt(attemptId, generation);
      } else {
        attempt := ConsumePlannerStep(request.value, generation);
      }
      if attempt.None? {
        return None;
      }
      Elsewhere();
      var planned: F.PlanResult := *;
      match planned {
        case Failed =>
          AbandonPlannerAttempt(attempt.value, generation);
          return None;
        case NextFetch(next) =>
          var ok := RegisterPlannerStep(attempt.value, next, generation);
          return if ok then Some(planned) else None;
        case Final =>
          var ok := CompletePlannerAttempt(attempt.value, generation);
          return if ok then Some(planned) else None;
      }
    }
  }

  /** A call enters once, and leaves by one more section with the attempt it entered with and in its own
      generation: a step is answered only after it was registered, a final proposal only after the attempt was
      completed, and an error only after it was abandoned or could do neither. */
  predicate Sequenced(request: Option<F.Id>, generation: nat, result: Option<F.PlanResult>, trace: seq<Crossing>) {
    && 1 <= |trace| <= 2
    && (if request.None? then trace[0].Started? else trace[0].Consumed? && trace[0].request == request.value)
    && trace[0].generation == generation && (trace[0].attempt.None? <==> |trace| == 1)
    && (|trace| == 1 ==> result == None)
    && (|trace| == 2 ==>
         var own := trace[0].attempt.value;
         match trace[1]
         case Registered(_, next, _, ok) =>
           trace[1] == Registered(own, next, generation, ok) && result == if ok then Some(F.NextFetch(next)) else None
         case Completed(_, _, ok) => trace[1] == Completed(own, generation, ok) && result == if ok then Some(F.Final) else None
         case Abandoned(_, _) => trace[1] == Abandoned(own, generation) && result == None
         case _ => false)
  }
}
