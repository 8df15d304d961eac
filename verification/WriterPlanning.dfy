/** How the Writer talks a planner through its fetches: it repeats the planner's call with each fetched
    body until a proposal comes back, and refuses a planner that asks twice for the same thing, asks for
    more than a hundred fetches, or has more than eight mebibytes fetched. */
module WriterPlanning {
  import opened Options
  import opened WriterTypes
  import E = WriterEngine

  const MAX_PAGES: nat := 100
  const MAX_PAYLOAD_BYTES: nat := 8 * 1024 * 1024

  /** `target` is the descriptor without its request identifier and continuation; `cursor` is the selector
      and cursor of a Claude page. `valid` is the verdict on method, identifiers, URL and headers. */
  datatype Descriptor = Descriptor(requestId: string, continuation: string, target: string, cursor: Option<string>, valid: bool)

  /** `payload` is None when the configuration is not valid base64 or decodes to nothing. */
  datatype Envelope = Envelope(base: Digest, hasConfig: bool, payload: Option<Bytes>, nextFetch: Option<Descriptor>)

  datatype PlannerAnswer = Answered(envelope: Envelope) | Refused(code: ErrorCode)

  /** `body` is None when the relayed body does not decode. */
  datatype Fetched = Body(body: Option<Bytes>) | Lost(code: ErrorCode)

  datatype Request = First | Resume(continuation: string, requestId: string, body: Bytes)

  /** One question to the planner and what it answered. */
  datatype Call = Call(request: Request, answer: PlannerAnswer)

  datatype Fetch = Fetch(descriptor: Descriptor, result: Fetched)

  /** The codes a relayed fetch can end with. */
  predicate RelayCode(code: ErrorCode) {
    code in {ProviderFetchInvalid, ProviderFetchFailed, LoopbackTimeout, ProviderCatalogTooLarge}
  }

  /** The other side: any planner and any provider, with a record of what was said. */
  class Exchange {
    ghost var calls: seq<Call>
    ghost var fetches: seq<Fetch>

    constructor ()
      ensures calls == [] && fetches == []
    {
      calls, fetches := [], [];
    }

    method AskPlanner(request: Request) returns (answer: PlannerAnswer)
      modifies this
      ensures calls == old(calls) + [Call(request, answer)] && fetches == old(fetches)
      ensures answer.Refused? ==> E.PlannerCode(answer.code)
    {
      answer := *;
      if answer.Refused? && !E.PlannerCode(answer.code) {
        answer := Refused(CoreUnavailable);
      }
      calls := calls + [Call(request, answer)];
    }

    method Relay(descriptor: Descriptor) returns (result: Fetched)
      modifies this
      ensures fetches == old(fetches) + [Fetch(descriptor, result)] && calls == old(calls)
      ensures result.Lost? ==> RelayCode(result.code)
    {
      result := *;
      if result.Lost? && !RelayCode(result.code) {
        result := Lost(ProviderFetchFailed);
      }
      fetches := fetches + [Fetch(descriptor, result)];
    }
  }

  // ---------- what a planning conversation looks like ----------

  ghost predicate Delivered(fetch: Fetch) {
    fetch.result.Body? && fetch.result.body.Some?
  }

  ghost function Total(fetches: seq<Fetch>): nat {
    if fetches == [] then 0
    else Total(fetches[..|fetches| - 1]) + if Delivered(fetches[|fetches| - 1]) then |fetches[|fetches| - 1].result.body.value| else 0
  }

  /** The descriptor repeats nothing that was asked before. */
  ghost predicate Novel(fetches: seq<Fetch>, descriptor: Descriptor) {
    forall k :: 0 <= k < |fetches| ==>
      && fetches[k].descriptor.requestId != descriptor.requestId
      && fetches[k].descriptor.continuation != descriptor.continuation
      && fetches[k].descriptor.target != descriptor.target
      && (descriptor.cursor.Some? ==> fetches[k].descriptor.cursor != descriptor.cursor)
  }

  ghost predicate AllNovel(fetches: seq<Fetch>) {
    forall k :: 0 <= k < |fetches| ==> Novel(fetches[..k], fetches[k].descriptor)
  }

  /** The next question hands back the continuation and the body of the last fetch. */
  ghost predicate Asks(request: Request, fetches: seq<Fetch>) {
    if fetches == [] then request == First
    else
      var last := fetches[|fetches| - 1];
      Delivered(last) && request == Resume(last.descriptor.continuation, last.descriptor.requestId, last.result.body.value)
  }

  /** The planner asked for this fetch and for nothing else, and it was allowed to. */
  ghost predicate Wants(call: Call, version: Digest, descriptor: Descriptor) {
    && call.answer.Answered? && call.answer.envelope.nextFetch == Some(descriptor)
    && !call.answer.envelope.hasConfig && call.answer.envelope.base == version && descriptor.valid
  }

  /** Questions and fetches alternate, each fetch is the one asked for, and every question is asked within the bounds. */
  ghost predicate Dialogue(version: Digest, calls: seq<Call>, fetches: seq<Fetch>) {
    && |fetches| <= |calls| <= |fetches| + 1 && |fetches| <= MAX_PAGES && AllNovel(fetches)
    && (forall k :: 0 <= k < |calls| ==> Asks(calls[k].request, fetches[..k]) && Total(fetches[..k]) <= MAX_PAYLOAD_BYTES)
    && (forall k :: 0 <= k < |fetches| ==> Wants(calls[k], version, fetches[k].descriptor))
  }

  /** The planner's last answer is a proposal for the snapshot. */
  ghost predicate Proposes(envelope: Envelope, version: Digest) {
    envelope.nextFetch.None? && envelope.base == version && envelope.hasConfig && envelope.payload.Some?
  }

  /** A further fetch that must be refused. */
  ghost predicate Excessive(envelope: Envelope, version: Digest, fetches: seq<Fetch>) {
    && envelope.nextFetch.Some?
    && (envelope.hasConfig || envelope.base != version || |fetches| >= MAX_PAGES
        || !envelope.nextFetch.value.valid || !Novel(fetches, envelope.nextFetch.value))
  }

  /** How a conversation that ended with an answer of the planner turns out. */
  ghost predicate ConcludesCall(answer: PlannerAnswer, version: Digest, fetches: seq<Fetch>, reply: E.Reply) {
    match answer
    case Refused(code) => reply == E.PlanFailed(version, code)
    case Answered(envelope) =>
      if Proposes(envelope, version) then reply == E.Planned(version, E.Proposal(version, envelope.payload))
      else if envelope.nextFetch.None? then reply == E.PlanFailed(version, InvalidRequest)
      else Excessive(envelope, version, fetches) && reply == E.PlanFailed(version, ProviderFetchInvalid)
  }

  /** How a conversation that ended with a fetch turns out: only a failure, and which one. */
  ghost predicate ConcludesFetch(version: Digest, fetches: seq<Fetch>, reply: E.Reply)
    requires fetches != []
  {
    var last := fetches[|fetches| - 1].result;
    match last
    case Lost(code) => reply == E.PlanFailed(version, code)
    case Body(body) =>
      if body.None? then reply == E.PlanFailed(version, ProviderFetchFailed)
      else Total(fetches) > MAX_PAYLOAD_BYTES && reply == E.PlanFailed(version, ProviderCatalogTooLarge)
  }

  ghost predicate Concludes(version: Digest, calls: seq<Call>, fetches: seq<Fetch>, reply: E.Reply) {
    if |calls| > |fetches| then ConcludesCall(calls[|calls| - 1].answer, version, fetches, reply)
    else fetches != [] && ConcludesFetch(version, fetches, reply)
  }

  // ---------- the loop ----------

  method Plan(talk: Exchange, operation: Operation, version: Digest) returns (reply: E.Reply)
    requires talk.calls == [] && talk.fetches == []
    modifies talk
    ensures !IsConfigWrite(operation) ==> talk.calls == [] && talk.fetches == [] && reply == E.PlanFailed(version, InvalidRequest)
    ensures IsConfigWrite(operation) ==>
      Dialogue(version, talk.calls, talk.fetches) && Concludes(version, talk.calls, talk.fetches, reply)
    ensures (reply.Planned? || (reply.PlanFailed? && E.PlannerCode(reply.code))) && reply.asked == version
  {
    hide Total, Novel, E.PlannerCode, RelayCode, Dialogue, Asks, Seen;
    if !IsConfigWrite(operation) {
      Codes(InvalidRequest);
      return E.PlanFailed(version, InvalidRequest);
    }
    var request := First;
    var seenContinuations: set<string>, seenTargets: set<string>, seenRequests: set<string>, seenCursors: set<string> := {}, {}, {}, {};
    var providerBytes, page := 0, 0;
    NothingSaid(version);
    while true
      invariant |talk.calls| == |talk.fetches| == page <= MAX_PAGES
      invariant Dialogue(version, talk.calls, talk.fetches) && Asks(request, talk.fetches)
      invariant providerBytes == Total(talk.fetches) <= MAX_PAYLOAD_BYTES
      invariant Seen(talk.fetches, seenRequests, seenContinuations, seenTargets, seenCursors)
      decreases MAX_PAGES - page
    {
      ghost var fetches := talk.fetches;
      var answer := talk.AskPlanner(request);
      AskedOnce(version, talk.calls, fetches);
      if answer.Refused? {
        return E.PlanFailed(version, answer.code);
      }
      var envelope := answer.envelope;
      Codes(InvalidRequest);
      if envelope.nextFetch.None? {
        if envelope.base != version || !envelope.hasConfig || envelope.payload.None? {
          return E.PlanFailed(version, InvalidRequest);
        }
        return E.Planned(version, E.Proposal(envelope.base, envelope.payload));
      }
      var descriptor := envelope.nextFetch.value;
      SeenMeansNovel(fetches, seenRequests, seenContinuations, seenTargets, seenCursors, descriptor);
      if envelope.hasConfig || envelope.base != version || page >= MAX_PAGES || !descriptor.valid {
        return E.PlanFailed(version, ProviderFetchInvalid);
      }
      if descriptor.requestId in seenRequests || descriptor.continuation in seenContinuations || descriptor.target in seenTargets
         || (descriptor.cursor.Some? && descriptor.cursor.value in seenCursors) {
        return E.PlanFailed(version, ProviderFetchInvalid);
      }
      seenRequests, seenContinuations := seenRequests + {descriptor.requestId}, seenContinuations + {descriptor.continuation};
      seenTargets := seenTargets + {descriptor.target};
      if descriptor.cursor.Some? {
        seenCursors := seenCursors + {descriptor.cursor.value};
      }
      var result := talk.Relay(descriptor);
      FetchedOnce(version, talk.calls, fetches, Fetch(descriptor, result));
      SeenNext(fetches, descriptor, result);
      TotalNext(fetches, Fetch(descriptor, result));
      if result.Lost? {
        return E.PlanFailed(version, result.code);
      }
      if result.body.None? {
        return E.PlanFailed(version, ProviderFetchFailed);
      }
      if |result.body.value| > MAX_PAYLOAD_BYTES - providerBytes {
        return E.PlanFailed(version, ProviderCatalogTooLarge);
      }
      providerBytes := providerBytes + |result.body.value|;
      AsksNext(fetches, Fetch(descriptor, result));
      request := Resume(descriptor.continuation, descriptor.requestId, result.body.value);
      page := page + 1;
    }
  }

  lemma Codes(code: ErrorCode)
    requires code == InvalidRequest
    ensures E.PlannerCode(code) && E.PlannerCode(ProviderFetchInvalid) && E.PlannerCode(ProviderFetchFailed)
    ensures E.PlannerCode(ProviderCatalogTooLarge)
    ensures forall relayed :: RelayCode(relayed) ==> E.PlannerCode(relayed)
  {
  }

  lemma NothingSaid(version: Digest)
    ensures Total([]) == 0 && Dialogue(version, [], []) && Asks(First, []) && Seen([], {}, {}, {}, {})
  {
  }

  lemma SeenNext(fetches: seq<Fetch>, descriptor: Descriptor, result: Fetched)
    ensures forall requests, continuations, targets, cursors :: Seen(fetches, requests, continuations, targets, cursors) ==>
      Seen(fetches + [Fetch(descriptor, result)], requests + {descriptor.requestId}, continuations + {descriptor.continuation},
        targets + {descriptor.target}, if descriptor.cursor.Some? then cursors + {descriptor.cursor.value} else cursors)
  {
    var next := fetches + [Fetch(descriptor, result)];
    forall requests, continuations, targets, cursors | Seen(fetches, requests, continuations, targets, cursors)
      ensures Seen(next, requests + {descriptor.requestId}, continuations + {descriptor.continuation},
        targets + {descriptor.target}, if descriptor.cursor.Some? then cursors + {descriptor.cursor.value} else cursors)
    {
      assert next[|fetches|].descriptor == descriptor;
      assert forall k :: 0 <= k < |fetches| ==> next[k] == fetches[k];
    }
  }

  lemma TotalNext(fetches: seq<Fetch>, next: Fetch)
    ensures Total(fetches + [next]) == Total(fetches) + if Delivered(next) then |next.result.body.value| else 0
  {
    assert (fetches + [next])[..|fetches|] == fetches;
  }

  /** The four sets hold what the fetches so far asked for. */
  ghost predicate Seen(fetches: seq<Fetch>, requests: set<string>, continuations: set<string>, targets: set<string>, cursors: set<string>) {
    && requests == (set k | 0 <= k < |fetches| :: fetches[k].descriptor.requestId)
    && continuations == (set k | 0 <= k < |fetches| :: fetches[k].descriptor.continuation)
    && targets == (set k | 0 <= k < |fetches| :: fetches[k].descriptor.target)
    && cursors == (set k | 0 <= k < |fetches| && fetches[k].descriptor.cursor.Some? :: fetches[k].descriptor.cursor.value)
  }

  lemma SeenMeansNovel(fetches: seq<Fetch>, requests: set<string>, continuations: set<string>, targets: set<string>, cursors: set<string>,
      descriptor: Descriptor)
    requires Seen(fetches, requests, continuations, targets, cursors)
    ensures Novel(fetches, descriptor) <==>
      && descriptor.requestId !in requests && descriptor.continuation !in continuations && descriptor.target !in targets
      && (descriptor.cursor.Some? ==> descriptor.cursor.value !in cursors)
  {
  }

  lemma AsksNext(fetches: seq<Fetch>, next: Fetch)
    requires Delivered(next)
    ensures Asks(Resume(next.descriptor.continuation, next.descriptor.requestId, next.result.body.value), fetches + [next])
  {
  }

  /** Asking once more keeps the dialogue in order. */
  lemma AskedOnce(version: Digest, calls: seq<Call>, fetches: seq<Fetch>)
    requires |calls| == |fetches| + 1 && Dialogue(version, calls[..|fetches|], fetches) && Asks(calls[|fetches|].request, fetches)
    requires Total(fetches) <= MAX_PAYLOAD_BYTES
    ensures Dialogue(version, calls, fetches)
  {
    hide Asks, Novel, Total;
    assert fetches[..|fetches|] == fetches;
    var before := calls[..|fetches|];
    forall k | 0 <= k < |calls| ensures Asks(calls[k].request, fetches[..k]) && Total(fetches[..k]) <= MAX_PAYLOAD_BYTES {
      if k < |fetches| { assert before[k] == calls[k]; }
    }
    forall k | 0 <= k < |fetches| ensures Wants(calls[k], version, fetches[k].descriptor) {
      assert before[k] == calls[k];
    }
  }

  /** So does the fetch that was asked for. */
  lemma FetchedOnce(version: Digest, calls: seq<Call>, fetches: seq<Fetch>, next: Fetch)
    requires |calls| == |fetches| + 1 && Dialogue(version, calls, fetches) && |fetches| < MAX_PAGES
    requires Wants(calls[|fetches|], version, next.descriptor) && Novel(fetches, next.descriptor)
    ensures Dialogue(version, calls, fetches + [next])
  {
    hide Asks, Novel, Total;
    var longer := fetches + [next];
    assert longer[..|fetches|] == fetches;
    assert forall k :: 0 <= k <= |fetches| ==> longer[..k] == fetches[..k];
    forall k | 0 <= k < |longer| ensures Novel(longer[..k], longer[k].descriptor) {
      assert longer[..k] == fetches[..k];
    }
    forall k | 0 <= k < |calls| ensures Asks(calls[k].request, longer[..k]) && Total(longer[..k]) <= MAX_PAYLOAD_BYTES {
      assert longer[..k] == fetches[..k];
    }
  }

  // ---------- what every conversation keeps ----------

  /** No two fetches of a conversation share an identifier, a continuation, a target or a Claude cursor. */
  lemma NeverTwice(version: Digest, calls: seq<Call>, fetches: seq<Fetch>, j: nat, k: nat)
    requires Dialogue(version, calls, fetches) && j < k < |fetches|
    ensures var one, two := fetches[j].descriptor, fetches[k].descriptor;
      && one.requestId != two.requestId && one.continuation != two.continuation && one.target != two.target
      && (one.cursor.Some? ==> one.cursor != two.cursor)
  {
    assert fetches[..k][j] == fetches[j];
  }

  /** A proposal only comes out of a conversation within all bounds: at most a hundred fetches, all of them
      delivered and handed back, at most eight mebibytes in all, and a last answer that names the snapshot. */
  lemma ProposalWithinBounds(version: Digest, calls: seq<Call>, fetches: seq<Fetch>, reply: E.Reply)
    requires Dialogue(version, calls, fetches) && Concludes(version, calls, fetches, reply) && reply.Planned?
    ensures |fetches| <= MAX_PAGES && |calls| == |fetches| + 1 && Total(fetches) <= MAX_PAYLOAD_BYTES
    ensures forall k :: 0 <= k < |fetches| ==> Delivered(fetches[k])
    ensures calls[|fetches|].answer.Answered? && Proposes(calls[|fetches|].answer.envelope, version)
    ensures reply.proposal == E.Proposal(version, calls[|fetches|].answer.envelope.payload)
  {
    hide Total;
    assert fetches[..|fetches|] == fetches;
    forall k | 0 <= k < |fetches| ensures Delivered(fetches[k]) {
      assert Asks(calls[k + 1].request, fetches[..k + 1]);
    }
  }

  predicate HandsBack(request: Request, fetch: Fetch) {
    fetch.result.Body? && fetch.result.body.Some? && request == Resume(fetch.descriptor.continuation, fetch.descriptor.requestId, fetch.result.body.value)
  }

  /** The first question carries nothing, every other the body that was fetched for it, with the continuation and the
      identifier of that fetch. */
  lemma QuestionsExactly(version: Digest, calls: seq<Call>, fetches: seq<Fetch>, k: nat)
    requires Dialogue(version, calls, fetches) && k < |calls|
    ensures k == 0 ==> calls[k].request == First
    ensures k > 0 ==> HandsBack(calls[k].request, fetches[k - 1])
    ensures k < |fetches| ==> calls[k].answer.Answered? && calls[k].answer.envelope.nextFetch == Some(fetches[k].descriptor)
  {
    hide Total, Novel;
    assert Asks(calls[k].request, fetches[..k]);
  }

  /** One of the earlier fetches had the same identifier, continuation, target or Claude cursor. */
  predicate Repeats(fetches: seq<Fetch>, descriptor: Descriptor, k: int) {
    && 0 <= k < |fetches|
    && (fetches[k].descriptor.requestId == descriptor.requestId || fetches[k].descriptor.continuation == descriptor.continuation
        || fetches[k].descriptor.target == descriptor.target
        || (descriptor.cursor.Some? && fetches[k].descriptor.cursor == descriptor.cursor))
  }

  ghost predicate RefusedFetch(version: Digest, envelope: Envelope, fetches: seq<Fetch>, descriptor: Descriptor) {
    envelope.hasConfig || envelope.base != version || |fetches| >= 100 || !descriptor.valid || exists k :: Repeats(fetches, descriptor, k)
  }

  /** An answer without a fetch ends the conversation, with its proposal if it is one for the snapshot; an answer with
      a fetch ends it only if the fetch must be refused: the hundred and first, one that is not valid or repeats an
      earlier one, or one beside a configuration or for another snapshot. */
  lemma AnswersExactly(version: Digest, calls: seq<Call>, fetches: seq<Fetch>, reply: E.Reply)
    requires Dialogue(version, calls, fetches) && Concludes(version, calls, fetches, reply) && |calls| > |fetches|
    requires calls[|calls| - 1].answer.Answered?
    ensures var envelope := calls[|calls| - 1].answer.envelope;
      if envelope.nextFetch.Some? then
        RefusedFetch(version, envelope, fetches, envelope.nextFetch.value) && reply == E.PlanFailed(version, ProviderFetchInvalid)
      else if envelope.base == version && envelope.hasConfig && envelope.payload.Some? then
        reply == E.Planned(version, E.Proposal(version, envelope.payload))
      else reply == E.PlanFailed(version, InvalidRequest)
  {
    hide Total, Dialogue;
    var envelope := calls[|calls| - 1].answer.envelope;
    if envelope.nextFetch.Some? {
      NovelExactly(fetches, envelope.nextFetch.value);
    }
  }

  lemma NovelExactly(fetches: seq<Fetch>, descriptor: Descriptor)
    ensures Novel(fetches, descriptor) <==> forall k :: !Repeats(fetches, descriptor, k)
  {
    if forall k :: !Repeats(fetches, descriptor, k) {
      forall k | 0 <= k < |fetches|
        ensures fetches[k].descriptor.requestId != descriptor.requestId && fetches[k].descriptor.continuation != descriptor.continuation
        ensures fetches[k].descriptor.target != descriptor.target
        ensures descriptor.cursor.Some? ==> fetches[k].descriptor.cursor != descriptor.cursor
      {
        assert !Repeats(fetches, descriptor, k);
      }
    }
  }

  /** A fetch ends the conversation only without a body, or when all bodies together have more than 8388608 bytes. */
  lemma FetchesExactly(version: Digest, calls: seq<Call>, fetches: seq<Fetch>, reply: E.Reply)
    requires Dialogue(version, calls, fetches) && Concludes(version, calls, fetches, reply) && |calls| == |fetches|
    ensures fetches != [] && |fetches| <= 100
    ensures var last := fetches[|fetches| - 1].result;
      if last.Lost? then reply == E.PlanFailed(version, last.code)
      else if last.body.None? then reply == E.PlanFailed(version, ProviderFetchFailed)
      else Total(fetches) > 8388608 && reply == E.PlanFailed(version, ProviderCatalogTooLarge)
    ensures forall k :: 0 <= k < |fetches| ==> Total(fetches[..k]) <= 8388608
  {
    hide Total, Novel;
  }
}
