/** What decoding and checking a continuation mean for a whole run: they never change what a run computes, and
    they accept what the previous call handed out exactly when its lists are in normal form and it is written
    out and read again without loss. */
module MetadataResume {
  import opened Options
  import opened YamlChannels
  import opened YamlGraph
  import opened YamlTree
  import opened MetadataEdit
  import opened MetadataEnrich
  import opened CatalogValues
  import opened MetadataRun
  import opened MetadataPlanner
  import opened MetadataContinuation
  import D = MetadataDriver
  import O = MetadataOutcome
  import S = MetadataSnapshot
  import RB = MetadataReadBack
  import M = MembershipRun

  // ---------- one call, as it runs ----------

  method EmitNext(attempt: Attempt, bound: seq<Binding>, state: State, answer: Answer) returns (emission: Emission)
    ensures emission == Emit(attempt, bound, state, answer)
  {
    if !answer.holds || answer.request.None? {
      return Failed;
    }
    var longer, auth := bound, "";
    if IsCatalogKind(state.step.kind) {
      if !attempt.env.located(state.step.channel) || answer.identity.None? {
        return Failed;
      }
      var result := BindChannelAuth(bound, state.step.channel, answer.identity.value);
      if result.None? {
        return Failed;
      }
      longer, auth := result.value, answer.identity.value.index;
    }
    return if answer.fits then Next(Continuation(attempt.stamp, answer.request.value, auth, longer, state)) else Failed;
  }

  method PlanDecoded(attempt: Attempt, continuation: Option<Continuation>, answer: Answer) returns (emission: Emission)
    ensures emission == if continuation.None? then Start(attempt, answer) else Continue(attempt, continuation.value, answer)
  {
    hide Decodes, Acceptable, NextStep, ConsumeFetch, Bound;
    if continuation.None? {
      var state, step := D.FindNextStep(attempt.env, START);
      if step.None? {
        return Final([]);
      }
      if step.value.kind == Invalid {
        return Failed;
      }
      emission := EmitNext(attempt, [], state.(step := step.value), answer);
      return;
    }
    var decoded := DecodeStrict(attempt.fold, continuation.value);
    if decoded.None? {
      return Failed;
    }
    var known := decoded.value;
    var valid := ValidContinuationState(attempt, known);
    if !valid || answer.presented != known.request || !answer.ok || !answer.holds {
      return Failed;
    }
    var outcome := D.Answer(attempt.env, known.state, Reply(answer.content, answer.size, true));
    match outcome {
      case Fetch(state) =>
        emission := EmitNext(attempt, known.bound, state, answer);
      case Finished(results) =>
        emission := Final(results);
      case Error =>
        emission := Failed;
    }
  }

  // ---------- the run inside ----------

  /** The bodies taken in, one with each answer after the first. */
  function Replies(answers: seq<Answer>): (replies: seq<Reply>)
    requires answers != []
    ensures |replies| == |answers| - 1
  {
    seq(|answers| - 1, i requires 0 <= i < |answers| - 1 => Reply(answers[i + 1].content, answers[i + 1].size, true))
  }

  ghost predicate Mirrors(attempt: Attempt, emission: Emission, outcome: Outcome) {
    match emission
    case Next(continuation) => outcome == Fetch(continuation.state)
    case Final(results) => outcome == Finished(results)
    case Failed => true
  }

  lemma EmitMirrors(attempt: Attempt, bound: seq<Binding>, state: State, answer: Answer)
    ensures Emit(attempt, bound, state, answer) == Failed
      || (Emit(attempt, bound, state, answer).Next? && Emit(attempt, bound, state, answer).continuation.state == state)
  {
  }

  /** Every result of a run carries the configuration of its channel. */
  ghost predicate SpecsAre(env: Environment, results: seq<ChannelResult>) {
    forall i :: 0 <= i < |results| ==> results[i].channel < |env.channels| && results[i].spec == env.channels[results[i].channel]
  }

  lemma WaitingResults(env: Environment, log: Log, state: State)
    requires Waiting(env, log, state)
    ensures O.OneEach(env, log, state.results, state.modelparams, state.modelsdev, state.step.channel)
    ensures state.bytes <= MAX_CATALOG_BYTES && state.step.channel < |env.channels|
  {
    hide CatalogComplete, CursorsDistinct, FetchedOnce, OneShot, O.OneEach, Pages;
    O.OneShotIsOneEach(env, log, state.step.channel, state.modelparams, state.modelsdev);
  }

  lemma OneEachSpecs(env: Environment, log: Log, results: seq<ChannelResult>, mp: Option<Catalog>, md: Option<Catalog>, c: nat)
    requires O.OneEach(env, log, results, mp, md, c)
    ensures SpecsAre(env, results)
  {
    hide Patches, UpstreamOf;
    forall i | 0 <= i < |results| ensures results[i].channel < |env.channels| && results[i].spec == env.channels[results[i].channel] {
      assert O.ResultOf(env, log, results, mp, md, i, results[i].channel);
    }
  }

  lemma RunSpecs(env: Environment, replies: seq<Reply>)
    requires Run(env, replies).Fetch?
    ensures SpecsAre(env, Run(env, replies).state.results)
  {
    FetchedWaits(env, replies);
    hide Run, Waiting, LogOf, O.OneEach, SpecsAre;
    var state := Run(env, replies).state;
    WaitingResults(env, LogOf(env, replies), state);
    OneEachSpecs(env, LogOf(env, replies), state.results, state.modelparams, state.modelsdev, state.step.channel);
  }

  lemma FetchedWaits(env: Environment, replies: seq<Reply>)
    requires Run(env, replies).Fetch?
    ensures Waiting(env, LogOf(env, replies), Run(env, replies).state)
  {
    RunSound(env, replies);
    hide LogOf, Waiting;
  }

  lemma AcceptedSpecs(attempt: Attempt, continuation: Continuation)
    ensures Acceptable(attempt, continuation) ==> SpecsAre(attempt.env, continuation.state.results)
  {
    hide GoodPatches, NeedsCatalog, GoodUpstream, GoodBindings, GoodPage, GoodStep;
  }

  /** What is accepted has come through unchanged. */
  lemma TrustedIsSame(attempt: Attempt, continuation: Continuation)
    requires SpecsAre(attempt.env, continuation.state.results)
    ensures Trusted(attempt, continuation) ==> Decoded(continuation) == continuation
  {
    AcceptedSpecs(attempt, Decoded(continuation));
    hide Acceptable, Decodes, DecodedSpec;
    if Trusted(attempt, continuation) {
      var results, decoded := continuation.state.results, Decoded(continuation).state.results;
      forall i | 0 <= i < |results| ensures decoded[i] == results[i] {
        assert decoded[i].spec == attempt.env.channels[results[i].channel];
      }
      assert decoded == results;
    }
  }

  /** Checks can only stop a run: as long as it goes on it is the run that takes in the same bodies. */
  lemma {:induction false} RunIsInner(attempt: Attempt, answers: seq<Answer>)
    requires answers != []
    ensures Mirrors(attempt, RunOf(attempt, answers), Run(attempt.env, Replies(answers)))
    decreases |answers|
  {
    hide Resume, Begin, Emit, Trusted, SpecsAre;
    if |answers| == 1 {
      assert Replies(answers) == [];
      if Begin(attempt.env).Fetch? {
        EmitMirrors(attempt, [], Begin(attempt.env).state, answers[0]);
      }
    } else {
      var rest, last := answers[..|answers| - 1], answers[|answers| - 1];
      RunIsInner(attempt, rest);
      assert Replies(answers)[..|answers| - 2] == Replies(rest);
      var before := RunOf(attempt, rest);
      if before.Next? {
        RunSpecs(attempt.env, Replies(rest));
        TrustedIsSame(attempt, before.continuation);
        hide Decoded;
        var outcome := Resume(attempt.env, before.continuation.state, Reply(last.content, last.size, true));
        if outcome.Fetch? {
          EmitMirrors(attempt, before.continuation.bound, outcome.state, last);
        }
      }
    }
  }

  /** So a run with all its checks that ends is one pass over what it fetched, exactly when it fetched
      something or had nothing to do. */
  lemma CheckedRunIsOnePass(attempt: Attempt, answers: seq<Answer>)
    requires answers != [] && RunOf(attempt, answers).Final?
    ensures Complete(attempt.env, LogOf(attempt.env, Replies(answers)), RunOf(attempt, answers).results) <==>
      FetchNeeded(attempt.env) || !AnyEnabled(attempt.env)
  {
    hide RunOf, Run, Complete;
    RunIsInner(attempt, answers);
    OnePassExactly(attempt.env, Replies(answers));
  }

  // ---------- what may be relied on ----------

  ghost predicate GoodIds(entries: Entries) {
    forall id :: id in entries ==> Trimmed(id, MAX_MODEL_BYTES)
  }

  predicate GoodLast(lastId: string) {
    TrimSpace(lastId) == lastId && ByteLength(lastId) <= MAX_CURSOR_BYTES && !HasControl(lastId)
  }

  /** What parsing a body makes sure of. */
  ghost predicate GoodContent(content: Content) {
    match content
    case OpenAiCatalog(entries) => GoodIds(entries)
    case ClaudePage(entries, lastId, _) => GoodIds(entries) && GoodLast(lastId)
    case _ => true
  }

  /** What the other side and the host may be relied on. */
  ghost predicate Proper(answer: Answer) {
    && GoodContent(answer.content)
    && (answer.identity.Some? ==> Trimmed(answer.identity.value.index, M.MAX_AUTH_BYTES) && IsDigest(answer.identity.value.digest))
    && (answer.request.Some? ==> M.GoodText(answer.request.value, M.MAX_ID_BYTES))
  }

  ghost predicate GoodModels(models: seq<ModelRef>) {
    S.NamesDiffer(models) && forall k :: 0 <= k < |models| ==> Trimmed(models[k].name, MAX_MODEL_BYTES)
  }

  /** The names that are read from a snapshot. */
  ghost predicate GoodNames(env: Environment) {
    forall c: nat :: env.models(c).Some? ==> GoodModels(env.models(c).value)
  }

  /** Every snapshot reads so. */
  lemma SnapshotsHaveGoodNames(reader: Reader, integer: RB.IntegerReader, root: Tree, cfg: O.Configured)
    requires FineTree(root)
    ensures GoodNames(O.EnvironmentOf(reader, integer, root, cfg))
  {
    var env := O.EnvironmentOf(reader, integer, root, cfg);
    hide FineTree, Finds, S.Snapshot, ExactlyNamed, ExactName;
    forall c: nat | env.models(c).Some? ensures GoodModels(env.models(c).value) {
      assert env.models(c) == O.ModelsOf(reader, integer, root, cfg, c);
      O.FoundModels(reader, integer, root, cfg, c);
      S.SnapshotNames(integer, O.ModelNodes(reader, root, cfg, c), env.models(c).value);
      NamesAreGood(O.ModelNodes(reader, root, cfg, c), env.models(c).value);
    }
  }

  lemma NamesAreGood(models: seq<Tree>, refs: seq<ModelRef>)
    requires |refs| == |models| && forall k :: 0 <= k < |models| ==> ExactName(models[k]) == Some(refs[k].name)
    ensures forall k :: 0 <= k < |refs| ==> Trimmed(refs[k].name, MAX_MODEL_BYTES)
  {
  }

  // ---------- the shape of a state ----------

  /** What every state of a run has that is not a matter of its lists. */
  ghost predicate Shaped(env: Environment, state: State) {
    GoodStep(env, state.step) && GoodPage(state) && GoodIds(state.upstream)
  }

  /** A state whose step is over or not yet begun. */
  ghost predicate Between(env: Environment, state: State) {
    && state.cursors == {} && GoodIds(state.upstream)
    && (state.step.kind == ClaudeModels ==> state.step.after == "")
  }

  lemma {:induction false} ScanShaped(env: Environment, state: State, c: nat)
    requires Between(env, state)
    ensures var (next, step) := Scan(env, state, c);
      step.Some? && step.value.kind != Invalid ==> Shaped(env, next.(step := step.value))
    decreases |env.channels| - c
  {
    hide Direct, Trimmed, NeedsCatalog, TrimSpace, M.GoodText, ByteLength, HasControl;
    NothingIsShort();
    if c < |env.channels| {
      var channel := env.channels[c];
      var entering := state.step.kind == Idle || state.step.channel != c;
      var missing := MissingSource(channel.sources, state.modelparams, state.modelsdev);
      if !channel.enabled || HasResult(state.results, c) {
        ScanShaped(env, state, c + 1);
      } else if entering && (!env.located(c) || NeedsCatalog(channel)) {
      } else if missing < |channel.sources| {
      } else if env.located(c) && env.models(c).Some? {
        var result := Direct(env, c, state.upstream, state.modelparams, state.modelsdev);
        ScanShaped(env, state.(results := state.results + [result], upstream := map[], step := IDLE), c + 1);
      }
    }
  }

  lemma NothingIsShort()
    ensures ByteLength("") <= MAX_CURSOR_BYTES && !HasControl("")
  {
  }

  lemma ConsumeShaped(env: Environment, state: State, content: Content)
    requires Shaped(env, state) && GoodContent(content) && ConsumeFetch(state, content).Some?
    ensures var next := ConsumeFetch(state, content).value;
      if next.step.kind == ClaudeModels && next.step.after != "" then Shaped(env, next) else Between(env, next)
  {
    hide Trimmed, NeedsCatalog, TrimSpace, ByteLength, HasControl, GoodStep;
    if state.step.kind == ClaudeModels && content.hasMore {
      PageShaped(env, state, content);
    }
  }

  lemma PageShaped(env: Environment, state: State, content: Content)
    requires Shaped(env, state) && GoodContent(content) && ConsumeFetch(state, content).Some?
    requires state.step.kind == ClaudeModels && content.hasMore
    ensures Shaped(env, ConsumeFetch(state, content).value)
  {
    var next := ConsumeFetch(state, content).value;
    CursorIsGood(content.lastId);
    assert GoodStep(env, next.step);
    hide Trimmed, NeedsCatalog, TrimSpace, ByteLength, HasControl, GoodStep;
    assert next.cursors == state.cursors + {content.lastId};
    assert |next.cursors| == |state.cursors| + 1;
  }

  lemma CursorIsGood(lastId: string)
    requires GoodLast(lastId) && lastId != ""
    ensures Trimmed(lastId, MAX_CURSOR_BYTES)
  {
  }

  lemma AdvanceShaped(env: Environment, state: State)
    requires if state.step.kind == ClaudeModels && state.step.after != "" then Shaped(env, state) else Between(env, state)
    ensures Advance(env, state).Fetch? ==> Shaped(env, Advance(env, state).state)
  {
    hide Shaped, Between, Scan;
    if !(state.step.kind == ClaudeModels && state.step.after != "") {
      var c := if state.step.kind == Idle then 0 else state.step.channel;
      ScanShaped(env, state, c);
      var (next, step) := Scan(env, state, c);
      assert NextStep(env, state) == (next, step);
    }
  }

  lemma {:induction false} RunShaped(env: Environment, replies: seq<Reply>)
    requires forall i :: 0 <= i < |replies| ==> GoodContent(replies[i].content)
    ensures Run(env, replies).Fetch? ==> Shaped(env, Run(env, replies).state)
    decreases |replies|
  {
    hide Shaped, Between, Advance, ConsumeFetch, GoodContent;
    if replies == [] {
      StartIsBetween(env);
      AdvanceShaped(env, START);
    } else {
      RunShaped(env, replies[..|replies| - 1]);
      var before, last := Run(env, replies[..|replies| - 1]), replies[|replies| - 1];
      if before.Fetch? && ConsumeFetch(before.state.(bytes := before.state.bytes + last.size), last.content).Some? {
        var state := before.state.(bytes := before.state.bytes + last.size);
        BytesDoNotShape(env, before.state, last.size);
        ConsumeShaped(env, state, last.content);
        AdvanceShaped(env, ConsumeFetch(state, last.content).value);
      }
    }
  }

  lemma StartIsBetween(env: Environment)
    ensures Between(env, START)
  {
  }

  lemma BytesDoNotShape(env: Environment, state: State, size: nat)
    requires Shaped(env, state)
    ensures Shaped(env, state.(bytes := state.bytes + size))
  {
  }

  // ---------- planned lists ----------

  /** A list as every source but the existing configuration has it. */
  predicate Supplies(field: Field, values: seq<string>) {
    match field
    case ThinkingLevels => AreLevels(values)
    case InputModalities => AreModalities(values)
    case OutputModalities => AreModalities(values)
    case _ => true
  }

  lemma NothingSupplied(field: Field)
    ensures Supplies(field, [])
  {
  }

  lemma ReadingSupplies(reading: Reading, field: Field)
    ensures Supplies(field, Authoritatively(reading, field).strings) && Supplies(field, Secondarily(reading, field).strings)
  {
    hide AreLevels, AreModalities;
    NothingSupplied(field);
  }

  lemma OfferSupplies(sources: Sources, field: Field)
    ensures Supplies(field, Offered(sources, field).strings) && Supplies(field, Get(sources.override, field).strings)
  {
    hide AreLevels, AreModalities, InOrder;
    NothingSupplied(field);
  }

  lemma {:induction false} ReadingsSupply(state: FieldState, readings: seq<Reading>, field: Field)
    ensures AfterReadings(state, readings, field) == state || Supplies(field, AfterReadings(state, readings, field).value.strings)
    decreases |readings|
  {
    hide Supplies, Authoritatively, Secondarily;
    if readings != [] {
      ReadingsSupply(state, readings[..|readings| - 1], field);
      ReadingSupplies(readings[|readings| - 1], field);
    }
  }

  lemma ChangesAreSupplied(model: ModelRef, sources: Sources, field: Field)
    requires Resolved(model, sources, field).value != Get(model, field)
    ensures Supplies(field, Resolved(model, sources, field).value.strings)
  {
    hide Supplies, AfterReadings, Offered, Get;
    OfferSupplies(sources, field);
    ReadingsSupply(AfterUpstream(model, sources, field), sources.readings, field);
  }

  /** The planned levels, if any, are in their order. */
  predicate PatchInOrder(patch: ModelPatch) {
    ThinkingLevels in patch.fields ==> InOrder(patch.fields[ThinkingLevels].strings)
  }

  predicate PatchesInOrder(patches: seq<ModelPatch>) {
    forall k :: 0 <= k < |patches| ==> PatchInOrder(patches[k])
  }

  lemma ValueGood(field: Field, value: FieldValue)
    requires ValidValue(field, value) && Supplies(field, value.strings)
    ensures GoodValue(field, value) <==> (field == ThinkingLevels ==> InOrder(value.strings))
  {
    EffortsFixed(value.strings);
    ModalitiesFixed(value.strings);
    hide CanonicalEfforts, CanonicalModalities, AreLevels, AreModalities, InOrder, ValidValue;
  }

  lemma PatchGood(model: ModelRef, sources: Sources)
    requires Trimmed(model.name, MAX_MODEL_BYTES) && MetadataRun.PatchFor(model, sources) != map[]
    ensures GoodPatch(ModelPatch(model.name, MetadataRun.PatchFor(model, sources))) <==> PatchInOrder(ModelPatch(model.name, MetadataRun.PatchFor(model, sources)))
  {
    hide Resolved, Enriched, Get, GoodValue, Trimmed, ValidValue, Supplies, InOrder;
    var states := StatesOf(model, sources);
    forall field ensures StateOf(states, field) == Resolved(model, sources, field) {
      var n := FieldHasPlace(field);
    }
    RB.PatchIsTheDifference(model, sources, states);
    var patch := MetadataRun.PatchFor(model, sources);
    forall field | field in patch
      ensures GoodValue(field, patch[field]) <==> (field == ThinkingLevels ==> InOrder(patch[field].strings))
    {
      EnrichedReads(model, sources, field);
      ChangesAreSupplied(model, sources, field);
      ValueGood(field, patch[field]);
    }
  }

  lemma {:induction false} PatchesGood(models: seq<ModelRef>, channel: Channel, upstream: Entries, mp: Option<Catalog>, md: Option<Catalog>)
    requires forall k :: 0 <= k < |models| ==> Trimmed(models[k].name, MAX_MODEL_BYTES)
    ensures var patches := Patches(models, channel, upstream, mp, md);
      (forall k :: 0 <= k < |patches| ==> GoodPatch(patches[k])) <==> PatchesInOrder(patches)
    decreases |models|
  {
    hide MetadataRun.PatchFor, SourcesOf, Trimmed, GoodPatch, PatchInOrder;
    if models != [] {
      var rest, last := models[..|models| - 1], models[|models| - 1];
      PatchesGood(rest, channel, upstream, mp, md);
      S.PatchesNext(models, channel, upstream, mp, md);
      var before := Patches(rest, channel, upstream, mp, md);
      var sources := SourcesOf(channel, upstream, mp, md, last.name);
      var patch := MetadataRun.PatchFor(last, sources);
      hide Patches;
      if patch != map[] {
        PatchGood(last, sources);
        OneMoreGood(before, ModelPatch(last.name, patch));
      } else {
        assert before + [] == before;
      }
    } else {
      assert Patches(models, channel, upstream, mp, md) == [];
    }
  }

  lemma OneMoreGood(patches: seq<ModelPatch>, patch: ModelPatch)
    requires (forall k :: 0 <= k < |patches| ==> GoodPatch(patches[k])) <==> PatchesInOrder(patches)
    requires GoodPatch(patch) <==> PatchInOrder(patch)
    ensures (forall k :: 0 <= k < |patches + [patch]| ==> GoodPatch((patches + [patch])[k])) <==> PatchesInOrder(patches + [patch])
  {
    hide GoodPatch, PatchInOrder;
    var longer := patches + [patch];
    assert forall k :: 0 <= k < |patches| ==> longer[k] == patches[k];
    assert longer[|patches|] == patch;
  }

  lemma DirectGood(env: Environment, c: nat, upstream: Entries, mp: Option<Catalog>, md: Option<Catalog>)
    requires GoodNames(env) && c < |env.channels| && env.models(c).Some?
    ensures var patches := Direct(env, c, upstream, mp, md).patches;
      GoodPatches(patches) <==> PatchesInOrder(patches)
  {
    hide Trimmed, GoodPatch, PatchInOrder, Patches;
    var models := env.models(c).value;
    assert GoodModels(models);
    S.PatchNames(models, env.channels[c], upstream, mp, md);
    PatchesGood(models, env.channels[c], upstream, mp, md);
  }

  predicate ResultsInOrder(results: seq<ChannelResult>) {
    forall i :: 0 <= i < |results| ==> PatchesInOrder(results[i].patches)
  }

  lemma {:induction false} CountBelow(results: seq<ChannelResult>, c: nat)
    requires forall i :: 0 <= i < |results| ==> results[i].channel < c
    requires forall i, j :: 0 <= i < j < |results| ==> results[i].channel < results[j].channel
    ensures |results| <= c
    decreases |results|
  {
    if results != [] {
      var n := |results| - 1;
      CountBelow(results[..n], results[n].channel);
    }
  }

  /** No override has a list of levels that is empty. */
  predicate NoEmptyLists(spec: Channel) {
    forall name :: name in spec.overrides ==> !(spec.overrides[name].listed && spec.overrides[name].values.thinking == [])
  }

  /** A configuration comes through exactly when it has no empty list of levels. */
  lemma SpecComesThrough(spec: Channel)
    ensures DecodedSpec(spec) == spec <==> NoEmptyLists(spec)
  {
    if NoEmptyLists(spec) {
      assert DecodedSpec(spec).overrides == spec.overrides;
    } else {
      var name :| name in spec.overrides && spec.overrides[name].listed && spec.overrides[name].values.thinking == [];
      assert DecodedSpec(spec).overrides[name] != spec.overrides[name];
    }
  }

  predicate SpecsComeThrough(results: seq<ChannelResult>) {
    forall i :: 0 <= i < |results| ==> NoEmptyLists(results[i].spec)
  }

  lemma ResultsGood(env: Environment, log: Log, c: nat, bound: seq<Binding>, results: seq<ChannelResult>, mp: Option<Catalog>, md: Option<Catalog>)
    requires GoodNames(env) && c <= |env.channels| && O.OneEach(env, log, results, mp, md, c)
    requires forall k :: 0 <= k < c && env.channels[k].enabled && NeedsCatalog(env.channels[k]) ==> IsBound(bound, k)
    ensures GoodResults(env, c, bound, DecodedResults(results)) <==> ResultsInOrder(results) && SpecsComeThrough(results)
  {
    OneEachSpecs(env, log, results, mp, md, c);
    var decoded := DecodedResults(results);
    hide Direct, GoodNames, NeedsCatalog, IsBound, GoodPatches, PatchesInOrder, O.HasResultOf, NoEmptyLists, DecodedSpec;
    forall i | 0 <= i < |results|
      ensures GoodResult(env, c, bound, decoded[i]) <==> PatchesInOrder(results[i].patches) && NoEmptyLists(results[i].spec)
    {
      assert O.ResultOf(env, log, results, mp, md, i, results[i].channel);
      DirectGood(env, results[i].channel, UpstreamOf(log, results[i].channel), mp, md);
      SpecComesThrough(results[i].spec);
    }
    CountBelow(results, c);
  }

  // ---------- the bindings ----------

  /** Every channel whose catalog was fetched is bound. */
  ghost predicate Covered(log: Log, bound: seq<Binding>) {
    forall i, k: nat :: 0 <= i < |log| && IsCatalog(log[i], k) ==> IsBound(bound, k)
  }

  /** What a call leaves for the next one, besides the state of the run. */
  ghost predicate Held(attempt: Attempt, log: Log, continuation: Continuation) {
    var step, bound := continuation.state.step, continuation.bound;
    && RightStamp(attempt, continuation) && GoodAuth(step, continuation.auth)
    && GoodBindings(attempt.env, step.channel, bound) && Covered(log, bound)
    && (IsCatalogKind(step.kind) ==> IsBoundTo(bound, step.channel, continuation.auth))
  }

  lemma BoundGood(env: Environment, c: nat, bound: seq<Binding>, identity: Identity, before: nat)
    requires GoodBindings(env, before, bound) && before <= c < |env.channels| && env.channels[c].enabled && NeedsCatalog(env.channels[c])
    requires Trimmed(identity.index, M.MAX_AUTH_BYTES) && IsDigest(identity.digest) && Bound(bound, c, identity).Some?
    ensures var longer := Bound(bound, c, identity).value;
      && GoodBindings(env, c, longer) && IsBoundTo(longer, c, identity.index)
      && (forall k :: IsBound(bound, k) ==> IsBound(longer, k))
  {
    hide Trimmed, IsDigest, NeedsCatalog;
    var longer := Bound(bound, c, identity).value;
    if forall i :: 0 <= i < |bound| ==> bound[i].channel < c {
      assert longer[|bound|] == Binding(c, identity.index, identity.digest);
      forall k | IsBound(bound, k) ensures IsBound(longer, k) {
        var i :| 0 <= i < |bound| && bound[i].channel == k;
        assert longer[i].channel == k;
      }
    } else {
      assert bound[FirstFrom(bound, c)].channel == c;
    }
  }

  lemma StillGood(env: Environment, before: nat, c: nat, bound: seq<Binding>)
    requires GoodBindings(env, before, bound) && before <= c
    ensures GoodBindings(env, c, bound)
  {
    hide Trimmed, IsDigest, NeedsCatalog;
  }

  lemma EmitHolds(attempt: Attempt, log: Log, bound: seq<Binding>, before: nat, state: State, answer: Answer)
    requires M.GoodText(attempt.stamp.attempt, M.MAX_ID_BYTES) && Proper(answer) && GoodStep(attempt.env, state.step)
    requires GoodBindings(attempt.env, before, bound) && before <= state.step.channel && Covered(log, bound)
    ensures Emit(attempt, bound, state, answer).Next? ==> Held(attempt, log, Emit(attempt, bound, state, answer).continuation)
  {
    hide Trimmed, IsDigest, NeedsCatalog, Bound, GoodBindings, GoodContent, M.GoodText, IsBound, IsBoundTo;
    if Emit(attempt, bound, state, answer).Next? {
      if IsCatalogKind(state.step.kind) {
        BoundGood(attempt.env, state.step.channel, bound, answer.identity.value, before);
      } else {
        StillGood(attempt.env, before, state.step.channel, bound);
      }
    }
  }

  /** A body taken in for a bound channel leaves every fetched channel bound. */
  lemma CoverNext(attempt: Attempt, log: Log, continuation: Continuation, content: Content, size: nat)
    requires Held(attempt, log, continuation)
    requires content.OpenAiCatalog? || content.ClaudePage? ==> IsCatalogKind(continuation.state.step.kind)
    ensures Covered(log + [Taken(continuation.state.step, content, size)], continuation.bound)
  {
    hide RightStamp, GoodAuth, GoodBindings;
    var longer := log + [Taken(continuation.state.step, content, size)];
    forall i, k: nat | 0 <= i < |longer| && IsCatalog(longer[i], k) ensures IsBound(continuation.bound, k) {
      if i < |log| {
        assert longer[i] == log[i];
      } else {
        assert IsBoundTo(continuation.bound, k, continuation.auth);
      }
    }
  }

  lemma Fits(state: State, content: Content)
    requires ConsumeFetch(state, content).Some?
    ensures content.OpenAiCatalog? || content.ClaudePage? ==> IsCatalogKind(state.step.kind)
  {
  }

  lemma RepliesGood(answers: seq<Answer>)
    requires answers != [] && forall i :: 0 <= i < |answers| ==> Proper(answers[i])
    ensures forall i :: 0 <= i < |Replies(answers)| ==> GoodContent(Replies(answers)[i].content)
  {
    hide GoodContent;
    forall i | 0 <= i < |Replies(answers)| ensures GoodContent(Replies(answers)[i].content) {
      assert Proper(answers[i + 1]);
    }
  }

  lemma StartHolds(attempt: Attempt, answer: Answer)
    requires M.GoodText(attempt.stamp.attempt, M.MAX_ID_BYTES) && Proper(answer)
    ensures Start(attempt, answer).Next? ==> Held(attempt, [], Start(attempt, answer).continuation)
  {
    hide Proper, Emit, Held, Begin, GoodBindings, Covered, GoodStep, M.GoodText;
    NothingBound(attempt.env);
    if Begin(attempt.env).Fetch? {
      StepIsGood(attempt.env, []);
      EmitHolds(attempt, [], [], 0, Begin(attempt.env).state, answer);
    }
  }

  lemma {:induction false} RunHolds(attempt: Attempt, answers: seq<Answer>)
    requires answers != [] && M.GoodText(attempt.stamp.attempt, M.MAX_ID_BYTES)
    requires forall i :: 0 <= i < |answers| ==> Proper(answers[i])
    ensures RunOf(attempt, answers).Next? ==> Held(attempt, LogOf(attempt.env, Replies(answers)), RunOf(attempt, answers).continuation)
    decreases |answers|
  {
    var last := answers[|answers| - 1];
    hide Proper, Start, Continue, Held, M.GoodText, LogOf, Run;
    if |answers| == 1 {
      StartHolds(attempt, last);
      assert Replies(answers) == [];
      NothingLogged(attempt.env);
    } else {
      var rest := answers[..|answers| - 1];
      RunHolds(attempt, rest);
      RunIsInner(attempt, rest);
      RepliesGood(answers);
      assert Replies(answers)[..|answers| - 2] == Replies(rest);
      if RunOf(attempt, rest).Next? {
        NextHolds(attempt, Replies(answers), RunOf(attempt, rest).continuation, last);
      }
    }
  }

  lemma NothingLogged(env: Environment)
    ensures LogOf(env, []) == []
  {
  }

  lemma {:induction false} NextHolds(attempt: Attempt, replies: seq<Reply>, known: Continuation, answer: Answer)
    requires replies != [] && replies[|replies| - 1] == Reply(answer.content, answer.size, true)
    requires forall i :: 0 <= i < |replies| ==> GoodContent(replies[i].content)
    requires M.GoodText(attempt.stamp.attempt, M.MAX_ID_BYTES) && Proper(answer)
    requires Run(attempt.env, replies[..|replies| - 1]) == Fetch(known.state)
    requires Held(attempt, LogOf(attempt.env, replies[..|replies| - 1]), known)
    ensures Continue(attempt, known, answer).Next? ==>
      Held(attempt, LogOf(attempt.env, replies), Continue(attempt, known, answer).continuation)
  {
    RunSpecs(attempt.env, replies[..|replies| - 1]);
    TrustedIsSame(attempt, known);
    hide Proper, Held, M.GoodText, LogOf, Run, Resume, Emit, GoodContent, Trusted, SpecsAre, Decoded;
    if Continue(attempt, known, answer).Next? {
      ContinueHolds(attempt, replies, known, answer);
    }
  }

  /** The binding side of one more body. */
  lemma {:induction false} ContinueHolds(attempt: Attempt, replies: seq<Reply>, known: Continuation, answer: Answer)
    requires replies != [] && replies[|replies| - 1] == Reply(answer.content, answer.size, true)
    requires forall i :: 0 <= i < |replies| ==> GoodContent(replies[i].content)
    requires M.GoodText(attempt.stamp.attempt, M.MAX_ID_BYTES) && Proper(answer)
    requires Run(attempt.env, replies[..|replies| - 1]) == Fetch(known.state)
    requires Held(attempt, LogOf(attempt.env, replies[..|replies| - 1]), known)
    requires Resume(attempt.env, known.state, replies[|replies| - 1]).Fetch?
    ensures var emission := Emit(attempt, known.bound, Resume(attempt.env, known.state, replies[|replies| - 1]).state, answer);
      emission.Next? ==> Held(attempt, LogOf(attempt.env, replies), emission.continuation)
  {
    var env, state := attempt.env, known.state;
    var log := LogOf(env, replies[..|replies| - 1]);
    var next := Resume(env, state, replies[|replies| - 1]).state;
    assert Run(env, replies) == Fetch(next);
    assert LogOf(env, replies) == log + [Taken(state.step, answer.content, answer.size)];
    StepIsGood(env, replies);
    LaterChannel(env, replies, log, Taken(state.step, answer.content, answer.size));
    Fits(state.(bytes := state.bytes + answer.size), answer.content);
    CoverNext(attempt, log, known, answer.content, answer.size);
    assert GoodBindings(env, state.step.channel, known.bound);
    hide Proper, Emit, Held, GoodBindings, Covered, GoodStep, Run, LogOf, Resume, M.GoodText;
    EmitHolds(attempt, LogOf(env, replies), known.bound, state.step.channel, next, answer);
  }

  lemma LaterChannel(env: Environment, replies: seq<Reply>, log: Log, taken: Taken)
    requires replies != [] && Run(env, replies).Fetch? && LogOf(env, replies) == log + [taken]
    ensures taken.step.channel <= Run(env, replies).state.step.channel
  {
    RunSound(env, replies);
    hide Run, LogOf, DoneBelow, LogSound, UpstreamOf, ModelparamsOf, ModelsdevOf, Bytes;
    assert (log + [taken])[|log|] == taken;
  }

  lemma NothingBound(env: Environment)
    ensures GoodBindings(env, 0, []) && Covered([], [])
  {
  }

  lemma StepIsGood(env: Environment, replies: seq<Reply>)
    requires Run(env, replies).Fetch? && forall i :: 0 <= i < |replies| ==> GoodContent(replies[i].content)
    ensures GoodStep(env, Run(env, replies).state.step)
  {
    RunShaped(env, replies);
  }

  // ---------- what the next call accepts ----------

  /** Every list in the state is one that normalising leaves alone. */
  ghost predicate Canonical(state: State) {
    && (forall id :: id in state.upstream ==> CanonicalEntry(state.upstream[id]))
    && ResultsInOrder(state.results)
  }

  /** The state is written out and read again without loss: no two names of one object agree when folded, no
      copied configuration has an empty list of levels, and no public catalog is nested too deeply. */
  ghost predicate ComesThrough(fold: Fold, state: State) {
    && Decodes(fold, state) && SpecsComeThrough(state.results)
    && ReadAgain(state.modelparams) && ReadAgain(state.modelsdev)
  }

  lemma UpstreamGood(entries: Entries)
    requires GoodIds(entries)
    ensures GoodUpstream(entries) <==> forall id :: id in entries ==> CanonicalEntry(entries[id])
  {
    hide Trimmed, CanonicalEntry, CanonicalEfforts, AreLevels, InOrder;
    forall id | id in entries ensures CanonicalEfforts(entries[id].efforts) == entries[id].efforts {
      EffortsFixed(entries[id].efforts);
    }
  }

  lemma CompleteIsBound(log: Log, bound: seq<Binding>, c: nat)
    requires CatalogComplete(log, c) && Covered(log, bound)
    ensures IsBound(bound, c)
  {
    var i :| 0 <= i < |log| && IsCatalog(log[i], c) && !IsMore(log[i]);
  }

  lemma WaitingBound(env: Environment, log: Log, state: State, bound: seq<Binding>)
    requires Waiting(env, log, state) && Covered(log, bound)
    ensures forall k :: 0 <= k < state.step.channel && env.channels[k].enabled && NeedsCatalog(env.channels[k]) ==> IsBound(bound, k)
    ensures !IsCatalogKind(state.step.kind) && NeedsCatalog(env.channels[state.step.channel]) ==> IsBound(bound, state.step.channel)
  {
    hide LogSound, OneShot, Agrees, CatalogComplete, Covered, IsBound, NeedsCatalog, Uses;
    forall k: nat | CatalogComplete(log, k) ensures IsBound(bound, k) {
      CompleteIsBound(log, bound, k);
    }
  }

  /** The check, given what the run itself makes sure of. */
  lemma AcceptableExactly(attempt: Attempt, log: Log, continuation: Continuation)
    requires Held(attempt, log, continuation) && Waiting(attempt.env, log, continuation.state)
    requires Shaped(attempt.env, continuation.state) && GoodNames(attempt.env)
    ensures var state := continuation.state;
      Acceptable(attempt, Decoded(continuation)) <==>
        Canonical(state) && SpecsComeThrough(state.results) && ReadAgain(state.modelparams) && ReadAgain(state.modelsdev)
  {
    var env, state, bound := attempt.env, continuation.state, continuation.bound;
    WaitingBound(env, log, state, bound);
    WaitingResults(env, log, state);
    UpstreamGood(state.upstream);
    ResultsGood(env, log, state.step.channel, bound, state.results, state.modelparams, state.modelsdev);
    BoundToIsBound(bound, state.step.channel, continuation.auth);
    hide Waiting, GoodNames, GoodStep, GoodAuth, GoodUpstream, GoodIds, GoodBindings, GoodResults, ReadAgain;
    hide ResultsInOrder, Covered, IsBound, IsBoundTo, O.OneEach, NeedsCatalog, CanonicalEntry, SpecsComeThrough, DecodedResults;
  }

  lemma BoundToIsBound(bound: seq<Binding>, c: nat, auth: string)
    ensures IsBoundTo(bound, c, auth) ==> IsBound(bound, c)
  {
  }

  /** What a run hands out, the next call of the attempt accepts exactly when every held upstream entry has
      its modalities in normal form, every planned list of levels is in order, and all of it is written out
      and read again without loss. Everything else a call asks for, every continuation has. */
  lemma NextCallAccepts(attempt: Attempt, answers: seq<Answer>)
    requires answers != [] && M.GoodText(attempt.stamp.attempt, M.MAX_ID_BYTES) && GoodNames(attempt.env)
    requires forall i :: 0 <= i < |answers| ==> Proper(answers[i])
    requires RunOf(attempt, answers).Next?
    ensures var continuation := RunOf(attempt, answers).continuation;
      Trusted(attempt, continuation) <==> Canonical(continuation.state) && ComesThrough(attempt.fold, continuation.state)
  {
    var replies := Replies(answers);
    RepliesGood(answers);
    hide Proper, RunOf, Run, LogOf, GoodContent, Held, Waiting, Shaped, GoodNames, Acceptable, Canonical, M.GoodText, Decodes, Decoded;
    RunIsInner(attempt, answers);
    RunHolds(attempt, answers);
    RunShaped(attempt.env, replies);
    FetchedWaits(attempt.env, replies);
    AcceptableExactly(attempt, LogOf(attempt.env, replies), RunOf(attempt, answers).continuation);
  }

  /** So a run that hands out anything else has failed, whatever is answered. */
  lemma OtherwiseFails(attempt: Attempt, answers: seq<Answer>, answer: Answer)
    requires answers != [] && M.GoodText(attempt.stamp.attempt, M.MAX_ID_BYTES) && GoodNames(attempt.env)
    requires forall i :: 0 <= i < |answers| ==> Proper(answers[i])
    requires RunOf(attempt, answers).Next?
    requires var state := RunOf(attempt, answers).continuation.state;
      !Canonical(state) || !ComesThrough(attempt.fold, state)
    ensures RunOf(attempt, answers + [answer]) == Failed
  {
    NextCallAccepts(attempt, answers);
    assert (answers + [answer])[..|answers|] == answers;
    hide Trusted, Canonical, ComesThrough;
  }
}
