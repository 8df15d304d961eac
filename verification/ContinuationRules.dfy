/** Which continuations a metadata call trusts, with the numbers and the texts. */
module ContinuationRules {
  import opened Options
  import opened YamlTree
  import opened CatalogValues
  import opened MetadataEdit
  import opened MetadataEnrich
  import opened MetadataPlanner
  import opened MetadataRun
  import opened MetadataContinuation
  import T = MetadataTrace
  import MT = MembershipTrace
  import M = MembershipRun
  import TextRules
  import MetadataResume

  predicate TrimmedText(text: string, bytes: nat) {
    MT.PlainText(text, bytes) && TextRules.NoSpaceAround(text)
  }

  predicate OfThisAttempt(attempt: Attempt, continuation: Continuation) {
    var one, two := continuation.stamp, attempt.stamp;
    && one.version == two.version && one.snapshot == two.snapshot && one.config == two.config
    && one.generation == two.generation && one.attempt == two.attempt
    && MT.PlainText(one.attempt, 128) && MT.PlainText(continuation.request, 128)
  }

  predicate ForCatalog(step: Step) {
    step.kind == OpenAiModels || step.kind == ClaudeModels
  }

  predicate HasCatalog(channel: Channel) {
    channel.upstreamMeta || exists i :: 0 <= i < |channel.sources| && channel.sources[i].ModelsdevSource?
  }

  predicate PlainList(list: Option<seq<string>>) {
    list == None || list == Some(["text"]) || list == Some(["image"]) || list == Some(["text", "image"])
  }

  ghost predicate EntriesServe(entries: Entries) {
    forall id :: id in entries ==> TrimmedText(id, 1024) && PlainList(entries[id].inputs) && PlainList(entries[id].outputs)
  }

  ghost predicate PagesServe(state: State) {
    var step := state.step;
    if step.kind == ClaudeModels then
      && step.page < 100 && |state.cursors| == step.page && (step.page == 0 ==> step.after == "")
      && (step.page > 0 ==> step.after in state.cursors)
      && (forall cursor :: cursor in state.cursors ==> TrimmedText(cursor, 256))
    else step.page == 0 && step.after == "" && state.cursors == {}
  }

  predicate Hexadecimal(text: string) {
    |text| == 64 && forall i :: 0 <= i < |text| ==> '0' <= text[i] <= '9' || 'a' <= text[i] <= 'f'
  }

  ghost predicate BindingsServe(env: Environment, c: nat, bound: seq<Binding>) {
    && (forall i, j :: 0 <= i < j < |bound| ==> bound[i].channel < bound[j].channel)
    && (forall i :: 0 <= i < |bound| ==>
         && bound[i].channel <= c && bound[i].channel < |env.channels| && env.channels[bound[i].channel].enabled
         && HasCatalog(env.channels[bound[i].channel]) && TrimmedText(bound[i].auth, 512) && Hexadecimal(bound[i].digest))
  }

  predicate HasBinding(bound: seq<Binding>, c: nat) {
    exists i :: 0 <= i < |bound| && bound[i].channel == c
  }

  predicate HasBindingTo(bound: seq<Binding>, c: nat, auth: string) {
    exists i :: 0 <= i < |bound| && bound[i].channel == c && bound[i].auth == auth
  }

  predicate IsLimitValue(value: FieldValue) {
    value.integer.Some? && value.integer.value > 0 && value.strings == []
  }

  predicate IsListValue(value: FieldValue) {
    value.integer.None? && value.strings != []
  }

  predicate FieldServes(field: Field, value: FieldValue) {
    match field
    case ThinkingLevels => IsListValue(value) && AreLevels(value.strings) && InOrder(value.strings)
    case MaxContextLength => IsLimitValue(value)
    case MaxInputTokens => IsLimitValue(value)
    case MaxOutputTokens => IsLimitValue(value)
    case InputModalities => value.integer.None? && (value.strings == ["text"] || value.strings == ["image"] || value.strings == ["text", "image"])
    case OutputModalities => value.integer.None? && (value.strings == ["text"] || value.strings == ["image"] || value.strings == ["text", "image"])
  }

  ghost predicate PatchesServe(patches: seq<ModelPatch>) {
    && (forall i, j :: 0 <= i < j < |patches| ==> patches[i].model != patches[j].model)
    && (forall i :: 0 <= i < |patches| ==> TrimmedText(patches[i].model, 1024) && patches[i].fields != map[])
    && (forall i, field :: 0 <= i < |patches| && field in patches[i].fields ==> FieldServes(field, patches[i].fields[field]))
  }

  ghost predicate ResultsServe(env: Environment, c: nat, bound: seq<Binding>, results: seq<ChannelResult>) {
    && |results| <= |env.channels|
    && (forall i, j :: 0 <= i < j < |results| ==> results[i].channel != results[j].channel)
    && (forall i :: 0 <= i < |results| ==>
         && results[i].channel < c && results[i].channel < |env.channels| && results[i].spec == env.channels[results[i].channel]
         && PatchesServe(results[i].patches)
         && (HasCatalog(env.channels[results[i].channel]) ==> HasBinding(bound, results[i].channel)))
  }

  /** It is of this attempt, waits for an answer the configuration asks for, and what it carries is within its bounds,
      bound to credentials, and of the channels before. */
  ghost predicate Serves(attempt: Attempt, continuation: Continuation) {
    var env, state := attempt.env, continuation.state;
    && OfThisAttempt(attempt, continuation) && T.Asks(env, state.step) && (ForCatalog(state.step) ==> state.step.source == 0)
    && state.bytes <= 8388608 && EntriesServe(state.upstream) && PagesServe(state)
    && (if ForCatalog(state.step) then TrimmedText(continuation.auth, 512) else continuation.auth == "")
    && BindingsServe(env, state.step.channel, continuation.bound)
    && (HasCatalog(env.channels[state.step.channel]) ==> HasBinding(continuation.bound, state.step.channel))
    && (ForCatalog(state.step) ==> HasBindingTo(continuation.bound, state.step.channel, continuation.auth))
    && ResultsServe(env, state.step.channel, continuation.bound, state.results)
    && (state.modelparams.Some? ==> state.modelparams.value.depth <= 128)
    && (state.modelsdev.Some? ==> state.modelsdev.value.depth <= 128)
  }

  // ---------- part by part ----------

  lemma TrimmedIs(text: string, bytes: nat)
    ensures Trimmed(text, bytes) <==> TrimmedText(text, bytes)
  {
    MT.PlainIs(text, bytes);
    MT.TrimmedIs(text);
    hide M.GoodText, MT.PlainText, TextRules.NoSpaceAround, TrimSpace;
  }

  lemma CatalogIs(channel: Channel)
    ensures NeedsCatalog(channel) <==> HasCatalog(channel)
  {
  }

  lemma ListIs(list: Option<seq<string>>)
    ensures CanonicalList(list) <==> PlainList(list)
  {
    ModalitiesFixed(Values(list));
    hide CanonicalModalities;
    if list.Some? {
      var canonical := CanonicalModalities(list.value);
    }
  }

  lemma EntriesAre(entries: Entries)
    ensures GoodUpstream(entries) <==> EntriesServe(entries)
  {
    forall id | id in entries
      ensures GoodEntry(id, entries[id]) <==> TrimmedText(id, 1024) && PlainList(entries[id].inputs) && PlainList(entries[id].outputs)
    {
      TrimmedIs(id, 1024);
      ListIs(entries[id].inputs);
      ListIs(entries[id].outputs);
      EffortsFixed(entries[id].efforts);
    }
    hide GoodEntry, TrimmedText, PlainList;
  }

  lemma PagesAre(env: Environment, state: State)
    requires T.Asks(env, state.step)
    ensures GoodPage(state) <==> PagesServe(state)
  {
    forall cursor {
      TrimmedIs(cursor, 256);
    }
    if state.step.after != "" {
      PlainTextIs(state.step.after);
    } else {
      EmptyText();
    }
    hide Trimmed, TrimmedText, ByteLength, HasControl;
  }

  lemma EmptyText()
    ensures ByteLength("") == 0 && !HasControl("") && forall bytes :: !TrimmedText("", bytes)
  {
  }

  lemma PlainTextIs(text: string)
    ensures Trimmed(text, 256) ==> ByteLength(text) <= 256 && !HasControl(text) && text != ""
  {
    hide ByteLength, HasControl, TrimSpace;
  }

  lemma BindingsAre(env: Environment, c: nat, bound: seq<Binding>)
    ensures GoodBindings(env, c, bound) <==> BindingsServe(env, c, bound)
  {
    forall text {
      TrimmedIs(text, 512);
    }
    hide Trimmed, TrimmedText;
  }

  lemma FieldIs(field: Field, value: FieldValue)
    ensures GoodValue(field, value) <==> FieldServes(field, value)
  {
    EffortsFixed(value.strings);
    ModalitiesFixed(value.strings);
    hide CanonicalEfforts, CanonicalModalities, AreLevels, InOrder;
  }

  lemma PatchesAre(patches: seq<ModelPatch>)
    ensures GoodPatches(patches) <==> PatchesServe(patches)
  {
    forall text {
      TrimmedIs(text, 1024);
    }
    forall field, value {
      FieldIs(field, value);
    }
    hide Trimmed, TrimmedText, GoodValue, FieldServes;
  }

  lemma ResultsAre(env: Environment, c: nat, bound: seq<Binding>, results: seq<ChannelResult>)
    ensures GoodResults(env, c, bound, results) <==> ResultsServe(env, c, bound, results)
  {
    forall patches {
      PatchesAre(patches);
    }
    hide GoodPatches, PatchesServe;
  }

  lemma StepIs(env: Environment, state: State)
    ensures GoodStep(env, state.step) && GoodPage(state) ==> T.Asks(env, state.step)
    ensures T.Asks(env, state.step) ==> (GoodStep(env, state.step) <==> ForCatalog(state.step) ==> state.step.source == 0)
  {
    hide GoodCursors, ByteLength, HasControl;
  }

  lemma StampIs(attempt: Attempt, continuation: Continuation)
    ensures RightStamp(attempt, continuation) <==> OfThisAttempt(attempt, continuation)
  {
    MT.PlainIs(attempt.stamp.attempt, 128);
    MT.PlainIs(continuation.request, 128);
    hide M.GoodText, MT.PlainText;
  }

  /** The check takes exactly these. */
  lemma AcceptsExactly(attempt: Attempt, continuation: Continuation)
    ensures Acceptable(attempt, continuation) <==> Serves(attempt, continuation)
  {
    var env, state := attempt.env, continuation.state;
    StampIs(attempt, continuation);
    StepIs(env, state);
    EntriesAre(state.upstream);
    TrimmedIs(continuation.auth, 512);
    if T.Asks(env, state.step) {
      PagesAre(env, state);
      CatalogIs(env.channels[state.step.channel]);
    }
    BindingsAre(env, state.step.channel, continuation.bound);
    ResultsAre(env, state.step.channel, continuation.bound, state.results);
    hide RightStamp, OfThisAttempt, T.Asks, GoodStep, GoodUpstream, EntriesServe, GoodPage, PagesServe, Trimmed, TrimmedText, GoodBindings,
      BindingsServe, NeedsCatalog, HasCatalog, GoodResults, ResultsServe;
    InChannels(env, state.step);
  }

  lemma InChannels(env: Environment, step: Step)
    ensures T.Asks(env, step) ==> step.channel < |env.channels|
    ensures GoodStep(env, step) ==> step.channel < |env.channels|
  {
  }

  // ---------- one call ----------

  /** No channel after this one is bound, and this one to nothing else. */
  ghost predicate CanBind(bound: seq<Binding>, c: nat, identity: Identity) {
    || (forall i :: 0 <= i < |bound| ==> bound[i].channel < c)
    || (exists i :: 0 <= i < |bound| && bound[i] == Binding(c, identity.index, identity.digest) && forall k :: 0 <= k < i ==> bound[k].channel < c)
  }

  /** The next fetch can be made: there is an identifier for it, the continuation fits, and for a catalog the channel is
      there and its credential is the one it was bound to, if it was. */
  ghost predicate CanFetch(env: Environment, bound: seq<Binding>, step: Step, answer: Answer) {
    && answer.request.Some? && answer.fits && answer.holds
    && (ForCatalog(step) ==> env.located(step.channel) && answer.identity.Some? && CanBind(bound, step.channel, answer.identity.value))
  }

  /** What is handed out names the request, and the credential if it is for a catalog. */
  predicate HandsOut(attempt: Attempt, continuation: Continuation, state: State, answer: Answer) {
    && continuation.stamp == attempt.stamp && answer.request == Some(continuation.request) && continuation.state == state
    && (ForCatalog(state.step) ==> answer.identity.Some? && continuation.auth == answer.identity.value.index)
    && (ForCatalog(state.step) ==> HasBindingTo(continuation.bound, state.step.channel, continuation.auth))
    && (!ForCatalog(state.step) ==> continuation.auth == "")
  }

  lemma BindsExactly(bound: seq<Binding>, c: nat, identity: Identity)
    ensures Bound(bound, c, identity).Some? <==> CanBind(bound, c, identity)
    ensures Bound(bound, c, identity).Some? ==> HasBindingTo(Bound(bound, c, identity).value, c, identity.index)
  {
    var binding := Binding(c, identity.index, identity.digest);
    if forall i :: 0 <= i < |bound| ==> bound[i].channel < c {
      assert (bound + [binding])[|bound|] == binding;
    } else {
      var first := FirstFrom(bound, c);
      hide FirstFrom;
      forall i | 0 <= i < |bound| && bound[i] == binding && (forall k :: 0 <= k < i ==> bound[k].channel < c) ensures i == first {
      }
    }
  }

  lemma EmitsExactly(attempt: Attempt, bound: seq<Binding>, state: State, answer: Answer)
    ensures Emit(attempt, bound, state, answer) != Failed <==> CanFetch(attempt.env, bound, state.step, answer)
    ensures Emit(attempt, bound, state, answer) != Failed ==>
      Emit(attempt, bound, state, answer).Next? && HandsOut(attempt, Emit(attempt, bound, state, answer).continuation, state, answer)
  {
    if answer.identity.Some? {
      BindsExactly(bound, state.step.channel, answer.identity.value);
    }
    hide Bound, CanBind, HasBindingTo;
  }

  /** A run with its checks goes on exactly if the next call is given the continuation it trusts, the answer to its
      request, successful and with all credentials as they were, if the run inside goes on, and if its next fetch can be
      made. */
  lemma CallsExactly(attempt: Attempt, answers: seq<Answer>, answer: Answer)
    requires answers != [] && RunOf(attempt, answers).Next?
    ensures var continuation, all := RunOf(attempt, answers).continuation, answers + [answer];
      var inner := Run(attempt.env, MetadataResume.Replies(all));
      && (RunOf(attempt, all) != Failed <==>
           && Trusted(attempt, continuation) && answer.presented == continuation.request && answer.ok && answer.holds
           && inner != Error && (inner.Fetch? ==> CanFetch(attempt.env, continuation.bound, inner.state.step, answer)))
      && (RunOf(attempt, all).Next? ==> inner.Fetch? && HandsOut(attempt, RunOf(attempt, all).continuation, inner.state, answer))
      && (RunOf(attempt, all).Final? ==> inner == Finished(RunOf(attempt, all).results))
  {
    var continuation, all := RunOf(attempt, answers).continuation, answers + [answer];
    var state := continuation.state;
    MetadataResume.RunIsInner(attempt, answers);
    assert all[..|answers|] == answers;
    assert RunOf(attempt, all) == Continue(attempt, continuation, answer);
    MetadataResume.RunSpecs(attempt.env, MetadataResume.Replies(answers));
    MetadataResume.TrustedIsSame(attempt, continuation);
    InnerNext(attempt.env, answers, answer);
    var inner := Resume(attempt.env, state, Reply(answer.content, answer.size, true));
    if inner.Fetch? {
      EmitsExactly(attempt, continuation.bound, inner.state, answer);
    }
    hide RunOf, Run, Resume, Emit, Trusted, CanFetch, HandsOut, Decoded, MetadataResume.SpecsAre;
  }

  lemma InnerNext(env: Environment, answers: seq<Answer>, answer: Answer)
    requires answers != [] && Run(env, MetadataResume.Replies(answers)).Fetch?
    ensures Run(env, MetadataResume.Replies(answers + [answer])) ==
      Resume(env, Run(env, MetadataResume.Replies(answers)).state, Reply(answer.content, answer.size, true))
  {
    hide Resume, Begin;
    var one, two := MetadataResume.Replies(answers), MetadataResume.Replies(answers + [answer]);
    assert two == one + [Reply(answer.content, answer.size, true)];
    assert two[..|two| - 1] == one;
  }

  /** The first call begins the run inside, and makes its first fetch if there is one. */
  lemma FirstCallExactly(attempt: Attempt, answer: Answer)
    ensures var inner := Run(attempt.env, []);
      && (RunOf(attempt, [answer]) != Failed <==> inner != Error && (inner.Fetch? ==> CanFetch(attempt.env, [], inner.state.step, answer)))
      && (RunOf(attempt, [answer]).Next? ==> inner.Fetch? && HandsOut(attempt, RunOf(attempt, [answer]).continuation, inner.state, answer))
  {
    var inner := Run(attempt.env, []);
    assert inner == Begin(attempt.env) && RunOf(attempt, [answer]) == Start(attempt, answer);
    if inner.Fetch? {
      EmitsExactly(attempt, [], inner.state, answer);
    }
    hide RunOf, Run, Begin, Emit, CanFetch, HandsOut;
  }
}
