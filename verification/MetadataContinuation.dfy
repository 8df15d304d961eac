/** The continuation a metadata call hands out and the next one checks before it trusts it: the state of the
    run with its stamp, its request identifier and the credentials its catalogs were fetched with. */
module MetadataContinuation {
  import opened Options
  import opened YamlTree
  import opened MetadataEdit
  import opened MetadataEnrich
  import opened CatalogValues
  import opened MetadataRun
  import opened MetadataPlanner
  import Fence = PlannerFence
  import M = MembershipRun

  const MAX_MODEL_BYTES: nat := 1024
  const MAX_CURSOR_BYTES: nat := 256
  const MAX_CATALOG_DEPTH: nat := 128

  /** Upper case, the form in which names of one JSON object may not agree. */
  type Fold = string -> string

  /** What one attempt is about: its stamp, and the configuration with the snapshot. */
  datatype Attempt = Attempt(stamp: M.Stamp, env: Environment, fold: Fold)

  /** A credential as the host resolves it, and the digest of everything that identifies it. */
  datatype Identity = Identity(index: string, digest: string)

  /** The credential a channel's catalog was fetched with. */
  datatype Binding = Binding(channel: nat, auth: string, digest: string)

  datatype Continuation = Continuation(stamp: M.Stamp, request: string, auth: string, bound: seq<Binding>, state: State)

  /** What a call works with: the request identifier, status code and body it is given, whether the host still
      resolves every bound channel to its credential, the credential and the random identifier for the next
      fetch, None when there is none, and whether the next continuation fits its limit. */
  datatype Answer = Answer(
    presented: string, ok: bool, content: Content, size: nat, holds: bool,
    identity: Option<Identity>, request: Option<string>, fits: bool)

  datatype Emission = Next(continuation: Continuation) | Final(results: seq<ChannelResult>) | Failed

  // ---------- decoding ----------

  /** The strict decoder takes an object only if its names differ when folded. */
  ghost predicate TellApart(fold: Fold, names: set<string>) {
    forall one, two :: one in names && two in names && one != two ==> fold(one) != fold(two)
  }

  ghost predicate CatalogDecodes(fold: Fold, catalog: Option<Catalog>) {
    catalog.Some? ==> forall k :: 0 <= k < |catalog.value.objects| ==> TellApart(fold, catalog.value.objects[k])
  }

  ghost predicate ResultsDecode(fold: Fold, results: seq<ChannelResult>) {
    forall i :: 0 <= i < |results| ==> TellApart(fold, results[i].spec.overrides.Keys)
  }

  ghost predicate Decodes(fold: Fold, state: State) {
    && TellApart(fold, state.upstream.Keys) && TellApart(fold, state.cursors) && ResultsDecode(fold, state.results)
    && CatalogDecodes(fold, state.modelparams) && CatalogDecodes(fold, state.modelsdev)
  }

  /** An empty list of levels is left out when it is written, and reads as none. */
  function DecodedOverride(override: Compiled): Compiled {
    override.(listed := override.listed && override.values.thinking != [])
  }

  function DecodedSpec(spec: Channel): Channel {
    spec.(overrides := map name | name in spec.overrides :: DecodedOverride(spec.overrides[name]))
  }

  function DecodedResults(results: seq<ChannelResult>): (decoded: seq<ChannelResult>)
    ensures |decoded| == |results|
  {
    seq(|results|, i requires 0 <= i < |results| => results[i].(spec := DecodedSpec(results[i].spec)))
  }

  function Decoded(continuation: Continuation): Continuation {
    continuation.(state := continuation.state.(results := DecodedResults(continuation.state.results)))
  }

  /** The loop over the names of one object, with the folded names seen so far. */
  method NamesDiffer(fold: Fold, names: set<string>) returns (ok: bool)
    ensures ok <==> TellApart(fold, names)
  {
    var seen: set<string> := {};
    var left := names;
    while left != {}
      invariant left <= names && TellApart(fold, names - left)
      invariant forall text :: text in seen <==> exists name :: name in names - left && fold(name) == text
      decreases |left|
    {
      var name :| name in left;
      if fold(name) in seen {
        return false;
      }
      seen := seen + {fold(name)};
      ghost var before := names - left;
      left := left - {name};
      assert names - left == before + {name};
    }
    assert names - left == names;
    return true;
  }

  method CatalogNamesDiffer(fold: Fold, catalog: Option<Catalog>) returns (ok: bool)
    ensures ok <==> CatalogDecodes(fold, catalog)
  {
    hide TellApart;
    if catalog.None? {
      return true;
    }
    var objects := catalog.value.objects;
    var k := 0;
    while k < |objects|
      invariant k <= |objects| && forall j :: 0 <= j < k ==> TellApart(fold, objects[j])
    {
      ok := NamesDiffer(fold, objects[k]);
      if !ok {
        return;
      }
      k := k + 1;
    }
    return true;
  }

  /** Strict decoding as far as it depends on what the continuation says. */
  method DecodeStrict(fold: Fold, continuation: Continuation) returns (decoded: Option<Continuation>)
    ensures decoded.Some? <==> Decodes(fold, continuation.state)
    ensures decoded.Some? ==> decoded.value == Decoded(continuation)
  {
    hide TellApart, CatalogDecodes;
    var state := continuation.state;
    var upstream := NamesDiffer(fold, state.upstream.Keys);
    var cursors := NamesDiffer(fold, state.cursors);
    var modelparams := CatalogNamesDiffer(fold, state.modelparams);
    var modelsdev := CatalogNamesDiffer(fold, state.modelsdev);
    if !upstream || !cursors || !modelparams || !modelsdev {
      return None;
    }
    var i := 0;
    while i < |state.results|
      invariant i <= |state.results| && forall k :: 0 <= k < i ==> TellApart(fold, state.results[k].spec.overrides.Keys)
    {
      var ok := NamesDiffer(fold, state.results[i].spec.overrides.Keys);
      if !ok {
        return None;
      }
      i := i + 1;
    }
    return Some(Decoded(continuation));
  }

  // ---------- the check ----------

  predicate IsCatalogKind(kind: Kind) {
    kind == OpenAiModels || kind == ClaudeModels
  }

  predicate Trimmed(text: string, bytes: nat) {
    M.GoodText(text, bytes) && TrimSpace(text) == text
  }

  predicate GoodStep(env: Environment, step: Step) {
    && step.channel < |env.channels| && env.channels[step.channel].enabled
    && var channel := env.channels[step.channel];
       match step.kind
       case OpenAiModels => !channel.claude && NeedsCatalog(channel) && step.source == 0
       case ClaudeModels => channel.claude && NeedsCatalog(channel) && step.source == 0
       case ModelparamsFetch => step.source < |channel.sources| && channel.sources[step.source].ModelparamsSource?
       case ModelsdevFetch => step.source < |channel.sources| && channel.sources[step.source].ModelsdevSource?
       case _ => false
  }

  /** A list that normalising leaves alone; nothing at all is no list, while an empty one is not. */
  predicate CanonicalList(list: Option<seq<string>>) {
    list == if CanonicalModalities(Values(list)) == [] then None else Some(CanonicalModalities(Values(list)))
  }

  predicate CanonicalEntry(entry: Upstream) {
    CanonicalList(entry.inputs) && CanonicalList(entry.outputs)
  }

  predicate GoodEntry(id: string, entry: Upstream) {
    Trimmed(id, MAX_MODEL_BYTES) && CanonicalEfforts(entry.efforts) == entry.efforts && CanonicalEntry(entry)
  }

  ghost predicate GoodUpstream(entries: Entries) {
    forall id :: id in entries ==> GoodEntry(id, entries[id])
  }

  predicate GoodAuth(step: Step, auth: string) {
    if IsCatalogKind(step.kind) then Trimmed(auth, M.MAX_AUTH_BYTES) else auth == ""
  }

  predicate GoodCursors(cursors: set<string>) {
    forall cursor :: cursor in cursors ==> Trimmed(cursor, MAX_CURSOR_BYTES)
  }

  predicate GoodPage(state: State) {
    var step := state.step;
    && step.page < MAX_CLAUDE_PAGES && ByteLength(step.after) <= MAX_CURSOR_BYTES && !HasControl(step.after)
    && (if step.kind == ClaudeModels then
          && |state.cursors| == step.page && (step.page == 0 ==> step.after == "")
          && (step.page > 0 ==> step.after != "" && step.after in state.cursors) && GoodCursors(state.cursors)
        else step.page == 0 && step.after == "" && state.cursors == {})
  }

  /** 64 lower-case hexadecimal digits. */
  predicate IsDigest(text: string) {
    |text| == 64 && forall i :: 0 <= i < |text| ==> '0' <= text[i] <= '9' || 'a' <= text[i] <= 'f'
  }

  predicate GoodBinding(env: Environment, c: nat, binding: Binding) {
    && binding.channel < |env.channels| && binding.channel <= c
    && Trimmed(binding.auth, M.MAX_AUTH_BYTES) && IsDigest(binding.digest)
    && env.channels[binding.channel].enabled && NeedsCatalog(env.channels[binding.channel])
  }

  predicate InChannelOrder(bound: seq<Binding>) {
    forall i, j :: 0 <= i < j < |bound| ==> bound[i].channel < bound[j].channel
  }

  predicate GoodBindings(env: Environment, c: nat, bound: seq<Binding>) {
    InChannelOrder(bound) && forall i :: 0 <= i < |bound| ==> GoodBinding(env, c, bound[i])
  }

  predicate IsBound(bound: seq<Binding>, c: nat) {
    exists i :: 0 <= i < |bound| && bound[i].channel == c
  }

  predicate IsBoundTo(bound: seq<Binding>, c: nat, auth: string) {
    exists i :: 0 <= i < |bound| && bound[i].channel == c && bound[i].auth == auth
  }

  predicate GoodValue(field: Field, value: FieldValue) {
    && ValidValue(field, value)
    && (field == ThinkingLevels ==> CanonicalEfforts(value.strings) == value.strings)
    && (field == InputModalities || field == OutputModalities ==> CanonicalModalities(value.strings) == value.strings)
  }

  ghost predicate GoodPatch(patch: ModelPatch) {
    && Trimmed(patch.model, MAX_MODEL_BYTES) && patch.fields != map[]
    && (forall field :: field in patch.fields ==> GoodValue(field, patch.fields[field]))
  }

  ghost predicate GoodPatches(patches: seq<ModelPatch>) {
    DistinctPatches(patches) && forall k :: 0 <= k < |patches| ==> GoodPatch(patches[k])
  }

  ghost predicate GoodResult(env: Environment, c: nat, bound: seq<Binding>, result: ChannelResult) {
    && result.channel < c && result.channel < |env.channels| && GoodPatches(result.patches)
    && result.spec == env.channels[result.channel]
    && (NeedsCatalog(env.channels[result.channel]) ==> IsBound(bound, result.channel))
  }

  ghost predicate GoodResults(env: Environment, c: nat, bound: seq<Binding>, results: seq<ChannelResult>) {
    && |results| <= |env.channels|
    && (forall i :: 0 <= i < |results| ==> GoodResult(env, c, bound, results[i]))
    && (forall i, j :: 0 <= i < j < |results| ==> results[i].channel != results[j].channel)
  }

  /** The current channel is bound if it has a catalog, and to the credential of the fetch being answered. */
  predicate BoundHere(env: Environment, continuation: Continuation) {
    var step := continuation.state.step;
    && step.channel < |env.channels|
    && (NeedsCatalog(env.channels[step.channel]) ==> IsBound(continuation.bound, step.channel))
    && (IsCatalogKind(step.kind) ==> IsBoundTo(continuation.bound, step.channel, continuation.auth))
  }

  predicate RightStamp(attempt: Attempt, continuation: Continuation) {
    && continuation.stamp == attempt.stamp && M.GoodText(attempt.stamp.attempt, M.MAX_ID_BYTES)
    && M.GoodText(continuation.request, M.MAX_ID_BYTES)
  }

  /** A public catalog is written out and read again, which its parser does only up to a depth. */
  predicate ReadAgain(catalog: Option<Catalog>) {
    catalog.Some? ==> catalog.value.depth <= MAX_CATALOG_DEPTH
  }

  ghost predicate Acceptable(attempt: Attempt, continuation: Continuation) {
    var env, state := attempt.env, continuation.state;
    && RightStamp(attempt, continuation)
    && GoodStep(env, state.step) && state.bytes <= MAX_CATALOG_BYTES && GoodUpstream(state.upstream)
    && GoodAuth(state.step, continuation.auth) && GoodPage(state)
    && GoodBindings(env, state.step.channel, continuation.bound) && BoundHere(env, continuation)
    && GoodResults(env, state.step.channel, continuation.bound, state.results)
    && ReadAgain(state.modelparams) && ReadAgain(state.modelsdev)
  }

  /** The next call goes on from the continuation: it can be decoded, and what is decoded is in order. */
  ghost predicate Trusted(attempt: Attempt, continuation: Continuation) {
    Decodes(attempt.fold, continuation.state) && Acceptable(attempt, Decoded(continuation))
  }

  method ValidUpstreamState(entries: Entries) returns (ok: bool)
    ensures ok <==> GoodUpstream(entries)
  {
    hide GoodEntry;
    var left := entries.Keys;
    while left != {}
      invariant left <= entries.Keys && forall id :: id in entries && id !in left ==> GoodEntry(id, entries[id])
      decreases |left|
    {
      var id :| id in left;
      if !GoodEntry(id, entries[id]) {
        return false;
      }
      left := left - {id};
    }
    return true;
  }

  method ValidBindings(env: Environment, c: nat, bound: seq<Binding>) returns (ok: bool)
    ensures ok <==> GoodBindings(env, c, bound)
  {
    hide Trimmed, IsDigest, NeedsCatalog;
    var previous: int := -1;
    var i := 0;
    while i < |bound|
      invariant i <= |bound| && InChannelOrder(bound[..i])
      invariant forall k :: 0 <= k < i ==> GoodBinding(env, c, bound[k]) && bound[k].channel <= previous
      invariant i == 0 ==> previous == -1
      invariant i > 0 ==> previous == bound[i - 1].channel
    {
      if !GoodBinding(env, c, bound[i]) || bound[i].channel <= previous {
        assert i > 0 && bound[i].channel <= previous ==> !InChannelOrder(bound);
        return false;
      }
      previous := bound[i].channel;
      i := i + 1;
    }
    assert bound[..i] == bound;
    return true;
  }

  /** The loops over patches and their fields. A field is one of the six, so it has no unknown name. */
  method ValidPlannedPatches(patches: seq<ModelPatch>) returns (ok: bool)
    ensures ok <==> GoodPatches(patches)
  {
    hide Trimmed, GoodValue;
    var seen: set<string> := {};
    var i := 0;
    while i < |patches|
      invariant i <= |patches| && DistinctPatches(patches[..i])
      invariant forall k :: 0 <= k < i ==> GoodPatch(patches[k])
      invariant forall name :: name in seen <==> exists k :: 0 <= k < i && patches[k].model == name
    {
      var patch := patches[i];
      if !Trimmed(patch.model, MAX_MODEL_BYTES) || patch.model in seen || patch.fields == map[] {
        assert !GoodPatch(patch) || !DistinctPatches(patches);
        return false;
      }
      var left := patch.fields.Keys;
      while left != {}
        invariant left <= patch.fields.Keys
        invariant forall field :: field in patch.fields && field !in left ==> GoodValue(field, patch.fields[field])
        decreases |left|
      {
        var field :| field in left;
        if !GoodValue(field, patch.fields[field]) {
          assert !GoodPatch(patch);
          return false;
        }
        left := left - {field};
      }
      seen := seen + {patch.model};
      i := i + 1;
    }
    assert patches[..i] == patches;
    return true;
  }

  method ValidResults(env: Environment, c: nat, bound: seq<Binding>, results: seq<ChannelResult>) returns (ok: bool)
    requires c < |env.channels|
    ensures ok <==> GoodResults(env, c, bound, results)
  {
    hide GoodPatches, NeedsCatalog, IsBound;
    if |results| > |env.channels| {
      return false;
    }
    var seen: set<nat> := {};
    var i := 0;
    while i < |results|
      invariant i <= |results| <= |env.channels|
      invariant forall k :: 0 <= k < i ==> GoodResult(env, c, bound, results[k])
      invariant forall k, l :: 0 <= k < l < i ==> results[k].channel != results[l].channel
      invariant forall channel: nat :: channel in seen <==> exists k :: 0 <= k < i && results[k].channel == channel
    {
      var result := results[i];
      if result.channel >= c || result.channel in seen || result.spec != env.channels[result.channel] {
        assert !GoodResults(env, c, bound, results);
        return false;
      }
      var valid := ValidPlannedPatches(result.patches);
      if !valid || (NeedsCatalog(env.channels[result.channel]) && !IsBound(bound, result.channel)) {
        assert !GoodResult(env, c, bound, result);
        return false;
      }
      seen := seen + {result.channel};
      i := i + 1;
    }
    return true;
  }

  method ValidContinuationState(attempt: Attempt, continuation: Continuation) returns (ok: bool)
    ensures ok <==> Acceptable(attempt, continuation)
  {
    hide RightStamp, GoodStep, GoodUpstream, GoodAuth, GoodPage, GoodBindings, BoundHere, GoodResults;
    var env, state := attempt.env, continuation.state;
    StepChannel(env, state.step);
    if !RightStamp(attempt, continuation) || !GoodStep(env, state.step) || state.bytes > MAX_CATALOG_BYTES {
      return false;
    }
    var upstream := ValidUpstreamState(state.upstream);
    if !upstream || !GoodAuth(state.step, continuation.auth) || !GoodPage(state) {
      return false;
    }
    var bound := ValidBindings(env, state.step.channel, continuation.bound);
    if !bound || !BoundHere(env, continuation) {
      return false;
    }
    ok := ValidResults(env, state.step.channel, continuation.bound, state.results);
    ok := ok && ReadAgain(state.modelparams) && ReadAgain(state.modelsdev);
  }

  lemma StepChannel(env: Environment, step: Step)
    ensures GoodStep(env, step) ==> step.channel < |env.channels|
  {
  }

  // ---------- one call ----------

  /** A channel is bound once, after all channels before it; None when that is not so. */
  function Bound(bound: seq<Binding>, c: nat, identity: Identity): Option<seq<Binding>> {
    if forall i :: 0 <= i < |bound| ==> bound[i].channel < c then Some(bound + [Binding(c, identity.index, identity.digest)])
    else
      var first := FirstFrom(bound, c);
      if first < |bound| && bound[first] == Binding(c, identity.index, identity.digest) then Some(bound) else None
  }

  /** The first binding of this channel or a later one. */
  function FirstFrom(bound: seq<Binding>, c: nat): (i: nat)
    ensures i <= |bound| && (i < |bound| ==> bound[i].channel >= c) && forall k :: 0 <= k < i ==> bound[k].channel < c
  {
    if bound == [] || bound[0].channel >= c then 0 else 1 + FirstFrom(bound[1..], c)
  }

  method BindChannelAuth(bound: seq<Binding>, c: nat, identity: Identity) returns (result: Option<seq<Binding>>)
    ensures result == Bound(bound, c, identity)
  {
    var binding := Binding(c, identity.index, identity.digest);
    var i := 0;
    while i < |bound|
      invariant i <= |bound| && forall k :: 0 <= k < i ==> bound[k].channel < c
    {
      if bound[i].channel == c {
        return if bound[i] == binding then Some(bound) else None;
      }
      if bound[i].channel > c {
        return None;
      }
      i := i + 1;
    }
    return Some(bound + [binding]);
  }

  /** The next fetch with its continuation. */
  function Emit(attempt: Attempt, bound: seq<Binding>, state: State, answer: Answer): Emission {
    if !answer.holds || answer.request.None? || !answer.fits then Failed
    else if !IsCatalogKind(state.step.kind) then Next(Continuation(attempt.stamp, answer.request.value, "", bound, state))
    else if !attempt.env.located(state.step.channel) || answer.identity.None? then Failed
    else
      match Bound(bound, state.step.channel, answer.identity.value)
      case None => Failed
      case Some(longer) => Next(Continuation(attempt.stamp, answer.request.value, answer.identity.value.index, longer, state))
  }

  function Start(attempt: Attempt, answer: Answer): Emission {
    match Begin(attempt.env)
    case Fetch(state) => Emit(attempt, [], state, answer)
    case Finished(results) => Final(results)
    case Error => Failed
  }

  ghost function Continue(attempt: Attempt, continuation: Continuation, answer: Answer): Emission {
    if !Trusted(attempt, continuation) || answer.presented != continuation.request || !answer.ok || !answer.holds then Failed
    else
      match Resume(attempt.env, Decoded(continuation).state, Reply(answer.content, answer.size, true))
      case Fetch(state) => Emit(attempt, continuation.bound, state, answer)
      case Finished(results) => Final(results)
      case Error => Failed
  }

  /** The first answer only brings the credential and identifier for the first fetch. */
  ghost function RunOf(attempt: Attempt, answers: seq<Answer>): Emission
    requires answers != []
    decreases |answers|
  {
    if |answers| == 1 then Start(attempt, answers[0])
    else
      var before := RunOf(attempt, answers[..|answers| - 1]);
      if before.Next? then Continue(attempt, before.continuation, answers[|answers| - 1]) else Failed
  }

  /** A continuation names its request, so a call that presents another identifier fails, and one that
      presents the empty identifier always does. */
  lemma PresentedIsNamed(attempt: Attempt, continuation: Continuation, answer: Answer)
    requires Continue(attempt, continuation, answer) != Failed
    ensures Fence.Plannable(Some(answer.presented), continuation.request)
    ensures answer.presented == continuation.request != ""
  {
    hide Resume, Emit, GoodResults, GoodBindings, GoodUpstream;
  }
}
