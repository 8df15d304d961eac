/** The metadata planner's edit of a whole configuration: each planned channel is found again, and the
    patches are applied to its models. */
module MetadataPlanner {
  import opened Options
  import opened YamlGraph
  import opened YamlTree
  import opened YamlClone
  import opened YamlChannels
  import opened Ownership
  import opened MetadataOwnership
  import opened MetadataEdit

  datatype ChannelSpec = OpenAi(selector: Selector) | Claude(index: nat, baseUrl: string, prefix: string)

  datatype ModelPatch = ModelPatch(model: string, fields: Patch)

  datatype ChannelPlan = ChannelPlan(spec: ChannelSpec, patches: seq<ModelPatch>)

  function RootKey(spec: ChannelSpec): string {
    if spec.OpenAi? then OPENAI else CLAUDE
  }

  // ---------- reading channels ----------

  function TrimSlashesLeft(s: string): string {
    if s != [] && s[0] == '/' then TrimSlashesLeft(s[1..]) else s
  }

  function TrimSlashes(s: string): string {
    var left := TrimSlashesLeft(s);
    TrimSlashesRight(left)
  }

  function TrimSlashesRight(s: string): string {
    if s != [] && s[|s| - 1] == '/' then TrimSlashesRight(s[..|s| - 1]) else s
  }

  const ANTHROPIC := "https://api.anthropic.com"

  function ClaudeBase(channel: Tree): string {
    match Text(channel, "base-url")
    case None => ANTHROPIC
    case Some(text) => if TrimSpace(text) != "" then text else ANTHROPIC
  }

  function ClaudePrefix(channel: Tree): string {
    match Text(channel, "prefix")
    case None => ""
    case Some(text) => TrimSlashes(TrimSpace(text))
  }

  predicate ClaudeSelects(reader: Reader, channel: Tree, spec: ChannelSpec)
    requires spec.Claude?
  {
    && channel.shell.kind == MappingNode
    && reader.normalUrl(ClaudeBase(channel)) == Some(spec.baseUrl) && ClaudePrefix(channel) == spec.prefix
    && (Disabled(reader, channel) == Absent || Disabled(reader, channel) == Flag(false))
  }

  /** The planner's reading of a model's name: exactly as it stands, and only a clean one. */
  function ExactName(model: Tree): Option<string> {
    match Text(model, "name")
    case None => None
    case Some(text) =>
      if text != "" && TrimSpace(text) == text && ByteLength(text) <= 1024 && !HasControl(text) then Some(text) else None
  }

  ghost predicate ExactlyNamed(models: seq<Tree>) {
    && (forall i :: 0 <= i < |models| ==> ExactName(models[i]).Some?)
    && (forall i, j :: 0 <= i < j < |models| ==> ExactName(models[i]) != ExactName(models[j]))
  }

  ghost predicate Patchable(reader: Reader, channel: Tree) {
    Unambiguous(channel) && HasModels(channel) && ExactlyNamed(Models(channel)) && reader.headers(ValueOf(channel, "headers"))
  }

  predicate SpecSelects(reader: Reader, channels: seq<Tree>, spec: ChannelSpec, k: nat) {
    match spec
    case OpenAi(selector) => OneSelected(reader, channels, selector, k)
    case Claude(index, _, _) => k == index < |channels| && ClaudeSelects(reader, channels[k], spec)
  }

  /** Channel k is the one the specification names, and it can be edited. */
  ghost predicate Finds(reader: Reader, root: Tree, spec: ChannelSpec, k: nat) {
    && HasChannels(root, RootKey(spec)) && k < |Channels(root, RootKey(spec))|
    && SpecSelects(reader, Channels(root, RootKey(spec)), spec, k)
    && Patchable(reader, Channels(root, RootKey(spec))[k])
  }

  method LocateChannel(reader: Reader, root: Tree, spec: ChannelSpec) returns (index: Option<nat>)
    ensures index.None? ==> forall k :: !Finds(reader, root, spec, k)
    ensures index.Some? ==> Finds(reader, root, spec, index.value)
  {
    hide OneSelected, Patchable, ClaudeSelects;
    if !HasChannels(root, RootKey(spec)) {
      return None;
    }
    var channels := Channels(root, RootKey(spec));
    if spec.Claude? {
      if spec.index >= |channels| || !ClaudeSelects(reader, channels[spec.index], spec) {
        return None;
      }
      index := Some(spec.index);
    } else {
      index := TheOneSelected(reader, channels, spec.selector);
      if index.None? {
        return;
      }
      InRange(reader, channels, spec.selector, index.value);
    }
    var patchable := ChannelPatchable(reader, channels[index.value]);
    if !patchable {
      forall k: nat | Finds(reader, root, spec, k) ensures k == index.value {
        if spec.OpenAi? {
          OnlyOneSelected(reader, channels, spec.selector, k, index.value);
        }
      }
      return None;
    }
  }

  lemma InRange(reader: Reader, channels: seq<Tree>, selector: Selector, k: nat)
    requires OneSelected(reader, channels, selector, k)
    ensures k < |channels|
  {
  }

  lemma OnlyOneSelected(reader: Reader, channels: seq<Tree>, selector: Selector, j: nat, k: nat)
    requires OneSelected(reader, channels, selector, j) && OneSelected(reader, channels, selector, k)
    ensures j == k
  {
    hide Selects, FlagReadable;
    assert Selects(reader, channels[j], selector);
  }

  method ChannelPatchable(reader: Reader, channel: Tree) returns (patchable: bool)
    ensures patchable <==> Patchable(reader, channel)
  {
    var direct := HasNoIndirection(channel);
    if !direct || !HasModels(channel) {
      return false;
    }
    var names := PositionsOf(Models(channel));
    return names.Some? && reader.headers(ValueOf(channel, "headers"));
  }

  /** The models by exact name; positions stand for the node pointers of the source. */
  method PositionsOf(models: seq<Tree>) returns (byName: Option<map<string, nat>>)
    ensures byName.Some? <==> ExactlyNamed(models)
    ensures byName.Some? ==> forall k :: 0 <= k < |models| ==>
      ExactName(models[k]).value in byName.value && byName.value[ExactName(models[k]).value] == k
    ensures byName.Some? ==> forall name :: name in byName.value ==>
      byName.value[name] < |models| && ExactName(models[byName.value[name]]) == Some(name)
  {
    hide ExactName;
    var result: map<string, nat> := map[];
    var i := 0;
    while i < |models|
      invariant i <= |models|
      invariant forall k :: 0 <= k < i ==> ExactName(models[k]).Some?
      invariant forall k :: 0 <= k < i ==> ExactName(models[k]).value in result && result[ExactName(models[k]).value] == k
      invariant forall name :: name in result ==> result[name] < i && ExactName(models[result[name]]) == Some(name)
    {
      var name := ExactName(models[i]);
      if name.None? {
        return None;
      }
      if name.value in result {
        return None;
      }
      result := result[name.value := i];
      i := i + 1;
    }
    return Some(result);
  }

  // ---------- patching the models of a channel ----------

  function PatchFor(patches: seq<ModelPatch>, name: string): Option<Patch> {
    if patches == [] then None
    else if patches[|patches| - 1].model == name then Some(patches[|patches| - 1].fields)
    else PatchFor(patches[..|patches| - 1], name)
  }

  /** A model after the patches meant for it. */
  function PatchedModel(model: Tree, patches: seq<ModelPatch>): Option<Tree> {
    if ExactName(model).None? then Some(model)
    else
      match PatchFor(patches, ExactName(model).value)
      case None => Some(model)
      case Some(patch) => EditModel(model, patch, |FIELDS|)
  }

  ghost predicate DistinctPatches(patches: seq<ModelPatch>) {
    forall i, j :: 0 <= i < j < |patches| ==> patches[i].model != patches[j].model
  }

  predicate AllPatched(models: seq<Tree>, patches: seq<ModelPatch>) {
    forall k :: 0 <= k < |models| ==> PatchedModel(models[k], patches).Some?
  }

  function PatchedModels(models: seq<Tree>, patches: seq<ModelPatch>): (r: seq<Tree>)
    requires AllPatched(models, patches)
    ensures |r| == |models| && forall k :: 0 <= k < |models| ==> r[k] == PatchedModel(models[k], patches).value
  {
    seq(|models|, k requires 0 <= k < |models| => PatchedModel(models[k], patches).value)
  }

  ghost predicate HasModel(models: seq<Tree>, name: string) {
    exists k :: 0 <= k < |models| && ExactName(models[k]) == Some(name)
  }

  ghost predicate Targets(models: seq<Tree>, patches: seq<ModelPatch>) {
    forall i :: 0 <= i < |patches| ==> HasModel(models, patches[i].model)
  }

  lemma {:induction false} PatchForUnknown(patches: seq<ModelPatch>, name: string)
    requires forall i :: 0 <= i < |patches| ==> patches[i].model != name
    ensures PatchFor(patches, name).None?
  {
    if patches != [] {
      PatchForUnknown(patches[..|patches| - 1], name);
    }
  }

  lemma PatchForNext(patches: seq<ModelPatch>, i: nat, name: string)
    requires i < |patches| && DistinctPatches(patches)
    ensures PatchFor(patches[..i + 1], name) == if patches[i].model == name then Some(patches[i].fields) else PatchFor(patches[..i], name)
    ensures patches[i].model == name ==> PatchFor(patches[..i], name).None?
  {
    assert patches[..i + 1][..i] == patches[..i];
    if patches[i].model == name {
      PatchForUnknown(patches[..i], name);
    }
  }

  /** The models after the first i patches. */
  ghost predicate PatchedUpTo(models: seq<Tree>, now: seq<Tree>, patches: seq<ModelPatch>, i: nat) {
    && i <= |patches| && |now| == |models|
    && (forall k :: 0 <= k < |models| ==> PatchedModel(models[k], patches[..i]) == Some(now[k]))
  }

  lemma PatchNext(models: seq<Tree>, now: seq<Tree>, patches: seq<ModelPatch>, i: nat, k: nat)
    requires ExactlyNamed(models) && DistinctPatches(patches) && i < |patches| && PatchedUpTo(models, now, patches, i)
    requires k < |models| && ExactName(models[k]) == Some(patches[i].model)
    ensures now[k] == models[k]
    ensures EditModel(models[k], patches[i].fields, |FIELDS|).Some? ==>
      PatchedUpTo(models, now[k := EditModel(models[k], patches[i].fields, |FIELDS|).value], patches, i + 1)
    ensures EditModel(models[k], patches[i].fields, |FIELDS|).None? ==> PatchedModel(models[k], patches[..i + 1]).None?
  {
    hide ExactName, EditModel;
    forall j | 0 <= j < |models| {
      PatchForNext(patches, i, ExactName(models[j]).value);
    }
  }

  /** Patches to come do not repair a failed one. */
  lemma {:induction false} FailureStays(model: Tree, patches: seq<ModelPatch>, i: nat)
    requires DistinctPatches(patches) && i <= |patches| && PatchedModel(model, patches[..i]).None?
    ensures PatchedModel(model, patches).None?
    decreases |patches| - i
  {
    hide ExactName, EditModel;
    if i == |patches| {
      assert patches[..i] == patches;
    } else {
      PatchForNext(patches, i, ExactName(model).value);
      FailureStays(model, patches, i + 1);
    }
  }

  lemma NotFiled(models: seq<Tree>, byName: map<string, nat>, name: string)
    requires name !in byName
    requires forall k :: 0 <= k < |models| ==> ExactName(models[k]).Some? && ExactName(models[k]).value in byName
    ensures !HasModel(models, name)
  {
    hide ExactName;
  }

  /** The loop over the patches of a channel. */
  method ApplyPatches(models: seq<Tree>, byName: map<string, nat>, patches: seq<ModelPatch>) returns (next: Option<seq<Tree>>, changed: bool)
    requires ExactlyNamed(models) && DistinctPatches(patches) && forall k :: 0 <= k < |models| ==> Editable(models[k])
    requires forall k :: 0 <= k < |models| ==> ExactName(models[k]).value in byName && byName[ExactName(models[k]).value] == k
    requires forall name :: name in byName ==> byName[name] < |models| && ExactName(models[byName[name]]) == Some(name)
    ensures next.Some? <==> Targets(models, patches) && AllPatched(models, patches)
    ensures next.Some? ==> next.value == PatchedModels(models, patches) && (changed <==> next.value != models)
  {
    hide ExactName, EditModel, Editable;
    var now := models;
    changed := false;
    var i := 0;
    assert PatchedUpTo(models, now, patches, 0);
    while i < |patches|
      invariant i <= |patches| && PatchedUpTo(models, now, patches, i)
      invariant forall j :: 0 <= j < i ==> HasModel(models, patches[j].model)
      invariant changed <==> now != models
    {
      if patches[i].model !in byName {
        NotFiled(models, byName, patches[i].model);
        return None, false;
      }
      var k := byName[patches[i].model];
      PatchNext(models, now, patches, i, k);
      var patched, edited := ApplyPatch(now[k], patches[i].fields);
      if patched.None? {
        FailureStays(models[k], patches, i + 1);
        assert !AllPatched(models, patches);
        return None, false;
      }
      ghost var before := now;
      now := now[k := patched.value];
      assert now != models <==> before != models || edited by {
        assert now[k] == patched.value && forall j :: 0 <= j < |models| && j != k ==> now[j] == before[j];
      }
      changed := changed || edited;
      i := i + 1;
    }
    assert patches[..i] == patches;
    assert now == PatchedModels(models, patches);
    next := Some(now);
  }

  // ---------- applying a plan ----------

  ghost predicate DistinctSpecs(results: seq<ChannelPlan>) {
    && (forall i, j :: 0 <= i < j < |results| ==> results[i].spec != results[j].spec)
    && (forall i :: 0 <= i < |results| ==> DistinctPatches(results[i].patches))
  }

  predicate ChannelPatched(channel: Tree, patches: seq<ModelPatch>) {
    HasModels(channel) && AllPatched(Models(channel), patches)
  }

  function EditedChannel(channel: Tree, patches: seq<ModelPatch>): Tree
    requires ChannelPatched(channel, patches)
  {
    SetModels(channel, PatchedModels(Models(channel), patches))
  }

  /** Result i edits channel k under this root key. */
  predicate PlacedAt(results: seq<ChannelPlan>, places: seq<nat>, key: string, k: int, i: int) {
    0 <= i < |places| <= |results| && RootKey(results[i].spec) == key && places[i] == k
  }

  ghost predicate Placed(results: seq<ChannelPlan>, places: seq<nat>, key: string, k: int) {
    exists i :: PlacedAt(results, places, key, k, i)
  }

  /** The channels under one root key after the results placed so far. */
  ghost predicate ChannelsEdited(before: seq<Tree>, after: seq<Tree>, key: string, results: seq<ChannelPlan>, places: seq<nat>) {
    && |after| == |before|
    && (forall k, i {:trigger PlacedAt(results, places, key, k, i)} :: 0 <= k < |before| && PlacedAt(results, places, key, k, i) ==>
         ChannelPatched(before[k], results[i].patches) && after[k] == EditedChannel(before[k], results[i].patches))
    && (forall k :: 0 <= k < |before| && !Placed(results, places, key, k) ==> after[k] == before[k])
  }

  ghost predicate ProvidersEdited(before: Tree, after: Tree, key: string, results: seq<ChannelPlan>, places: seq<nat>) {
    if before.shell.kind != SequenceNode then after == before
    else SameShell(before, after) && ChannelsEdited(before.content, after.content, key, results, places)
  }

  predicate ProviderEntry(root: Tree, i: nat) {
    i < |root.content| && i % 2 == 1 && (root.content[i - 1].shell.value == OPENAI || root.content[i - 1].shell.value == CLAUDE)
  }

  ghost predicate EntryEdited(root: Tree, now: Tree, i: nat, results: seq<ChannelPlan>, places: seq<nat>)
    requires i < |root.content| == |now.content|
  {
    if ProviderEntry(root, i) then ProvidersEdited(root.content[i], now.content[i], root.content[i - 1].shell.value, results, places)
    else now.content[i] == root.content[i]
  }

  /** `now` is `root` with the channels of the results edited; result i belongs to channel places[i] of its root key. */
  ghost predicate Edited(root: Tree, now: Tree, results: seq<ChannelPlan>, places: seq<nat>) {
    && SameShell(root, now) && |now.content| == |root.content| && |places| <= |results|
    && (forall i :: 0 <= i < |root.content| ==> EntryEdited(root, now, i, results, places))
  }

  ghost predicate AllFound(reader: Reader, root: Tree, results: seq<ChannelPlan>, places: seq<nat>) {
    |places| <= |results| && forall i :: 0 <= i < |places| ==> Finds(reader, root, results[i].spec, places[i])
  }

  lemma NothingEdited(root: Tree, results: seq<ChannelPlan>)
    ensures Edited(root, root, results, [])
  {
  }

  lemma EditNextChannel(before: seq<Tree>, after: seq<Tree>, key: string, results: seq<ChannelPlan>, places: seq<nat>, k: nat)
    requires ChannelsEdited(before, after, key, results, places) && |places| < |results|
    requires k < |before| && RootKey(results[|places|].spec) == key && !Placed(results, places, key, k)
    requires ChannelPatched(before[k], results[|places|].patches)
    ensures ChannelsEdited(before, after[k := EditedChannel(before[k], results[|places|].patches)], key, results, places + [k])
  {
    hide EditedChannel, ChannelPatched;
    PlacedGrows(results, places, key, k);
  }

  lemma EditOtherChannels(before: seq<Tree>, after: seq<Tree>, key: string, results: seq<ChannelPlan>, places: seq<nat>, k: nat)
    requires ChannelsEdited(before, after, key, results, places) && |places| < |results|
    requires RootKey(results[|places|].spec) != key
    ensures ChannelsEdited(before, after, key, results, places + [k])
  {
    hide EditedChannel, ChannelPatched;
    PlacedGrows(results, places, key, k);
  }

  lemma PlacedGrows(results: seq<ChannelPlan>, places: seq<nat>, key: string, k: nat)
    requires |places| < |results|
    ensures forall j, i :: PlacedAt(results, places + [k], key, j, i) <==>
      PlacedAt(results, places, key, j, i) || (i == |places| && RootKey(results[i].spec) == key && j == k)
    ensures forall j :: Placed(results, places + [k], key, j) <==>
      Placed(results, places, key, j) || (RootKey(results[|places|].spec) == key && j == k)
  {
    var longer := places + [k];
    assert forall i :: 0 <= i < |places| ==> longer[i] == places[i];
    forall j ensures Placed(results, longer, key, j) <==> Placed(results, places, key, j) || (RootKey(results[|places|].spec) == key && j == k) {
      if Placed(results, places, key, j) {
        var i :| PlacedAt(results, places, key, j, i);
        assert PlacedAt(results, longer, key, j, i);
      }
      if RootKey(results[|places|].spec) == key && j == k {
        assert PlacedAt(results, longer, key, j, |places|);
      }
      if Placed(results, longer, key, j) {
        var i :| PlacedAt(results, longer, key, j, i);
        assert i < |places| ==> PlacedAt(results, places, key, j, i);
      }
    }
  }

  /** Lookup depends on the texts of the keys only. */
  lemma {:induction false} KeyIndexKeys(a: seq<Tree>, b: seq<Tree>, key: string)
    requires |a| == |b| && forall i :: 0 <= i < |a| && i % 2 == 0 ==> a[i].shell.value == b[i].shell.value
    ensures KeyIndex(a, key) == KeyIndex(b, key)
    decreases |a|
  {
    if |a| > 1 {
      assert forall i :: 0 <= i < |a| - 2 && i % 2 == 0 ==> a[2..][i].shell.value == b[2..][i].shell.value;
      KeyIndexKeys(a[2..], b[2..], key);
    }
  }

  lemma EditedKeys(root: Tree, now: Tree, results: seq<ChannelPlan>, places: seq<nat>, key: string)
    requires Edited(root, now, results, places)
    ensures KeyIndex(now.content, key) == KeyIndex(root.content, key)
    ensures key == OPENAI || key == CLAUDE ==> (HasChannels(now, key) <==> HasChannels(root, key))
    ensures (key == OPENAI || key == CLAUDE) && HasChannels(root, key) ==>
      ChannelsEdited(Channels(root, key), Channels(now, key), key, results, places)
  {
    hide ChannelsEdited;
    forall i | 0 <= i < |root.content| && i % 2 == 0 ensures now.content[i] == root.content[i] {
      assert EntryEdited(root, now, i, results, places);
    }
    KeyIndexKeys(now.content, root.content, key);
    hide KeyIndex;
    var i := KeyIndex(root.content, key) + 1;
    if i < |root.content| && (key == OPENAI || key == CLAUDE) {
      assert EntryEdited(root, now, i, results, places) && ProviderEntry(root, i);
    }
  }

  lemma EditNext(root: Tree, now: Tree, results: seq<ChannelPlan>, places: seq<nat>, key: string, k: nat)
    requires root.shell.kind == MappingNode && FineEntries(root.content) && Edited(root, now, results, places) && |places| < |results|
    requires key == RootKey(results[|places|].spec) && HasChannels(root, key) && HasChannels(now, key)
    requires k < |Channels(root, key)| && !Placed(results, places, key, k)
    requires ChannelPatched(Channels(root, key)[k], results[|places|].patches)
    ensures k < |Channels(now, key)|
    ensures Edited(root, SetChannel(now, key, k, EditedChannel(Channels(root, key)[k], results[|places|].patches)), results, places + [k])
  {
    EditedKeys(root, now, results, places, key);
    EditNextChannel(Channels(root, key), Channels(now, key), key, results, places, k);
    var j := KeyIndex(root.content, key) + 1;
    hide KeyIndex, ChannelsEdited, EditedChannel, ChannelPatched, Placed;
    assert ProviderEntry(root, j);
    var next := SetChannel(now, key, k, EditedChannel(Channels(root, key)[k], results[|places|].patches));
    assert next.content[j].content == Channels(now, key)[k := EditedChannel(Channels(root, key)[k], results[|places|].patches)];
    forall i | 0 <= i < |root.content| ensures EntryEdited(root, next, i, results, places + [k]) {
      assert EntryEdited(root, now, i, results, places);
      if i != j {
        assert next.content[i] == now.content[i];
        if ProviderEntry(root, i) {
          EditOtherProviders(root, now, results, places, key, k, i);
        }
      }
    }
  }

  lemma EditOtherProviders(root: Tree, now: Tree, results: seq<ChannelPlan>, places: seq<nat>, key: string, k: nat, i: nat)
    requires FineEntries(root.content) && Edited(root, now, results, places) && |places| < |results|
    requires key == RootKey(results[|places|].spec) && ProviderEntry(root, i) && i != KeyIndex(root.content, key) + 1
    requires KeyIndex(root.content, key) < |root.content|
    ensures ProvidersEdited(root.content[i], now.content[i], root.content[i - 1].shell.value, results, places + [k])
  {
    hide KeyIndex, ChannelsEdited;
    assert EntryEdited(root, now, i, results, places);
    var other := root.content[i - 1].shell.value;
    assert other != key by {
      KeyIndexUnique(root.content, other, i - 1);
    }
    if root.content[i].shell.kind == SequenceNode {
      EditOtherChannels(root.content[i].content, now.content[i].content, other, results, places, k);
    }
  }

  lemma SetModelsSelects(channel: Tree, models: seq<Tree>, reader: Reader, spec: ChannelSpec)
    requires HasModels(channel) && spec.Claude?
    ensures ClaudeSelects(reader, SetModels(channel, models), spec) == ClaudeSelects(reader, channel, spec)
  {
    SetModelsModels(channel, models);
    SetModelsText(channel, models, "prefix");
    SetModelsText(channel, models, "base-url");
    SetModelsFlag(channel, models, reader);
    hide SetModels, Text, Disabled, TrimSpace, TrimSlashes;
  }

  /** A channel answers to at most one specification under its root key. */
  lemma SpecOf(reader: Reader, channels: seq<Tree>, one: ChannelSpec, two: ChannelSpec, k: nat)
    requires RootKey(one) == RootKey(two) && SpecSelects(reader, channels, one, k) && SpecSelects(reader, channels, two, k)
    ensures one == two
  {
    assert OPENAI != CLAUDE;
    if one.OpenAi? {
      assert Selects(reader, channels[k], one.selector) && Selects(reader, channels[k], two.selector);
    }
    hide Text, TrimSpace, Disabled, ClaudeBase, ClaudePrefix;
  }

  lemma EditedSelects(reader: Reader, before: seq<Tree>, after: seq<Tree>, key: string, results: seq<ChannelPlan>, places: seq<nat>, spec: ChannelSpec, k: nat)
    requires ChannelsEdited(before, after, key, results, places)
    ensures SpecSelects(reader, after, spec, k) == SpecSelects(reader, before, spec, k)
  {
    forall j | 0 <= j < |before|
      ensures spec.OpenAi? ==> Selects(reader, after[j], spec.selector) == Selects(reader, before[j], spec.selector)
      ensures FlagReadable(reader, after[j]) == FlagReadable(reader, before[j])
      ensures spec.Claude? ==> ClaudeSelects(reader, after[j], spec) == ClaudeSelects(reader, before[j], spec)
    {
      if Placed(results, places, key, j) {
        var i :| PlacedAt(results, places, key, j, i);
        var models := PatchedModels(Models(before[j]), results[i].patches);
        SetModelsReads(before[j], models, reader, if spec.OpenAi? then spec.selector else Selector("", ""));
        if spec.Claude? {
          SetModelsSelects(before[j], models, reader, spec);
        }
      }
    }
    hide Selects, FlagReadable, ClaudeSelects, EditedChannel, ChannelPatched;
  }

  /** Edits elsewhere do not matter to a search for a channel not yet edited. */
  lemma FindsInOriginal(reader: Reader, root: Tree, now: Tree, results: seq<ChannelPlan>, places: seq<nat>, spec: ChannelSpec, k: nat)
    requires Edited(root, now, results, places) && AllFound(reader, root, results, places)
    requires forall i :: 0 <= i < |places| ==> results[i].spec != spec
    ensures Finds(reader, now, spec, k) <==> Finds(reader, root, spec, k)
    ensures Finds(reader, root, spec, k) ==>
      && HasChannels(now, RootKey(spec)) && k < |Channels(now, RootKey(spec))|
      && !Placed(results, places, RootKey(spec), k) && Channels(now, RootKey(spec))[k] == Channels(root, RootKey(spec))[k]
  {
    var key := RootKey(spec);
    EditedKeys(root, now, results, places, key);
    hide Edited, Patchable;
    if HasChannels(root, key) {
      var before := Channels(root, key);
      hide HasChannels, EditedChannel, ChannelPatched, Channels;
      EditedSelects(reader, before, Channels(now, key), key, results, places, spec, k);
      if SpecSelects(reader, before, spec, k) && Placed(results, places, key, k) {
        var i :| PlacedAt(results, places, key, k, i);
        assert Finds(reader, root, results[i].spec, places[i]);
        SpecOf(reader, before, spec, results[i].spec, k);
      }
      hide SpecSelects;
    }
  }

  ghost predicate Applies(reader: Reader, root: Tree, plan: ChannelPlan) {
    exists k :: AppliesTo(reader, root, plan, k)
  }

  /** The plan's channel is found at k, every patch finds its model there and every edit succeeds. */
  ghost predicate AppliesTo(reader: Reader, root: Tree, plan: ChannelPlan, k: nat) {
    && Finds(reader, root, plan.spec, k)
    && Targets(Models(Channels(root, RootKey(plan.spec))[k]), plan.patches)
    && AllPatched(Models(Channels(root, RootKey(plan.spec))[k]), plan.patches)
  }

  lemma FindsOne(reader: Reader, root: Tree, spec: ChannelSpec, j: nat, k: nat)
    requires Finds(reader, root, spec, j) && Finds(reader, root, spec, k)
    ensures j == k
  {
    hide Patchable;
    if spec.OpenAi? {
      OnlyOneSelected(reader, Channels(root, OPENAI), spec.selector, j, k);
    }
  }

  lemma ChannelModels(reader: Reader, root: Tree, spec: ChannelSpec, k: nat)
    requires FineTree(root) && Finds(reader, root, spec, k)
    ensures Clean(Channels(root, RootKey(spec))[k])
    ensures forall m :: 0 <= m < |Models(Channels(root, RootKey(spec))[k])| ==> Editable(Models(Channels(root, RootKey(spec))[k])[m])
  {
    var key := RootKey(spec);
    CleanValue(root, key);
    var channel := Channels(root, key)[k];
    FineChild(ValueOf(root, key).value, k);
    CleanValue(channel, "models");
    CleanChildren(ValueOf(channel, "models").value);
    forall m | 0 <= m < |Models(channel)| ensures Models(channel)[m].shell.kind == MappingNode {
      assert ExactName(Models(channel)[m]).Some?;
    }
  }

  lemma FineChild(tree: Tree, k: nat)
    requires FineTree(tree) && k < |tree.content|
    ensures FineTree(tree.content[k])
  {
  }

  method ApplyOne(reader: Reader, now: Tree, plan: ChannelPlan, ghost root: Tree, ghost results: seq<ChannelPlan>, ghost places: seq<nat>)
    returns (next: Option<Tree>, changed: bool, ghost place: nat)
    requires FineTree(root) && root.shell.kind == MappingNode && DistinctSpecs(results)
    requires Edited(root, now, results, places) && AllFound(reader, root, results, places)
    requires |places| < |results| && plan == results[|places|]
    ensures next.Some? <==> Applies(reader, root, plan)
    ensures next.Some? ==> AppliesTo(reader, root, plan, place) && Edited(root, next.value, results, places + [place])
    ensures next.Some? ==> (changed <==> EditedChannel(Channels(root, RootKey(plan.spec))[place], plan.patches) != Channels(root, RootKey(plan.spec))[place])
  {
    hide Edited, Finds, Patchable, SpecSelects, SetModels, SetChannel;
    forall k: nat {
      FindsInOriginal(reader, root, now, results, places, plan.spec, k);
    }
    next, changed, place := None, false, 0;
    var index := LocateChannel(reader, now, plan.spec);
    if index.None? {
      return;
    }
    place := index.value;
    FoundChannel(reader, root, plan.spec, place);
    var channel := Channels(now, RootKey(plan.spec))[index.value];
    var byName := PositionsOf(Models(channel));
    if byName.None? {
      return;
    }
    var models, edited := ApplyPatches(Models(channel), byName.value, plan.patches);
    AppliesHere(reader, root, plan, place);
    if models.None? {
      return;
    }
    EditNext(root, now, results, places, RootKey(plan.spec), place);
    SameModels(channel, models.value);
    next := Some(SetChannel(now, RootKey(plan.spec), index.value, SetModels(channel, models.value)));
    changed := edited;
    assert SetModels(channel, models.value) == EditedChannel(channel, plan.patches);
  }

  lemma AppliesHere(reader: Reader, root: Tree, plan: ChannelPlan, k: nat)
    requires Finds(reader, root, plan.spec, k)
    ensures HasChannels(root, RootKey(plan.spec)) && k < |Channels(root, RootKey(plan.spec))| && HasModels(Channels(root, RootKey(plan.spec))[k])
    ensures var models := Models(Channels(root, RootKey(plan.spec))[k]);
      Applies(reader, root, plan) <==> Targets(models, plan.patches) && AllPatched(models, plan.patches)
  {
    if Applies(reader, root, plan) {
      var j :| AppliesTo(reader, root, plan, j);
      FindsOne(reader, root, plan.spec, j, k);
    } else {
      assert !AppliesTo(reader, root, plan, k);
    }
  }

  lemma SameModels(channel: Tree, models: seq<Tree>)
    requires HasModels(channel)
    ensures SetModels(channel, models) == channel <==> models == Models(channel)
  {
    SetValueReads(channel, "models", ValueOf(channel, "models").value.(content := models), "models");
    SetSameValue(channel, "models");
    hide KeyIndex;
  }

  lemma FoundChannel(reader: Reader, root: Tree, spec: ChannelSpec, k: nat)
    requires FineTree(root) && Finds(reader, root, spec, k)
    ensures HasChannels(root, RootKey(spec)) && k < |Channels(root, RootKey(spec))| && HasModels(Channels(root, RootKey(spec))[k])
    ensures var models := Models(Channels(root, RootKey(spec))[k]);
      ExactlyNamed(models) && forall m :: 0 <= m < |models| ==> Editable(models[m])
  {
    ChannelModels(reader, root, spec, k);
    hide ExactlyNamed, Editable;
  }

  /** Some planned channel gets other models. */
  ghost predicate Differs(root: Tree, results: seq<ChannelPlan>, places: seq<nat>) {
    exists i :: 0 <= i < |places| <= |results| && Moves(root, results[i], places[i])
  }

  predicate Moves(root: Tree, plan: ChannelPlan, k: nat) {
    && HasChannels(root, RootKey(plan.spec)) && k < |Channels(root, RootKey(plan.spec))|
    && ChannelPatched(Channels(root, RootKey(plan.spec))[k], plan.patches)
    && EditedChannel(Channels(root, RootKey(plan.spec))[k], plan.patches) != Channels(root, RootKey(plan.spec))[k]
  }

  lemma DiffersNext(root: Tree, results: seq<ChannelPlan>, places: seq<nat>, place: nat)
    requires |places| < |results|
    ensures Differs(root, results, places + [place]) <==> Differs(root, results, places) || Moves(root, results[|places|], place)
  {
    hide Moves;
    var longer := places + [place];
    assert forall i :: 0 <= i < |places| ==> longer[i] == places[i];
    assert longer[|places|] == place;
  }

  lemma FoundNext(reader: Reader, root: Tree, results: seq<ChannelPlan>, places: seq<nat>, place: nat)
    requires AllFound(reader, root, results, places) && |places| < |results| && Finds(reader, root, results[|places|].spec, place)
    ensures AllFound(reader, root, results, places + [place])
  {
    hide Finds;
  }

  /** The loop over the planned channels. It succeeds when every plan applies to the original document,
      and then every channel is edited as if it were the only one. */
  method ApplyMetadata(reader: Reader, root: Tree, results: seq<ChannelPlan>)
    returns (next: Option<Tree>, changed: bool, ghost places: seq<nat>)
    requires FineTree(root) && root.shell.kind == MappingNode && DistinctSpecs(results)
    ensures next.Some? <==> forall i :: 0 <= i < |results| ==> Applies(reader, root, results[i])
    ensures next.Some? ==> |places| == |results| && AllFound(reader, root, results, places) && Edited(root, next.value, results, places)
    ensures next.Some? ==> (changed <==> Differs(root, results, places))
    ensures next.Some? ==> forall i :: 0 <= i < |results| ==> AppliesTo(reader, root, results[i], places[i])
  {
    hide Edited, Finds, AllFound, Moves, EditedChannel, ChannelPatched;
    places, changed := [], false;
    var now := root;
    NothingEdited(root, results);
    assert AllFound(reader, root, results, []) by { NoneFound(reader, root, results); }
    var i := 0;
    while i < |results|
      invariant i == |places| <= |results|
      invariant Edited(root, now, results, places) && AllFound(reader, root, results, places)
      invariant changed <==> Differs(root, results, places)
      invariant forall j :: 0 <= j < i ==> AppliesTo(reader, root, results[j], places[j])
    {
      var applied, edited, place := ApplyOne(reader, now, results[i], root, results, places);
      if applied.None? {
        return None, false, places;
      }
      DiffersNext(root, results, places, place);
      FoundNext(reader, root, results, places, place);
      PlanMoves(reader, root, results[i], place);
      now, changed, places := applied.value, changed || edited, places + [place];
      i := i + 1;
    }
    next := Some(now);
  }

  lemma NoneFound(reader: Reader, root: Tree, results: seq<ChannelPlan>)
    ensures AllFound(reader, root, results, [])
  {
  }

  lemma PlanMoves(reader: Reader, root: Tree, plan: ChannelPlan, k: nat)
    requires AppliesTo(reader, root, plan, k)
    ensures ChannelPatched(Channels(root, RootKey(plan.spec))[k], plan.patches)
    ensures Moves(root, plan, k) <==> EditedChannel(Channels(root, RootKey(plan.spec))[k], plan.patches) != Channels(root, RootKey(plan.spec))[k]
  {
  }
}
