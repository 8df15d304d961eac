/** What a finished metadata run makes of each model, from the bodies it fetched and its configuration alone: which
    page of the provider, which entry of a public catalog and which override supply a field of which model. */
module MetadataSources {
  import opened Options
  import opened YamlGraph
  import opened YamlTree
  import opened YamlChannels
  import opened OwnershipRules
  import opened ModelText
  import opened ChannelText
  import opened FieldRules
  import opened MetadataEnrich
  import opened MetadataReadBack
  import opened MetadataPlanner
  import opened MetadataSnapshot
  import opened MetadataOutcome
  import opened YamlClone
  import opened MetadataProposal
  import opened MetadataEdit
  import R = MetadataRun

  // ---------- what was fetched ----------

  /** The body of a page of the channel's own catalog. */
  predicate IsPage(taken: R.Taken, c: nat) {
    taken.step.channel == c && (taken.content.OpenAiCatalog? || taken.content.ClaudePage?)
  }

  predicate PageHas(log: R.Log, i: int, c: nat, model: string) {
    0 <= i < |log| && IsPage(log[i], c) && model in log[i].content.entries
  }

  ghost predicate NoPageHas(log: R.Log, c: nat, model: string) {
    forall i :: !PageHas(log, i, c, model)
  }

  /** The entry for the model, of the last page of the channel that has one. */
  ghost predicate EntryFor(log: R.Log, c: nat, model: string, entry: Upstream) {
    || (exists i :: PageHas(log, i, c, model) && entry == log[i].content.entries[model] && forall k :: i < k ==> !PageHas(log, k, c, model))
    || (NoPageHas(log, c, model) && entry == Upstream([], 0, 0, 0, None, None))
  }

  /** What the catalog holds for this source and model, or nothing. */
  predicate HeldFor(catalog: R.Catalog, source: R.SourceRef, model: string, reading: Reading) {
    match source
    case ModelparamsSource(id) =>
      if R.Key(id, model) in catalog.readings && catalog.readings[R.Key(id, model)].Modelparams?
      then reading == catalog.readings[R.Key(id, model)] else reading == MetadataEnrich.Modelparams(id, [], 0)
    case ModelsdevSource(id) =>
      if R.Key(id, model) in catalog.readings && catalog.readings[R.Key(id, model)].Modelsdev?
      then reading == catalog.readings[R.Key(id, model)] else reading == MetadataEnrich.Modelsdev(id, 0, 0, [], [])
  }

  /** In the catalog of its kind that was fetched. */
  ghost predicate ReadingFor(log: R.Log, source: R.SourceRef, model: string, reading: Reading) {
    match source
    case ModelparamsSource(_) => exists i :: 0 <= i < |log| && log[i].content.ModelparamsCatalog? && HeldFor(log[i].content.catalog, source, model, reading)
    case ModelsdevSource(_) => exists i :: 0 <= i < |log| && log[i].content.ModelsdevCatalog? && HeldFor(log[i].content.catalog, source, model, reading)
  }

  predicate OverrideFor(channel: R.Channel, model: string, override: ModelRef) {
    if model in channel.overrides then override == channel.overrides[model].values else override == ModelRef("", [], 0, 0, 0, [], [])
  }

  ghost predicate SourcesFor(channel: R.Channel, log: R.Log, c: nat, model: string, sources: Sources) {
    && sources.upstreamMeta == channel.upstreamMeta && EntryFor(log, c, model, sources.upstream)
    && |sources.readings| == |channel.sources|
    && (forall i :: 0 <= i < |channel.sources| ==> ReadingFor(log, channel.sources[i], model, sources.readings[i]))
    && OverrideFor(channel, model, sources.override)
  }

  // ---------- the parts of one pass ----------

  lemma {:induction false} EntryIs(log: R.Log, c: nat, model: string)
    ensures model in R.UpstreamOf(log, c) <==> !NoPageHas(log, c, model)
    ensures EntryFor(log, c, model, if model in R.UpstreamOf(log, c) then R.UpstreamOf(log, c)[model] else Upstream([], 0, 0, 0, None, None))
    decreases |log|
  {
    if log != [] {
      var n := |log| - 1;
      EntryIs(log[..n], c, model);
      assert forall i :: i < n ==> (PageHas(log[..n], i, c, model) <==> PageHas(log, i, c, model));
      if PageHas(log, n, c, model) {
        assert R.UpstreamOf(log, c)[model] == log[n].content.entries[model];
      } else {
        EntryKept(log, c, model);
      }
    }
  }

  lemma EntryKept(log: R.Log, c: nat, model: string)
    requires log != [] && !PageHas(log, |log| - 1, c, model)
    ensures model in R.UpstreamOf(log, c) <==> model in R.UpstreamOf(log[..|log| - 1], c)
    ensures model in R.UpstreamOf(log, c) ==> R.UpstreamOf(log, c)[model] == R.UpstreamOf(log[..|log| - 1], c)[model]
    ensures NoPageHas(log, c, model) <==> NoPageHas(log[..|log| - 1], c, model)
    ensures forall entry :: EntryFor(log[..|log| - 1], c, model, entry) ==> EntryFor(log, c, model, entry)
  {
    var n := |log| - 1;
    assert forall i :: PageHas(log[..n], i, c, model) <==> PageHas(log, i, c, model);
    assert forall i :: PageHas(log[..n], i, c, model) ==> log[..n][i] == log[i];
  }

  lemma {:induction false} CatalogWasFetched(log: R.Log)
    ensures R.ModelparamsOf(log).Some? ==>
      exists i :: 0 <= i < |log| && log[i].content.ModelparamsCatalog? && log[i].content.catalog == R.ModelparamsOf(log).value
    ensures R.ModelsdevOf(log).Some? ==>
      exists i :: 0 <= i < |log| && log[i].content.ModelsdevCatalog? && log[i].content.catalog == R.ModelsdevOf(log).value
    decreases |log|
  {
    if log != [] {
      CatalogWasFetched(log[..|log| - 1]);
      assert log[|log| - 1] == log[|log| - 1];
    }
  }

  lemma ReadingIs(log: R.Log, source: R.SourceRef, model: string)
    requires if source.ModelsdevSource? then R.ModelsdevOf(log).Some? else R.ModelparamsOf(log).Some?
    ensures ReadingFor(log, source, model, R.ReadingOf(source, R.ModelparamsOf(log), R.ModelsdevOf(log), model))
  {
    CatalogWasFetched(log);
    hide R.ModelparamsOf, R.ModelsdevOf;
  }

  lemma SourcesAre(channel: R.Channel, log: R.Log, c: nat, model: string)
    requires R.Uses(channel, false) ==> R.ModelparamsOf(log).Some?
    requires R.Uses(channel, true) ==> R.ModelsdevOf(log).Some?
    ensures SourcesFor(channel, log, c, model, R.SourcesOf(channel, R.UpstreamOf(log, c), R.ModelparamsOf(log), R.ModelsdevOf(log), model))
  {
    EntryIs(log, c, model);
    forall i | 0 <= i < |channel.sources|
      ensures ReadingFor(log, channel.sources[i], model, R.ReadingOf(channel.sources[i], R.ModelparamsOf(log), R.ModelsdevOf(log), model))
    {
      assert channel.sources[i].ModelsdevSource? ==> R.Uses(channel, true);
      assert !channel.sources[i].ModelsdevSource? ==> R.Uses(channel, false);
      ReadingIs(log, channel.sources[i], model);
    }
    hide ReadingFor, EntryFor, R.UpstreamOf, R.ModelparamsOf, R.ModelsdevOf, R.ReadingOf, R.Uses;
  }

  // ---------- the proposed document ----------

  /** These are the models of channel k under this key. */
  ghost predicate ModelsStand(root: Tree, key: string, k: nat, models: seq<Tree>) {
    exists list :: Holds(root, key, list) && list.shell.kind == SequenceNode && ModelsOfEntry(list.content, k, models)
  }

  ghost predicate ModelsOfEntry(channels: seq<Tree>, k: nat, models: seq<Tree>) {
    k < |channels| && exists list :: Holds(channels[k], "models", list) && list.shell.kind == SequenceNode && list.content == models
  }

  /** Before and after the node is a model, and its fields come from the sources there are for it. */
  ghost predicate Becomes(integer: IntegerReader, channel: R.Channel, log: R.Log, c: nat, before: Tree, after: Tree) {
    exists was, now, sources :: IsModel(integer, before, was) && IsModel(integer, after, now)
      && SourcesFor(channel, log, c, was.name, sources) && Follows(was, now, sources)
  }

  lemma ModelsStandAs(root: Tree, key: string, k: nat, models: seq<Tree>)
    requires FineTree(root) && ModelsAt(root, key, k, models)
    ensures ModelsStand(root, key, k, models)
  {
    HasKeyIs(root, key);
    ChannelsFine(root, key);
    var channels := Channels(root, key);
    HasKeyIs(channels[k], "models");
    hide FineTree, Holds, HasKey, ValueOf;
    assert ModelsOfEntry(channels, k, models);
  }

  lemma ModelBecomes(integer: IntegerReader, channel: R.Channel, log: R.Log, c: nat, before: Tree, after: Tree, ref: ModelRef)
    requires FineTree(before) && FineTree(after) && ReadModel(integer, before) == Some(ref)
    requires R.Uses(channel, false) ==> R.ModelparamsOf(log).Some?
    requires R.Uses(channel, true) ==> R.ModelsdevOf(log).Some?
    requires ReadModel(integer, after) ==
      Some(Enriched(ref, R.SourcesOf(channel, R.UpstreamOf(log, c), R.ModelparamsOf(log), R.ModelsdevOf(log), ref.name)))
    ensures Becomes(integer, channel, log, c, before, after)
  {
    hide ReadModel, FineTree, IsModel, SourcesFor, Follows, R.Uses, R.SourcesOf, R.UpstreamOf, R.ModelparamsOf, R.ModelsdevOf, Enriched;
    var sources := R.SourcesOf(channel, R.UpstreamOf(log, c), R.ModelparamsOf(log), R.ModelsdevOf(log), ref.name);
    SourcesAre(channel, log, c, ref.name);
    ResolutionFollows(ref, sources);
    ReadsExactly(integer, before, ref);
    ReadsExactly(integer, after, Enriched(ref, sources));
  }

  ghost predicate ChannelFollows(reader: Reader, integer: IntegerReader, root: Tree, next: Tree, channel: R.Channel, spec: ChannelSpec, log: R.Log, c: nat) {
    exists k, before, after :: MetadataPlace(reader, root, spec, k) && ModelsFollow(integer, root, next, channel, spec, log, c, k, before, after)
  }

  ghost predicate ModelsFollow(integer: IntegerReader, root: Tree, next: Tree, channel: R.Channel, spec: ChannelSpec, log: R.Log, c: nat,
      k: nat, before: seq<Tree>, after: seq<Tree>)
  {
    var key := if spec.OpenAi? then "openai-compatibility" else "claude-api-key";
    && ModelsStand(root, key, k, before) && ModelsStand(next, key, k, after) && |after| == |before|
    && (forall i :: 0 <= i < |before| ==> Becomes(integer, channel, log, c, before[i], after[i]))
  }

  // ---------- the proposal is a fine tree ----------

  lemma ChannelsStayFine(before: seq<Tree>, after: seq<Tree>, key: string, results: seq<ChannelPlan>, places: seq<nat>)
    requires ChannelsEdited(before, after, key, results, places) && AllLocated(before, key, results, places)
    requires forall k :: 0 <= k < |before| ==> FineTree(before[k])
    ensures forall k :: 0 <= k < |after| ==> FineTree(after[k])
  {
    hide FineTree, EditedChannel, Located, ChannelPatched, Clean;
    forall k | 0 <= k < |after| ensures FineTree(after[k]) {
      if MetadataPlanner.Placed(results, places, key, k) {
        var i :| PlacedAt(results, places, key, k, i);
        EditedClean(before[k], results[i].patches);
        CleanIsFine(after[k]);
      }
    }
  }

  lemma CleanIsFine(tree: Tree)
    requires Clean(tree)
    ensures FineTree(tree)
  {
  }

  lemma FineContent(list: Tree)
    requires list.shell.kind == SequenceNode && forall k :: 0 <= k < |list.content| ==> FineTree(list.content[k])
    ensures FineTree(list)
  {
  }

  lemma EntryStaysFine(reader: Reader, root: Tree, next: Tree, results: seq<ChannelPlan>, places: seq<nat>, i: nat)
    requires FineTree(root) && root.shell.kind == MappingNode && AllFound(reader, root, results, places) && Edited(root, next, results, places)
    requires i < |root.content|
    ensures FineTree(next.content[i])
    ensures i % 2 == 0 ==> next.content[i] == root.content[i]
  {
    assert EntryEdited(root, next, i, results, places);
    FineChild(root, i);
    if ProviderEntry(root, i) && root.content[i].shell.kind == SequenceNode {
      var key := root.content[i - 1].shell.value;
      EntryUnderKey(root, i);
      PlacesLocated(reader, root, key, results, places);
      ChildrenFine(root.content[i]);
      hide FineTree, Edited, AllFound, ChannelsEdited, AllLocated;
      ChannelsStayFine(root.content[i].content, next.content[i].content, key, results, places);
      FineContent(next.content[i]);
    }
  }

  lemma ProposalStaysFine(reader: Reader, root: Tree, next: Tree, results: seq<ChannelPlan>, places: seq<nat>)
    requires FineTree(root) && root.shell.kind == MappingNode && AllFound(reader, root, results, places) && Edited(root, next, results, places)
    ensures FineTree(next)
  {
    forall i | 0 <= i < |root.content| ensures FineTree(next.content[i]) && (i % 2 == 0 ==> next.content[i] == root.content[i]) {
      EntryStaysFine(reader, root, next, results, places, i);
    }
    RootStaysFine(root, next);
  }

  lemma RootStaysFine(root: Tree, next: Tree)
    requires FineTree(root) && next.shell.kind == root.shell.kind && |next.content| == |root.content|
    requires forall i :: 0 <= i < |root.content| ==> FineTree(next.content[i]) && (i % 2 == 0 ==> next.content[i] == root.content[i])
    ensures FineTree(next)
  {
  }

  // ---------- the whole run ----------

  /** In a finished run with a fetch every model of every enabled channel becomes what the fetched bodies and the
      configuration say of it. */
  lemma EveryModelFromItsSources(reader: Reader, integer: IntegerReader, root: Tree, cfg: MetadataOutcome.Configured, replies: seq<R.Reply>,
      next: Tree, places: seq<nat>, c: nat)
    requires FineTree(root) && root.shell.kind == MappingNode && Proper(cfg) && ReadsDecimals(integer)
    requires R.Run(EnvironmentOf(reader, integer, root, cfg), replies).Finished?
    requires var results := R.Run(EnvironmentOf(reader, integer, root, cfg), replies).results;
      && (forall j :: 0 <= j < |results| ==> results[j].channel < |cfg.specs|)
      && |places| == |results| && AllFound(reader, root, PlanOf(cfg, results), places) && Edited(root, next, PlanOf(cfg, results), places)
    requires c < |cfg.channels| && cfg.channels[c].enabled && FetchNeeded(reader, integer, root, cfg)
    ensures var log := R.LogOf(EnvironmentOf(reader, integer, root, cfg), replies);
      ChannelFollows(reader, integer, root, next, cfg.channels[c], cfg.specs[c], log, c)
  {
    var env := EnvironmentOf(reader, integer, root, cfg);
    var results, log := R.Run(env, replies).results, R.LogOf(env, replies);
    FinishedRunReadsBack(reader, integer, root, cfg, replies, next, places, c);
    R.ResumedEqualsOneShot(env, replies);
    ProposalStaysFine(reader, root, next, PlanOf(cfg, results), places);
    FindsExactly(reader, root, cfg.specs[c], PlaceOf(reader, root, cfg, c));
    PublicCatalogs(env, log, results, c);
    hide FineTree, R.Run, R.LogOf, Edited, AllFound, FoundAt, ModelsOf, R.FetchNeeded, R.Complete, R.Uses, R.UpstreamOf, R.ModelparamsOf, R.ModelsdevOf,
      EditedInPlace, ChangedKeys, ModelsAt, Snapshot, Finds, MetadataPlace, R.OneShot, Proper;
    OneChannelFollows(reader, integer, root, next, cfg, log, c);
  }

  lemma OneChannelFollows(reader: Reader, integer: IntegerReader, root: Tree, next: Tree, cfg: MetadataOutcome.Configured, log: R.Log, c: nat)
    requires FineTree(root) && FineTree(next) && c < |cfg.channels| && c < |cfg.specs| && FoundAt(reader, root, cfg, c)
    requires MetadataPlace(reader, root, cfg.specs[c], PlaceOf(reader, root, cfg, c)) && ModelsOf(reader, integer, root, cfg, c).Some?
    requires R.Uses(cfg.channels[c], false) ==> R.ModelparamsOf(log).Some?
    requires R.Uses(cfg.channels[c], true) ==> R.ModelsdevOf(log).Some?
    requires var before, refs := ModelNodes(reader, root, cfg, c), ModelsOf(reader, integer, root, cfg, c).value;
      var resolved := EnrichedAll(refs, cfg.channels[c], R.UpstreamOf(log, c), R.ModelparamsOf(log), R.ModelsdevOf(log));
      exists after :: ModelsAt(next, RootKey(cfg.specs[c]), PlaceOf(reader, root, cfg, c), after) && |after| == |before| == |refs|
        && Snapshot(integer, after) == Some(resolved)
    ensures ChannelFollows(reader, integer, root, next, cfg.channels[c], cfg.specs[c], log, c)
  {
    var before, refs := ModelNodes(reader, root, cfg, c), ModelsOf(reader, integer, root, cfg, c).value;
    var k, key := PlaceOf(reader, root, cfg, c), RootKey(cfg.specs[c]);
    var resolved := EnrichedAll(refs, cfg.channels[c], R.UpstreamOf(log, c), R.ModelparamsOf(log), R.ModelsdevOf(log));
    var after :| ModelsAt(next, key, k, after) && |after| == |before| == |refs| && Snapshot(integer, after) == Some(resolved);
    SnapshotOf(reader, integer, root, cfg, c);
    hide FineTree, ModelsAt, Snapshot, FoundAt, MetadataPlace, R.Uses, R.UpstreamOf, R.ModelparamsOf, R.ModelsdevOf, ModelsStand, Becomes, ReadModel,
      R.SourcesOf, Enriched, ModelNodes, ModelsOf;
    ModelsStandAs(root, key, k, before);
    ModelsStandAs(next, key, k, after);
    ModelsFine(root, key, k, before);
    ModelsFine(next, key, k, after);
    forall i | 0 <= i < |before| ensures Becomes(integer, cfg.channels[c], log, c, before[i], after[i]) {
      ReadOne(integer, before, refs, i);
      ReadOne(integer, after, resolved, i);
      ModelBecomes(integer, cfg.channels[c], log, c, before[i], after[i], refs[i]);
    }
    KeyIs(cfg.specs[c]);
    assert ModelsFollow(integer, root, next, cfg.channels[c], cfg.specs[c], log, c, k, before, after);
  }

  lemma KeyIs(spec: ChannelSpec)
    ensures RootKey(spec) == if spec.OpenAi? then "openai-compatibility" else "claude-api-key"
  {
  }

  lemma SnapshotOf(reader: Reader, integer: IntegerReader, root: Tree, cfg: MetadataOutcome.Configured, c: nat)
    requires FineTree(root) && FoundAt(reader, root, cfg, c) && ModelsOf(reader, integer, root, cfg, c).Some?
    ensures ModelsAt(root, RootKey(cfg.specs[c]), PlaceOf(reader, root, cfg, c), ModelNodes(reader, root, cfg, c))
    ensures Snapshot(integer, ModelNodes(reader, root, cfg, c)) == ModelsOf(reader, integer, root, cfg, c)
  {
    FoundModels(reader, integer, root, cfg, c);
    hide Snapshot, FineTree;
  }

  lemma ModelsFine(root: Tree, key: string, k: nat, models: seq<Tree>)
    requires FineTree(root) && ModelsAt(root, key, k, models)
    ensures forall i :: 0 <= i < |models| ==> FineTree(models[i])
  {
    ChannelsFine(root, key);
    var channel := Channels(root, key)[k];
    ValueFine(channel, "models");
    ChildrenFine(ValueOf(channel, "models").value);
  }

  lemma ReadOne(integer: IntegerReader, models: seq<Tree>, refs: seq<ModelRef>, i: nat)
    requires Snapshot(integer, models) == Some(refs) && i < |models|
    ensures |refs| == |models| && ReadModel(integer, models[i]) == Some(refs[i])
  {
    hide ReadModel;
  }

  lemma PublicCatalogs(env: R.Environment, log: R.Log, results: seq<R.ChannelResult>, c: nat)
    requires R.Complete(env, log, results) && c < |env.channels| && env.channels[c].enabled
    ensures R.Uses(env.channels[c], false) ==> R.ModelparamsOf(log).Some?
    ensures R.Uses(env.channels[c], true) ==> R.ModelsdevOf(log).Some?
  {
    hide R.Uses;
  }

  /** So a context length on a page of the provider arrives in the document, when nothing else supplies one. */
  lemma ContextFromPage(integer: IntegerReader, channel: R.Channel, log: R.Log, c: nat, before: Tree, after: Tree, name: string, i: int)
    requires FineTree(before) && Becomes(integer, channel, log, c, before, after) && TextAt(before, "name", name)
    requires channel.upstreamMeta && PageHas(log, i, c, name) && forall k :: i < k ==> !PageHas(log, k, c, name)
    requires log[i].content.entries[name].context > 0 && !HasKey(before, "max-context-length")
    requires name in channel.overrides ==> channel.overrides[name].values.maxContext == 0
    ensures NumberAt(integer, after, "max-context-length", log[i].content.entries[name].context)
  {
    var was, now, sources :| IsModel(integer, before, was) && IsModel(integer, after, now)
      && SourcesFor(channel, log, c, was.name, sources) && Follows(was, now, sources);
    TextReads(before, "name", name);
    TextReads(before, "name", was.name);
    assert was.name == name && was.maxContext == 0;
    hide ReadingFor, ThinkingFollows, InputsFollow, OutputsFollow, OutputLimitFollows, LevelsAt, ListAt, TextAt, FineTree, HasKey;
    assert sources.upstream == log[i].content.entries[name];
  }
}
