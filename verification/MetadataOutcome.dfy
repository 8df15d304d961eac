/** What a finished metadata run proposes: its results apply to the snapshot they were planned from, the
    check accepts the proposal as far as it accepts the fields, and every enabled channel of the proposed
    document reads as direct enrichment of its original models. */
module MetadataOutcome {
  import opened Options
  import opened YamlGraph
  import opened YamlTree
  import opened YamlChannels
  import opened MetadataEdit
  import opened MetadataEnrich
  import opened MetadataReadBack
  import opened MetadataPlanner
  import opened MetadataProposal
  import opened MetadataSnapshot
  import opened OwnershipCheck
  import GO = GraphOutcome
  import GP = GraphProposal
  import R = MetadataRun
  import WriterTypes

  /** The configured channels and what they are called in the document. */
  datatype Configured = Configured(channels: seq<R.Channel>, specs: seq<ChannelSpec>)

  ghost predicate Proper(cfg: Configured) {
    && |cfg.specs| == |cfg.channels|
    && (forall i, j :: 0 <= i < j < |cfg.specs| ==> cfg.specs[i] != cfg.specs[j])
  }

  ghost predicate FoundAt(reader: Reader, root: Tree, cfg: Configured, c: nat) {
    c < |cfg.specs| && exists k: nat :: Finds(reader, root, cfg.specs[c], k)
  }

  ghost function PlaceOf(reader: Reader, root: Tree, cfg: Configured, c: nat): (k: nat)
    requires FoundAt(reader, root, cfg, c)
    ensures Finds(reader, root, cfg.specs[c], k)
  {
    var k: nat :| Finds(reader, root, cfg.specs[c], k);
    k
  }

  /** The models of a found channel. */
  ghost function ModelNodes(reader: Reader, root: Tree, cfg: Configured, c: nat): seq<Tree>
    requires FoundAt(reader, root, cfg, c)
  {
    Models(Channels(root, RootKey(cfg.specs[c]))[PlaceOf(reader, root, cfg, c)])
  }

  ghost function ModelsOf(reader: Reader, integer: IntegerReader, root: Tree, cfg: Configured, c: nat): Option<seq<ModelRef>> {
    if FoundAt(reader, root, cfg, c) then Snapshot(integer, ModelNodes(reader, root, cfg, c)) else None
  }

  /** The snapshot as the run sees it: which channels are in it, and what their models read. */
  ghost function EnvironmentOf(reader: Reader, integer: IntegerReader, root: Tree, cfg: Configured): R.Environment {
    R.Environment(cfg.channels, (c: nat) => FoundAt(reader, root, cfg, c), (c: nat) => ModelsOf(reader, integer, root, cfg, c))
  }

  /** The results of a run as the edit takes them. */
  function PlanOf(cfg: Configured, results: seq<R.ChannelResult>): (plan: seq<ChannelPlan>)
    requires forall i :: 0 <= i < |results| ==> results[i].channel < |cfg.specs|
    ensures |plan| == |results|
    ensures forall i :: 0 <= i < |results| ==> plan[i] == ChannelPlan(cfg.specs[results[i].channel], results[i].patches)
  {
    seq(|results|, i requires 0 <= i < |results| => ChannelPlan(cfg.specs[results[i].channel], results[i].patches))
  }

  // ---------- one pass, entry by entry ----------

  /** Result i is that of channel c. */
  ghost predicate ResultOf(env: R.Environment, log: R.Log, results: seq<R.ChannelResult>, mp: Option<R.Catalog>, md: Option<R.Catalog>, i: int, c: nat) {
    && 0 <= i < |results| && c < |env.channels| && env.channels[c].enabled && env.models(c).Some?
    && results[i] == R.Direct(env, c, R.UpstreamOf(log, c), mp, md)
  }

  ghost predicate OneEach(env: R.Environment, log: R.Log, results: seq<R.ChannelResult>, mp: Option<R.Catalog>, md: Option<R.Catalog>, n: nat) {
    && (forall i :: 0 <= i < |results| ==> ResultOf(env, log, results, mp, md, i, results[i].channel) && results[i].channel < n)
    && (forall i, j :: 0 <= i < j < |results| ==> results[i].channel < results[j].channel)
    && (forall c :: 0 <= c < n <= |env.channels| && env.channels[c].enabled ==> HasResultOf(env, log, results, mp, md, c))
  }

  ghost predicate HasResultOf(env: R.Environment, log: R.Log, results: seq<R.ChannelResult>, mp: Option<R.Catalog>, md: Option<R.Catalog>, c: nat) {
    exists i :: ResultOf(env, log, results, mp, md, i, c)
  }

  lemma {:induction false} OneShotIsOneEach(env: R.Environment, log: R.Log, n: nat, mp: Option<R.Catalog>, md: Option<R.Catalog>)
    requires R.Readable(env, n)
    ensures OneEach(env, log, R.OneShot(env, log, n, mp, md), mp, md, n)
  {
    hide R.Direct;
    if n > 0 {
      OneShotIsOneEach(env, log, n - 1, mp, md);
      var before := R.OneShot(env, log, n - 1, mp, md);
      if env.channels[n - 1].enabled {
        OneMore(env, log, before, mp, md, n - 1);
      }
    }
  }

  lemma OneMore(env: R.Environment, log: R.Log, before: seq<R.ChannelResult>, mp: Option<R.Catalog>, md: Option<R.Catalog>, n: nat)
    requires OneEach(env, log, before, mp, md, n) && n < |env.channels| && env.channels[n].enabled && env.models(n).Some?
    ensures OneEach(env, log, before + [R.Direct(env, n, R.UpstreamOf(log, n), mp, md)], mp, md, n + 1)
  {
    var last := R.Direct(env, n, R.UpstreamOf(log, n), mp, md);
    var all := before + [last];
    assert last.channel == n;
    assert ResultOf(env, log, all, mp, md, |before|, n);
    forall i, c {
      ResultStays(env, log, before, last, mp, md, i, c);
    }
    hide R.Direct, ResultOf, HasResultOf;
    forall i | 0 <= i < |before| ensures all[i] == before[i] && ResultOf(env, log, all, mp, md, i, before[i].channel) && before[i].channel < n {
      assert ResultOf(env, log, before, mp, md, i, before[i].channel);
    }
    forall c | 0 <= c <= n && env.channels[c].enabled ensures HasResultOf(env, log, all, mp, md, c) {
      if c < n {
        Stays(env, log, before, all, mp, md, c);
      } else {
        Last(env, log, all, mp, md, |before|, n);
      }
    }
  }

  lemma ResultStays(env: R.Environment, log: R.Log, before: seq<R.ChannelResult>, last: R.ChannelResult, mp: Option<R.Catalog>, md: Option<R.Catalog>, i: int, c: nat)
    ensures ResultOf(env, log, before, mp, md, i, c) ==> ResultOf(env, log, before + [last], mp, md, i, c)
  {
    hide R.Direct;
  }

  lemma Stays(env: R.Environment, log: R.Log, before: seq<R.ChannelResult>, all: seq<R.ChannelResult>, mp: Option<R.Catalog>, md: Option<R.Catalog>, c: nat)
    requires HasResultOf(env, log, before, mp, md, c)
    requires forall i :: ResultOf(env, log, before, mp, md, i, c) ==> ResultOf(env, log, all, mp, md, i, c)
    ensures HasResultOf(env, log, all, mp, md, c)
  {
    hide ResultOf;
    var i :| ResultOf(env, log, before, mp, md, i, c);
    assert ResultOf(env, log, all, mp, md, i, c);
  }

  lemma Last(env: R.Environment, log: R.Log, all: seq<R.ChannelResult>, mp: Option<R.Catalog>, md: Option<R.Catalog>, i: int, c: nat)
    requires ResultOf(env, log, all, mp, md, i, c)
    ensures HasResultOf(env, log, all, mp, md, c)
  {
  }

  // ---------- a result applies ----------

  lemma FoundModels(reader: Reader, integer: IntegerReader, root: Tree, cfg: Configured, c: nat)
    requires FineTree(root) && FoundAt(reader, root, cfg, c)
    ensures var key, k := RootKey(cfg.specs[c]), PlaceOf(reader, root, cfg, c);
      HasChannels(root, key) && k < |Channels(root, key)| && HasModels(Channels(root, key)[k])
    ensures ExactlyNamed(ModelNodes(reader, root, cfg, c))
    ensures forall m :: 0 <= m < |ModelNodes(reader, root, cfg, c)| ==> Editable(ModelNodes(reader, root, cfg, c)[m])
  {
    FoundChannel(reader, root, cfg.specs[c], PlaceOf(reader, root, cfg, c));
    hide Editable, ExactlyNamed;
  }

  /** The patches planned for a channel apply where the channel is found. */
  lemma ResultApplies(reader: Reader, integer: IntegerReader, root: Tree, cfg: Configured, c: nat, upstream: R.Entries,
      mp: Option<R.Catalog>, md: Option<R.Catalog>)
    requires FineTree(root) && ReadsDecimals(integer) && c < |cfg.channels| && ModelsOf(reader, integer, root, cfg, c).Some?
    ensures var patches := R.Patches(ModelsOf(reader, integer, root, cfg, c).value, cfg.channels[c], upstream, mp, md);
      && DistinctPatches(patches)
      && AppliesTo(reader, root, ChannelPlan(cfg.specs[c], patches), PlaceOf(reader, root, cfg, c))
  {
    FoundModels(reader, integer, root, cfg, c);
    hide ExactlyNamed, Editable, Snapshot, Finds, FineTree, R.Patches;
    ChannelReadsBack(integer, ModelNodes(reader, root, cfg, c), ModelsOf(reader, integer, root, cfg, c).value, cfg.channels[c], upstream, mp, md);
  }

  ghost predicate FetchNeeded(reader: Reader, integer: IntegerReader, root: Tree, cfg: Configured) {
    R.FetchNeeded(EnvironmentOf(reader, integer, root, cfg))
  }

  /** Every result of a finished run applies to the snapshot, so finishing the plan never fails: what one
      pass computes is a plan the edit takes. Only a run without a fetch hands over nothing. */
  lemma FinishedRunApplies(reader: Reader, integer: IntegerReader, root: Tree, cfg: Configured, replies: seq<R.Reply>)
    requires FineTree(root) && root.shell.kind == MappingNode && Proper(cfg) && ReadsDecimals(integer)
    requires R.Run(EnvironmentOf(reader, integer, root, cfg), replies).Finished?
    ensures var env := EnvironmentOf(reader, integer, root, cfg);
      var results, log := R.Run(env, replies).results, R.LogOf(env, replies);
      && (if R.FetchNeeded(env) then OneEach(env, log, results, R.ModelparamsOf(log), R.ModelsdevOf(log), |cfg.channels|) else results == [])
      && DistinctSpecs(PlanOf(cfg, results))
      && (forall i :: 0 <= i < |results| ==> Applies(reader, root, PlanOf(cfg, results)[i]))
  {
    var env := EnvironmentOf(reader, integer, root, cfg);
    var results, log := R.Run(env, replies).results, R.LogOf(env, replies);
    hide R.Run, R.LogOf, OneEach, R.OneShot, FineTree, R.FetchNeeded, Applies, DistinctSpecs, R.ModelparamsOf, R.ModelsdevOf;
    if R.FetchNeeded(env) {
      R.ResumedEqualsOneShot(env, replies);
      OneShotIsOneEach(env, log, |cfg.channels|, R.ModelparamsOf(log), R.ModelsdevOf(log));
      OneEachApplies(reader, integer, root, cfg, log, results, R.ModelparamsOf(log), R.ModelsdevOf(log));
    } else {
      R.OnePassExactly(env, replies);
      NoSpecs(cfg);
    }
  }

  lemma NoSpecs(cfg: Configured)
    ensures DistinctSpecs(PlanOf(cfg, []))
  {
  }

  lemma OneEachApplies(reader: Reader, integer: IntegerReader, root: Tree, cfg: Configured, log: R.Log, results: seq<R.ChannelResult>,
      mp: Option<R.Catalog>, md: Option<R.Catalog>)
    requires FineTree(root) && root.shell.kind == MappingNode && Proper(cfg) && ReadsDecimals(integer)
    requires OneEach(EnvironmentOf(reader, integer, root, cfg), log, results, mp, md, |cfg.channels|)
    ensures DistinctSpecs(PlanOf(cfg, results))
    ensures forall i :: 0 <= i < |results| ==> Applies(reader, root, PlanOf(cfg, results)[i])
  {
    var env := EnvironmentOf(reader, integer, root, cfg);
    hide FineTree, DistinctPatches, FoundAt, ModelsOf, AppliesTo, R.Patches;
    forall i | 0 <= i < |results|
      ensures DistinctPatches(results[i].patches) && Applies(reader, root, PlanOf(cfg, results)[i])
    {
      var c := results[i].channel;
      assert ResultOf(env, log, results, mp, md, i, c);
      assert env.models(c) == ModelsOf(reader, integer, root, cfg, c);
      FoundIfRead(reader, integer, root, cfg, c);
      ResultApplies(reader, integer, root, cfg, c, R.UpstreamOf(log, c), mp, md);
      assert AppliesTo(reader, root, PlanOf(cfg, results)[i], PlaceOf(reader, root, cfg, c));
    }
  }

  lemma FoundIfRead(reader: Reader, integer: IntegerReader, root: Tree, cfg: Configured, c: nat)
    ensures ModelsOf(reader, integer, root, cfg, c).Some? ==> FoundAt(reader, root, cfg, c)
  {
  }

  /** The end of a run: the edit of the whole document succeeds, and says truly whether anything changed. */
  method FinishPlan(reader: Reader, root: Tree, cfg: Configured, results: seq<R.ChannelResult>, ghost integer: IntegerReader, ghost replies: seq<R.Reply>)
    returns (next: Tree, changed: bool, ghost places: seq<nat>)
    requires FineTree(root) && root.shell.kind == MappingNode && Proper(cfg) && ReadsDecimals(integer)
    requires R.Run(EnvironmentOf(reader, integer, root, cfg), replies) == R.Finished(results)
    requires forall j :: 0 <= j < |results| ==> results[j].channel < |cfg.specs|
    ensures |places| == |results| && AllFound(reader, root, PlanOf(cfg, results), places) && Edited(root, next, PlanOf(cfg, results), places)
    ensures changed <==> next != root
  {
    FinishedRunApplies(reader, integer, root, cfg, replies);
    hide FineTree, R.Run, Applies, AppliesTo, Edited, AllFound, Differs;
    var applied;
    applied, changed, places := ApplyMetadata(reader, root, PlanOf(cfg, results));
    next := applied.value;
    VerdictsAgree(reader, root, next, PlanOf(cfg, results), places);
  }

  // ---------- the proposed document ----------

  /** Where the edit put result i is where its channel is found. */
  lemma PlacesAgree(reader: Reader, root: Tree, cfg: Configured, results: seq<R.ChannelResult>, places: seq<nat>, i: nat)
    requires forall j :: 0 <= j < |results| ==> results[j].channel < |cfg.specs|
    requires i < |places| == |results| && AllFound(reader, root, PlanOf(cfg, results), places)
    ensures FoundAt(reader, root, cfg, results[i].channel) && places[i] == PlaceOf(reader, root, cfg, results[i].channel)
  {
    var spec := cfg.specs[results[i].channel];
    assert Finds(reader, root, PlanOf(cfg, results)[i].spec, places[i]);
    hide Finds;
    FindsOne(reader, root, spec, places[i], PlaceOf(reader, root, cfg, results[i].channel));
  }

  /** The models of channel k under this root key, if there is one. */
  predicate ModelsAt(root: Tree, key: string, k: nat, models: seq<Tree>) {
    && HasChannels(root, key) && k < |Channels(root, key)| && HasModels(Channels(root, key)[k])
    && Models(Channels(root, key)[k]) == models
  }

  lemma EditedModels(root: Tree, next: Tree, plan: seq<ChannelPlan>, places: seq<nat>, i: nat, models: seq<Tree>)
    requires Edited(root, next, plan, places) && i < |places| <= |plan|
    requires ModelsAt(root, RootKey(plan[i].spec), places[i], models) && AllPatched(models, plan[i].patches)
    ensures ModelsAt(next, RootKey(plan[i].spec), places[i], PatchedModels(models, plan[i].patches))
  {
    var key, k := RootKey(plan[i].spec), places[i];
    EditedKeys(root, next, plan, places, key);
    assert PlacedAt(plan, places, key, k, i);
    var channel := Channels(root, key)[k];
    SetModelsModels(channel, PatchedModels(models, plan[i].patches));
    hide Edited, SetModels, ValueOf, AllPatched;
  }

  /** Read-back of the proposal: in the edited document every enabled channel reads, in the order of its
      models, what direct enrichment makes of the models it had, and in each model only the values of
      changed fields have moved. */
  lemma FinishedRunReadsBack(reader: Reader, integer: IntegerReader, root: Tree, cfg: Configured, replies: seq<R.Reply>,
      next: Tree, places: seq<nat>, c: nat)
    requires FineTree(root) && root.shell.kind == MappingNode && Proper(cfg) && ReadsDecimals(integer)
    requires R.Run(EnvironmentOf(reader, integer, root, cfg), replies).Finished?
    requires var results := R.Run(EnvironmentOf(reader, integer, root, cfg), replies).results;
      && (forall j :: 0 <= j < |results| ==> results[j].channel < |cfg.specs|)
      && |places| == |results| && AllFound(reader, root, PlanOf(cfg, results), places) && Edited(root, next, PlanOf(cfg, results), places)
    requires c < |cfg.channels| && cfg.channels[c].enabled && FetchNeeded(reader, integer, root, cfg)
    ensures FoundAt(reader, root, cfg, c) && ModelsOf(reader, integer, root, cfg, c).Some?
    ensures var log := R.LogOf(EnvironmentOf(reader, integer, root, cfg), replies);
      var before, refs := ModelNodes(reader, root, cfg, c), ModelsOf(reader, integer, root, cfg, c).value;
      var resolved := EnrichedAll(refs, cfg.channels[c], R.UpstreamOf(log, c), R.ModelparamsOf(log), R.ModelsdevOf(log));
      exists after ::
        && ModelsAt(next, RootKey(cfg.specs[c]), PlaceOf(reader, root, cfg, c), after) && |after| == |before| == |refs|
        && Snapshot(integer, after) == Some(resolved)
        && forall k :: 0 <= k < |before| ==> EditedInPlace(before[k], after[k], ChangedKeys(refs[k], resolved[k]))
  {
    var env := EnvironmentOf(reader, integer, root, cfg);
    var results, log := R.Run(env, replies).results, R.LogOf(env, replies);
    var mp, md := R.ModelparamsOf(log), R.ModelsdevOf(log);
    FinishedRunApplies(reader, integer, root, cfg, replies);
    hide DistinctSpecs, Applies, Edited, AllFound, FineTree, ModelsOf, FoundAt, EditedInPlace, Snapshot, ChangedKeys, R.Run, R.LogOf;
    assert HasResultOf(env, log, results, mp, md, c);
    var i :| ResultOf(env, log, results, mp, md, i, c);
    FoundIfRead(reader, integer, root, cfg, c);
    PlacesAgree(reader, root, cfg, results, places, i);
    assert env.models(c) == ModelsOf(reader, integer, root, cfg, c);
    ChannelOutcome(reader, integer, root, cfg, results, next, places, i, c, R.UpstreamOf(log, c), mp, md);
  }

  lemma ChannelOutcome(reader: Reader, integer: IntegerReader, root: Tree, cfg: Configured, results: seq<R.ChannelResult>,
      next: Tree, places: seq<nat>, i: nat, c: nat, upstream: R.Entries, mp: Option<R.Catalog>, md: Option<R.Catalog>)
    requires FineTree(root) && ReadsDecimals(integer) && Proper(cfg)
    requires forall j :: 0 <= j < |results| ==> results[j].channel < |cfg.specs|
    requires Edited(root, next, PlanOf(cfg, results), places) && i < |places| == |results| && results[i].channel == c
    requires ModelsOf(reader, integer, root, cfg, c).Some? && FoundAt(reader, root, cfg, c) && places[i] == PlaceOf(reader, root, cfg, c)
    requires results[i].patches == R.Patches(ModelsOf(reader, integer, root, cfg, c).value, cfg.channels[c], upstream, mp, md)
    ensures var before, refs := ModelNodes(reader, root, cfg, c), ModelsOf(reader, integer, root, cfg, c).value;
      var resolved := EnrichedAll(refs, cfg.channels[c], upstream, mp, md);
      exists after ::
        && ModelsAt(next, RootKey(cfg.specs[c]), PlaceOf(reader, root, cfg, c), after) && |after| == |before| == |refs|
        && Snapshot(integer, after) == Some(resolved)
        && forall k :: 0 <= k < |before| ==> EditedInPlace(before[k], after[k], ChangedKeys(refs[k], resolved[k]))
  {
    FoundModels(reader, integer, root, cfg, c);
    var before, refs := ModelNodes(reader, root, cfg, c), ModelsOf(reader, integer, root, cfg, c).value;
    SnapshotNames(integer, before, refs);
    hide ExactlyNamed, Editable, Snapshot, Finds, FineTree, R.Patches, EditedInPlace, ChangedKeys, Edited;
    ChannelReadsBack(integer, before, refs, cfg.channels[c], upstream, mp, md);
    EditedModels(root, next, PlanOf(cfg, results), places, i, before);
    assert ModelsAt(next, RootKey(cfg.specs[c]), PlaceOf(reader, root, cfg, c), PatchedModels(before, results[i].patches));
  }

  /** Read-back, exactly: a channel of the proposal reads as direct enrichment of its original models if and
      only if something was fetched in the run or enrichment changes none of them. */
  lemma ReadsBackExactly(reader: Reader, integer: IntegerReader, root: Tree, cfg: Configured, replies: seq<R.Reply>,
      next: Tree, places: seq<nat>, c: nat)
    requires FineTree(root) && root.shell.kind == MappingNode && Proper(cfg) && ReadsDecimals(integer)
    requires R.Run(EnvironmentOf(reader, integer, root, cfg), replies).Finished?
    requires var results := R.Run(EnvironmentOf(reader, integer, root, cfg), replies).results;
      && (forall j :: 0 <= j < |results| ==> results[j].channel < |cfg.specs|)
      && |places| == |results| && AllFound(reader, root, PlanOf(cfg, results), places) && Edited(root, next, PlanOf(cfg, results), places)
    requires c < |cfg.channels| && cfg.channels[c].enabled
    ensures FoundAt(reader, root, cfg, c) && ModelsOf(reader, integer, root, cfg, c).Some?
    ensures var log := R.LogOf(EnvironmentOf(reader, integer, root, cfg), replies);
      var refs := ModelsOf(reader, integer, root, cfg, c).value;
      var resolved := EnrichedAll(refs, cfg.channels[c], R.UpstreamOf(log, c), R.ModelparamsOf(log), R.ModelsdevOf(log));
      ReadsAs(integer, next, RootKey(cfg.specs[c]), PlaceOf(reader, root, cfg, c), resolved) <==>
        FetchNeeded(reader, integer, root, cfg) || resolved == refs
  {
    var env := EnvironmentOf(reader, integer, root, cfg);
    hide FineTree, Edited, AllFound, R.Run, R.LogOf, Snapshot, EnrichedAll, R.FetchNeeded, R.Complete;
    if FetchNeeded(reader, integer, root, cfg) {
      FinishedRunReadsBack(reader, integer, root, cfg, replies, next, places, c);
    } else {
      R.OnePassExactly(env, replies);
      UnfetchedChannel(reader, integer, root, cfg, c, R.Advance(env, R.START).results);
      FoundModels(reader, integer, root, cfg, c);
      VerdictsAgree(reader, root, next, PlanOf(cfg, []), places);
    }
  }

  /** The channel found here reads so. */
  ghost predicate ReadsAs(integer: IntegerReader, root: Tree, key: string, k: nat, refs: seq<ModelRef>) {
    exists models :: ModelsAt(root, key, k, models) && Snapshot(integer, models) == Some(refs)
  }

  lemma UnfetchedChannel(reader: Reader, integer: IntegerReader, root: Tree, cfg: Configured, c: nat, results: seq<R.ChannelResult>)
    requires R.Complete(EnvironmentOf(reader, integer, root, cfg), [], results)
    requires c < |cfg.channels| && cfg.channels[c].enabled
    ensures FoundAt(reader, root, cfg, c) && ModelsOf(reader, integer, root, cfg, c).Some?
  {
    hide R.OneShot;
    var env := EnvironmentOf(reader, integer, root, cfg);
    assert env.models(c) == ModelsOf(reader, integer, root, cfg, c);
  }

  // ---------- a run that changes nothing ----------

  /** Nothing was fetched, or enrichment leaves every enabled channel as it is. */
  ghost predicate NothingToChange(reader: Reader, integer: IntegerReader, root: Tree, cfg: Configured, log: R.Log) {
    || !FetchNeeded(reader, integer, root, cfg)
    || forall c :: 0 <= c < |cfg.channels| && cfg.channels[c].enabled ==> Unchanged(reader, integer, root, cfg, log, c)
  }

  ghost predicate Unchanged(reader: Reader, integer: IntegerReader, root: Tree, cfg: Configured, log: R.Log, c: nat)
    requires c < |cfg.channels|
  {
    var refs := ModelsOf(reader, integer, root, cfg, c);
    refs.Some? ==>
      EnrichedAll(refs.value, cfg.channels[c], R.UpstreamOf(log, c), R.ModelparamsOf(log), R.ModelsdevOf(log)) == refs.value
  }

  lemma NoDifference(model: ModelRef, sources: Sources)
    requires Enriched(model, sources) == model
    ensures R.PatchFor(model, sources) == map[]
  {
    hide Resolved, Enriched, Get;
    var states := R.StatesOf(model, sources);
    forall field ensures StateOf(states, field) == Resolved(model, sources, field) {
      var n := FieldHasPlace(field);
    }
    PatchIsTheDifference(model, sources, states);
  }

  lemma {:induction false} NothingPatched(refs: seq<ModelRef>, channel: R.Channel, upstream: R.Entries, mp: Option<R.Catalog>, md: Option<R.Catalog>)
    requires EnrichedAll(refs, channel, upstream, mp, md) == refs
    ensures R.Patches(refs, channel, upstream, mp, md) == []
    decreases |refs|
  {
    hide Enriched, R.PatchFor, R.SourcesOf, R.Patches;
    if refs != [] {
      var rest, last := refs[..|refs| - 1], refs[|refs| - 1];
      assert EnrichedAll(rest, channel, upstream, mp, md) == rest;
      NothingPatched(rest, channel, upstream, mp, md);
      NoDifference(last, R.SourcesOf(channel, upstream, mp, md, last.name));
      PatchesNext(refs, channel, upstream, mp, md);
    } else {
      NoModels(channel, upstream, mp, md);
    }
  }

  lemma NoModels(channel: R.Channel, upstream: R.Entries, mp: Option<R.Catalog>, md: Option<R.Catalog>)
    ensures R.Patches([], channel, upstream, mp, md) == []
  {
  }

  lemma NoPatchesNoMove(root: Tree, plan: ChannelPlan, k: nat)
    requires plan.patches == []
    ensures !Moves(root, plan, k)
  {
    hide ExactName, SetModels;
    if HasChannels(root, RootKey(plan.spec)) && k < |Channels(root, RootKey(plan.spec))| {
      var channel := Channels(root, RootKey(plan.spec))[k];
      if ChannelPatched(channel, []) {
        assert PatchedModels(Models(channel), []) == Models(channel);
        SameModels(channel, Models(channel));
      }
    }
  }

  lemma NothingMoved(reader: Reader, integer: IntegerReader, root: Tree, cfg: Configured, log: R.Log, results: seq<R.ChannelResult>, places: seq<nat>)
    requires NothingToChange(reader, integer, root, cfg, log)
    requires (forall j :: 0 <= j < |results| ==> results[j].channel < |cfg.specs|) && |cfg.specs| == |cfg.channels|
    requires if FetchNeeded(reader, integer, root, cfg) then
        OneEach(EnvironmentOf(reader, integer, root, cfg), log, results, R.ModelparamsOf(log), R.ModelsdevOf(log), |cfg.channels|)
      else results == []
    ensures !Differs(root, PlanOf(cfg, results), places)
  {
    hide R.FetchNeeded, OneEach, Unchanged, Moves;
    forall i | 0 <= i < |results| && i < |places| ensures !Moves(root, PlanOf(cfg, results)[i], places[i]) {
      ResultUnchanged(reader, integer, root, cfg, log, results, i);
      NoPatchesNoMove(root, PlanOf(cfg, results)[i], places[i]);
    }
  }

  /** What a finished run proposes is the document it was given exactly when there was nothing to change. */
  lemma UnchangedExactly(reader: Reader, integer: IntegerReader, root: Tree, cfg: Configured, replies: seq<R.Reply>,
      next: Tree, places: seq<nat>)
    requires FineTree(root) && root.shell.kind == MappingNode && Proper(cfg) && ReadsDecimals(integer)
    requires R.Run(EnvironmentOf(reader, integer, root, cfg), replies).Finished?
    requires var results := R.Run(EnvironmentOf(reader, integer, root, cfg), replies).results;
      && (forall j :: 0 <= j < |results| ==> results[j].channel < |cfg.specs|)
      && |places| == |results| && AllFound(reader, root, PlanOf(cfg, results), places) && Edited(root, next, PlanOf(cfg, results), places)
    ensures next == root <==> NothingToChange(reader, integer, root, cfg, R.LogOf(EnvironmentOf(reader, integer, root, cfg), replies))
  {
    var env := EnvironmentOf(reader, integer, root, cfg);
    var results, log := R.Run(env, replies).results, R.LogOf(env, replies);
    FinishedRunApplies(reader, integer, root, cfg, replies);
    hide FineTree, Edited, AllFound, R.Run, R.LogOf, Snapshot, EnrichedAll, R.FetchNeeded, DistinctSpecs, Applies, OneEach, Unchanged, Differs;
    VerdictsAgree(reader, root, next, PlanOf(cfg, results), places);
    if NothingToChange(reader, integer, root, cfg, log) {
      NothingMoved(reader, integer, root, cfg, log, results, places);
    } else if next == root {
      forall c | 0 <= c < |cfg.channels| && cfg.channels[c].enabled ensures Unchanged(reader, integer, root, cfg, log, c) {
        FinishedRunReadsBack(reader, integer, root, cfg, replies, next, places, c);
        hide FoundAt, ModelsOf, ModelsAt;
        ReadsAsItself(reader, integer, root, cfg, log, c);
      }
    }
  }

  lemma ResultUnchanged(reader: Reader, integer: IntegerReader, root: Tree, cfg: Configured, log: R.Log, results: seq<R.ChannelResult>, i: nat)
    requires OneEach(EnvironmentOf(reader, integer, root, cfg), log, results, R.ModelparamsOf(log), R.ModelsdevOf(log), |cfg.channels|)
    requires i < |results| && results[i].channel < |cfg.channels|
    requires forall c :: 0 <= c < |cfg.channels| && cfg.channels[c].enabled ==> Unchanged(reader, integer, root, cfg, log, c)
    ensures results[i].patches == []
  {
    var env, c := EnvironmentOf(reader, integer, root, cfg), results[i].channel;
    assert ResultOf(env, log, results, R.ModelparamsOf(log), R.ModelsdevOf(log), i, c);
    assert env.models(c) == ModelsOf(reader, integer, root, cfg, c);
    hide EnrichedAll, R.Patches, ModelsOf, R.ModelparamsOf, R.ModelsdevOf, R.UpstreamOf;
    assert Unchanged(reader, integer, root, cfg, log, c);
    NothingPatched(env.models(c).value, cfg.channels[c], R.UpstreamOf(log, c), R.ModelparamsOf(log), R.ModelsdevOf(log));
  }

  lemma ReadsAsItself(reader: Reader, integer: IntegerReader, root: Tree, cfg: Configured, log: R.Log, c: nat)
    requires c < |cfg.channels| && c < |cfg.specs| && FoundAt(reader, root, cfg, c)
    requires var refs := ModelsOf(reader, integer, root, cfg, c); refs.Some? ==>
      exists after :: ModelsAt(root, RootKey(cfg.specs[c]), PlaceOf(reader, root, cfg, c), after)
        && Snapshot(integer, after) == Some(EnrichedAll(refs.value, cfg.channels[c], R.UpstreamOf(log, c), R.ModelparamsOf(log), R.ModelsdevOf(log)))
    ensures Unchanged(reader, integer, root, cfg, log, c)
  {
    hide Snapshot, EnrichedAll;
  }

  // ---------- the check ----------

  /** The check takes the document a finished run proposes exactly when it would take the base unchanged, every
      field that has to change is one it takes for owned, and there was nothing to change or nothing but the
      channels leads back to the root. */
  lemma FinishedRunMeetsCheck(g: Graph, document: NodeId, proposal: NodeId, f: map<NodeId, NodeId>, p: Tree,
      reader: Reader, integer: IntegerReader, root: Tree, cfg: Configured, replies: seq<R.Reply>, next: Tree, places: seq<nat>)
    requires FineTree(root) && root.shell.kind == MappingNode && Proper(cfg) && ReadsDecimals(integer)
    requires R.Run(EnvironmentOf(reader, integer, root, cfg), replies).Finished?
    requires var results := R.Run(EnvironmentOf(reader, integer, root, cfg), replies).results;
      && (forall j :: 0 <= j < |results| ==> results[j].channel < |cfg.specs|)
      && |places| == |results| && AllFound(reader, root, PlanOf(cfg, results), places) && Edited(root, next, PlanOf(cfg, results), places)
    requires GO.ProposalOf(g, WriterTypes.MetadataSync, document, proposal, root, next, p, f)
    ensures var env := EnvironmentOf(reader, integer, root, cfg);
      GO.Accepts(g, WriterTypes.MetadataSync, document, proposal, root, p) <==>
        && GO.Accepts(g, WriterTypes.MetadataSync, document, document, root, root)
        && EditsAllowed(root, PlanOf(cfg, R.Run(env, replies).results), places)
        && (NothingToChange(reader, integer, root, cfg, R.LogOf(env, replies))
            || !GP.SelfRefers(g, WriterTypes.MetadataSync, g[document].content[0].value, root))
  {
    hide Edited, AllFound, EditsAllowed, FineTree, R.Run, R.LogOf, GO.Accepts, GP.SelfRefers, NothingToChange;
    var plan := PlanOf(cfg, R.Run(EnvironmentOf(reader, integer, root, cfg), replies).results);
    UnchangedExactly(reader, integer, root, cfg, replies, next, places);
    GO.MetadataProposalAccepted(g, document, proposal, reader, root, next, p, plan, places, f);
  }
}
