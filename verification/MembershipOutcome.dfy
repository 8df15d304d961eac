/** What a finished membership run proposes, from its configuration, its catalogs and its snapshot alone: which
    channels it edits, and which models it puts there. */
module MembershipOutcome {
  import opened Options
  import opened YamlGraph
  import opened YamlTree
  import opened YamlChannels
  import opened ChannelText
  import opened MembershipPlanner
  import opened MembershipProposal
  import opened MembershipRun
  import opened OwnershipRules

  // ---------- what is proposed ----------

  /** The model of this name stays the node it is; a name without a model gets a bare one. */
  ghost predicate ModelFor(models: seq<Tree>, name: string, model: Tree) {
    || (model in models && TrimmedText(model, name))
    || ((forall k :: 0 <= k < |models| ==> !TrimmedText(models[k], name)) && BareModel(model, name))
  }

  /** The models for the wanted identifiers, in the order of the catalog. */
  ghost predicate ListsWanted(models: seq<Tree>, next: seq<Tree>, channel: Channel, ids: seq<string>, places: seq<nat>) {
    && Places(ids, channel, places) && |next| == |places|
    && forall j :: 0 <= j < |places| ==> places[j] < |ids| && ModelFor(models, ids[places[j]], next[j])
  }

  ghost predicate ListProposed(before: Tree, after: Tree, channel: Channel, ids: seq<string>) {
    && before.shell.kind == SequenceNode && SameProperties(before, after)
    && exists places :: ListsWanted(before.content, after.content, channel, ids, places)
  }

  /** Two mappings that differ at most in the value under one key. */
  ghost predicate DifferAt(before: Tree, after: Tree, key: string, value: Tree, changed: Tree) {
    && Holds(before, key, value) && Holds(after, key, changed) && SameProperties(before, after) && |before.content| == |after.content|
    && forall i :: 0 <= i < |before.content| ==>
         before.content[i] == after.content[i] || (i % 2 == 1 && before.content[i - 1].shell.value == key)
  }

  ghost predicate ChannelProposed(reader: Reader, before: Tree, after: Tree, channel: Channel, ids: seq<string>) {
    && IsOpenAi(reader, before, channel.selector)
    && exists value, changed :: DifferAt(before, after, "models", value, changed) && ListProposed(value, changed, channel, ids)
  }

  /** Result i is edited in at its place, with the identifiers of its own catalog. */
  ghost predicate PlaceProposed(reader: Reader, before: seq<Tree>, after: seq<Tree>, env: Environment, results: seq<ChannelResult>,
      replies: seq<Reply>, places: seq<nat>, i: nat)
    requires i < |places| == |results| == |replies| - 1
  {
    && places[i] < |before| == |after| && results[i].channel < |env.channels| && replies[i + 1].ids.Some?
    && ChannelProposed(reader, before[places[i]], after[places[i]], env.channels[results[i].channel], replies[i + 1].ids.value)
  }

  /** Channel i of the results stands at one of the places, and all other channels are as they were. */
  ghost predicate ChannelsProposed(reader: Reader, before: Tree, after: Tree, env: Environment, results: seq<ChannelResult>,
      replies: seq<Reply>, places: seq<nat>)
  {
    && before.shell.kind == SequenceNode && SameProperties(before, after) && |before.content| == |after.content|
    && |places| == |results| == |replies| - 1
    && (forall i, j :: 0 <= i < j < |places| ==> places[i] != places[j])
    && (forall k :: 0 <= k < |before.content| && k !in places ==> after.content[k] == before.content[k])
    && (forall i :: 0 <= i < |places| ==> PlaceProposed(reader, before.content, after.content, env, results, replies, places, i))
  }

  /** The results are those of the enabled channels, each once and in order. */
  ghost predicate EachEnabledOnce(channels: seq<Channel>, results: seq<ChannelResult>) {
    && (forall i, j :: 0 <= i < j < |results| ==> results[i].channel < results[j].channel)
    && (forall i :: 0 <= i < |results| ==> results[i].channel < |channels| && channels[results[i].channel].enabled)
    && (forall c :: 0 <= c < |channels| && channels[c].enabled ==> exists i :: 0 <= i < |results| && results[i].channel == c)
  }

  /** The list of channels is the only thing that may have changed in the document. */
  ghost predicate RootProposed(reader: Reader, root: Tree, next: Tree, env: Environment, results: seq<ChannelResult>,
      replies: seq<Reply>, places: seq<nat>)
  {
    exists value, changed :: DifferAt(root, next, "openai-compatibility", value, changed)
      && ChannelsProposed(reader, value, changed, env, results, replies, places)
  }

  // ---------- one channel ----------

  lemma MinimalIsBare(name: string)
    requires TrimSpace(name) == name && name != ""
    ensures BareModel(MinimalModelNode(name), name)
  {
  }

  lemma ModelForIs(models: seq<Tree>, name: string)
    requires TrimSpace(name) == name && name != "" && forall k :: 0 <= k < |models| ==> FineTree(models[k])
    ensures ModelFor(models, name, MembershipPlanner.ModelFor(models, name))
  {
    ModelForName(models, name);
    MinimalIsBare(name);
    forall k | 0 <= k < |models| ensures TrimmedText(models[k], name) <==> PlannedName(models[k]) == Some(name) {
      TrimmedIs(models[k]);
    }
    hide TrimSpace, PlannedName, TrimmedText, FineTree, MembershipPlanner.ModelFor;
  }

  /** The list the planner builds, and a list it leaves because it has the names already. */
  lemma ListIsProposed(models: Tree, channel: Channel, ids: seq<string>, next: Tree)
    requires FineTree(models) && models.shell.kind == SequenceNode && CleanNames(ids)
    requires next == if SameOrder(models.content, Kept(ids, channel)) then models
      else models.(content := DesiredModels(models.content, Kept(ids, channel)))
    ensures ListProposed(models, next, channel, ids)
  {
    var places := FilterExactly(ids, channel);
    ChildrenFine(models);
    hide FineTree, TrimSpace, Kept, TrimmedText, BareModel;
    forall j | 0 <= j < |places| ensures places[j] < |ids| && ModelFor(models.content, ids[places[j]], next.content[j]) {
      var name := ids[places[j]];
      if SameOrder(models.content, Kept(ids, channel)) {
        TrimmedIs(models.content[j]);
      } else {
        ModelForIs(models.content, name);
      }
    }
    assert ListsWanted(models.content, next.content, channel, ids, places);
  }

  lemma SetValueDiffers(mapping: Tree, key: string, value: Tree)
    requires FineTree(mapping) && ValueOf(mapping, key).Some?
    ensures DifferAt(mapping, SetValue(mapping, key, value), key, ValueOf(mapping, key).value, value)
  {
    var next := SetValue(mapping, key, value);
    var k := KeyIndex(mapping.content, key);
    assert HoldsAt(mapping.content, k, key, ValueOf(mapping, key).value);
    assert HoldsAt(next.content, k, key, value);
  }

  lemma NothingDiffers(mapping: Tree, key: string)
    requires FineTree(mapping) && ValueOf(mapping, key).Some?
    ensures DifferAt(mapping, mapping, key, ValueOf(mapping, key).value, ValueOf(mapping, key).value)
  {
    assert HoldsAt(mapping.content, KeyIndex(mapping.content, key), key, ValueOf(mapping, key).value);
  }

  lemma ChannelIsProposed(reader: Reader, node: Tree, channel: Channel, ids: seq<string>)
    requires FineTree(node) && HasModels(node) && Selects(reader, node, channel.selector) && CleanNames(ids)
    ensures ChannelProposed(reader, node, EditedChannel(node, Kept(ids, channel)), channel, ids)
  {
    var models := ValueOf(node, "models").value;
    var desired := Kept(ids, channel);
    OpenAiIs(reader, node, channel.selector);
    ValueFine(node, "models");
    hide FineTree, IsOpenAi, Selects, CleanNames, Kept, SameOrder, ListProposed, DifferAt;
    if SameOrder(models.content, desired) {
      NothingDiffers(node, "models");
      ListIsProposed(models, channel, ids, models);
    } else {
      var next := models.(content := DesiredModels(models.content, desired));
      SetValueDiffers(node, "models", next);
      ListIsProposed(models, channel, ids, next);
    }
  }

  // ---------- the document ----------

  lemma {:induction false} CatalogsAre(env: Environment, replies: seq<Reply>)
    requires replies != [] && Run(env, replies) != Error
    ensures |Catalogs(replies)| == |replies| - 1
    ensures forall i :: 0 <= i < |replies| - 1 ==> replies[i + 1].ids == Some(Catalogs(replies)[i])
    decreases |replies|
  {
    if |replies| > 1 {
      var earlier, last := replies[..|replies| - 1], replies[|replies| - 1];
      assert Run(env, earlier).Fetch? && last.ids.Some?;
      hide Run, Resume, Begin;
      CatalogsAre(env, earlier);
      assert Catalogs(replies) == Catalogs(earlier) + [last.ids.value];
    }
  }

  lemma SettledChannels(root: Tree, next: Tree, key: string)
    requires FineTree(root) && HasChannels(root, key) && HasChannels(next, key) && next == SetChannels(root, key, Channels(next, key))
    ensures DifferAt(root, next, key, ValueOf(root, key).value, ValueOf(next, key).value)
    ensures ValueOf(next, key).value == ValueOf(root, key).value.(content := Channels(next, key))
    ensures FineTree(ValueOf(root, key).value)
  {
    var value := ValueOf(root, key).value.(content := Channels(next, key));
    ValueFine(root, key);
    SetValueReads(root, key, value, key);
    SetValueDiffers(root, key, value);
    hide KeyIndex, DifferAt, FineTree;
  }

  /** A finished run has edited exactly the enabled channels, each in its place, and the models there are those for
      the wanted identifiers of its own catalog. Nothing else has changed. */
  lemma ProposedExactly(reader: Reader, root: Tree, env: Environment, replies: seq<Reply>, next: Tree, places: seq<nat>)
    requires FineTree(root) && replies != [] && GoodText(env.stamp.attempt, MAX_ID_BYTES) && SelectorsDiffer(env)
    requires forall i :: 0 <= i < |replies| ==> Proper(replies[i])
    requires Run(env, replies).Finished?
    requires var results := Run(env, replies).results; |places| == |results| && Edited(reader, root, next, PlanOf(results), places)
    ensures EachEnabledOnce(env.channels, Run(env, replies).results)
    ensures places == [] ==> next == root
    ensures places != [] ==> RootProposed(reader, root, next, env, Run(env, replies).results, replies, places)
  {
    var results := Run(env, replies).results;
    FinishedPlanIsClean(env, replies);
    CatalogsAre(env, replies);
    hide Run, Proper, GoodText, CleanNames, Kept, FineTree, Edited, RootProposed;
    EnabledOnce(env, results);
    if places != [] {
      ChannelsAreProposed(reader, root, env, replies, next, places);
    } else {
      NothingEdited(reader, root, next, PlanOf(results));
    }
  }

  lemma NothingEdited(reader: Reader, root: Tree, next: Tree, plan: seq<Planned>)
    requires Edited(reader, root, next, plan, [])
    ensures next == root
  {
  }

  lemma ChannelsAreProposed(reader: Reader, root: Tree, env: Environment, replies: seq<Reply>, next: Tree, places: seq<nat>)
    requires FineTree(root) && |replies| > 1 && Run(env, replies).Finished? && places != []
    requires forall k :: 0 <= k < |replies| ==> Proper(replies[k])
    requires |Catalogs(replies)| == |replies| - 1 && forall k :: 0 <= k < |replies| - 1 ==> replies[k + 1].ids == Some(Catalogs(replies)[k])
    requires var results := Run(env, replies).results;
      && |places| == |results| == |replies| - 1 && Edited(reader, root, next, PlanOf(results), places)
      && AllEnabledBelow(env, |env.channels|, results) && FromCatalogs(env, results, Catalogs(replies))
    ensures RootProposed(reader, root, next, env, Run(env, replies).results, replies, places)
  {
    var results := Run(env, replies).results;
    EditedParts(reader, root, next, PlanOf(results), places);
    SettledChannels(root, next, "openai-compatibility");
    ContentIs(root, "openai-compatibility");
    ContentIs(next, "openai-compatibility");
    forall i | 0 <= i < |places|
      ensures PlaceProposed(reader, Channels(root, "openai-compatibility"), Channels(next, "openai-compatibility"), env, results, replies, places, i)
    {
      OneProposed(reader, root, env, replies, next, places, i);
    }
    hide Run, Proper, FineTree, Edited, HasChannels, Channels, SetChannels, AllEnabledBelow, FromCatalogs, KeyIndex, DifferAt, PlaceProposed, ValueOf;
    PlacesAreProposed(reader, ValueOf(root, "openai-compatibility").value, ValueOf(next, "openai-compatibility").value, env, results, replies, places);
  }

  lemma PlacesAreProposed(reader: Reader, before: Tree, after: Tree, env: Environment, results: seq<ChannelResult>,
      replies: seq<Reply>, places: seq<nat>)
    requires before.shell.kind == SequenceNode && SameProperties(before, after) && |before.content| == |after.content|
    requires |places| == |results| == |replies| - 1
    requires forall i, j :: 0 <= i < j < |places| ==> places[i] != places[j]
    requires forall k :: 0 <= k < |before.content| && k !in places ==> after.content[k] == before.content[k]
    requires forall i :: 0 <= i < |places| ==> PlaceProposed(reader, before.content, after.content, env, results, replies, places, i)
    ensures ChannelsProposed(reader, before, after, env, results, replies, places)
  {
    hide PlaceProposed;
  }

  lemma ContentIs(root: Tree, key: string)
    requires HasChannels(root, key)
    ensures ValueOf(root, key).Some? && ValueOf(root, key).value.shell.kind == SequenceNode
    ensures ValueOf(root, key).value.content == Channels(root, key)
  {
  }

  lemma EditedParts(reader: Reader, root: Tree, next: Tree, plan: seq<Planned>, places: seq<nat>)
    requires Edited(reader, root, next, plan, places) && places != []
    ensures HasChannels(root, "openai-compatibility") && HasChannels(next, "openai-compatibility")
    ensures next == SetChannels(root, "openai-compatibility", Channels(next, "openai-compatibility"))
    ensures var before, after := Channels(root, "openai-compatibility"), Channels(next, "openai-compatibility");
      && |after| == |before| && (forall i, j :: 0 <= i < j < |places| ==> places[i] != places[j])
      && (forall k :: 0 <= k < |before| && k !in places ==> after[k] == before[k])
  {
    hide Locates, HasChannels, Channels, SetChannels, EditedChannel;
  }

  lemma EnabledOnce(env: Environment, results: seq<ChannelResult>)
    requires AllEnabledBelow(env, |env.channels|, results)
    ensures EachEnabledOnce(env.channels, results)
  {
    hide GoodNames;
  }

  lemma OneProposed(reader: Reader, root: Tree, env: Environment, replies: seq<Reply>, next: Tree, places: seq<nat>, i: nat)
    requires FineTree(root) && |replies| > 1 && Run(env, replies).Finished? && i < |places|
    requires forall k :: 0 <= k < |replies| ==> Proper(replies[k])
    requires |Catalogs(replies)| == |replies| - 1 && forall k :: 0 <= k < |replies| - 1 ==> replies[k + 1].ids == Some(Catalogs(replies)[k])
    requires var results := Run(env, replies).results;
      && |places| == |results| == |replies| - 1 && Edited(reader, root, next, PlanOf(results), places)
      && AllEnabledBelow(env, |env.channels|, results) && FromCatalogs(env, results, Catalogs(replies))
    ensures HasChannels(root, "openai-compatibility") && HasChannels(next, "openai-compatibility")
    ensures PlaceProposed(reader, Channels(root, "openai-compatibility"), Channels(next, "openai-compatibility"), env,
      Run(env, replies).results, replies, places, i)
  {
    var results := Run(env, replies).results;
    var result := results[i];
    var ids := replies[i + 1].ids.value;
    assert Proper(replies[i + 1]) && GoodNames(ids);
    assert GoodResult(env, |env.channels|, result);
    var node := Channels(root, "openai-compatibility")[places[i]];
    ValueFine(root, "openai-compatibility");
    ChildrenFine(ValueOf(root, "openai-compatibility").value);
    assert Locates(reader, root, PlanOf(results)[i].selector, places[i]);
    hide Run, Proper, FineTree, Kept, ChannelProposed, Selects, Usable, GoodText, CleanNames, EditedChannel, ValueOf;
    ChannelIsProposed(reader, node, env.channels[result.channel], ids);
  }
}
