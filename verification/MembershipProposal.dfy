/** The membership planner meets the ownership check. */
module MembershipProposal {
  import opened Options
  import opened YamlGraph
  import opened YamlTree
  import opened Ownership
  import opened YamlChannels
  import opened MembershipPlanner
  import opened YamlClone
  import opened OwnershipCheck
  import WriterTypes

  /** What the catalog parser and the filter leave: trimmed, not blank, each once. */
  ghost predicate CleanNames(names: seq<string>) {
    && (forall i :: 0 <= i < |names| ==> TrimSpace(names[i]) == names[i] && names[i] != "")
    && (forall i, j :: 0 <= i < j < |names| ==> names[i] != names[j])
  }

  ghost predicate CleanResults(results: seq<Planned>) {
    forall i :: 0 <= i < |results| ==> CleanNames(results[i].desired)
  }

  // ---------- the models ----------

  lemma MinimalNodeNames(name: string)
    requires TrimSpace(name) == name && name != ""
    ensures NameOf(MinimalModelNode(name)) == Some(name) && PlannedName(MinimalModelNode(name)) == Some(name)
    ensures Minimal(MinimalModelNode(name), name)
  {
    hide TrimSpace;
    var node := MinimalModelNode(name);
    assert node.content[0].shell.value == "name" && KeyIndex(node.content, "name") == 0;
  }

  /** The check reads names as they are, the planner trims them. */
  lemma NamesAgree(model: Tree)
    requires PlannedName(model).Some? && NameOf(model).Some?
    ensures PlannedName(model) == Some(TrimSpace(NameOf(model).value))
  {
  }

  /** A model kept for one desired name has that planned name; a new one has it outright. */
  lemma ModelForName(models: seq<Tree>, name: string)
    requires TrimSpace(name) == name && name != ""
    ensures PlannedName(ModelFor(models, name)) == Some(name)
    ensures ModelFor(models, name) in models || (ModelFor(models, name) == MinimalModelNode(name) && forall k :: 0 <= k < |models| ==> PlannedName(models[k]) != Some(name))
  {
    FindSpec(models, name);
    MinimalNodeNames(name);
    hide TrimSpace, PlannedName;
  }

  lemma ModelForAllowed(models: seq<Tree>, name: string)
    requires Named(models) && PlannerNamed(models) && TrimSpace(name) == name && name != ""
    ensures NameOf(ModelFor(models, name)).Some? && AllowedModel(models, ModelFor(models, name))
    ensures PlannedName(ModelFor(models, name)) == Some(name)
  {
    ModelForName(models, name);
    MinimalNodeNames(name);
    hide TrimSpace, PlannedName, NameOf, Minimal, ModelFor;
    if ModelFor(models, name) !in models {
      forall k | 0 <= k < |models| ensures NameOf(models[k]) != Some(name) {
        NamesAgree(models[k]);
      }
    }
  }

  lemma DesiredAllowed(models: Tree, desired: seq<string>)
    requires models.shell.kind == SequenceNode && Named(models.content) && PlannerNamed(models.content) && CleanNames(desired)
    ensures MembershipModels(models, models.(content := DesiredModels(models.content, desired)))
    ensures SameOrder(DesiredModels(models.content, desired), desired)
  {
    hide TrimSpace, PlannedName, NameOf, AllowedModel, ModelFor;
    var next := DesiredModels(models.content, desired);
    forall i | 0 <= i < |next|
      ensures NameOf(next[i]).Some? && AllowedModel(models.content, next[i]) && PlannedName(next[i]) == Some(desired[i])
    {
      ModelForAllowed(models.content, desired[i]);
    }
    forall i, j | 0 <= i < j < |next| ensures NameOf(next[i]) != NameOf(next[j]) {
      NamesAgree(next[i]);
      NamesAgree(next[j]);
    }
  }

  // ---------- the channels ----------

  lemma EditedProvider(channel: Tree, desired: seq<string>)
    requires FineTree(channel) && MembershipProvider(channel, channel)
    requires HasModels(channel) && PlannerNamed(Models(channel)) && CleanNames(desired)
    ensures MembershipProvider(channel, EditedChannel(channel, desired))
    ensures EditedChannel(channel, desired) == channel <==> SameOrder(Models(channel), desired)
  {
    hide KeyIndex, PlannerNamed, CleanNames, MembershipModels, SameOrder;
    var i := KeyIndex(channel.content, "models");
    var models := channel.content[i + 1];
    assert MembershipEntry(channel, channel, i);
    NamedFromCheck(models, models);
    DesiredAllowed(models, desired);
    var next := SetModels(channel, DesiredModels(models.content, desired));
    assert next.content[i + 1] == models.(content := DesiredModels(models.content, desired));
    forall k | 0 <= k < |channel.content| - 1 && k % 2 == 0 ensures MembershipEntry(channel, next, k) {
      assert MembershipEntry(channel, channel, k);
      if channel.content[k].shell.value == "models" {
        KeyIndexUnique(channel.content, "models", k);
      }
    }
  }

  lemma NamedFromCheck(b: Tree, p: Tree)
    requires MembershipModels(b, p)
    ensures b.shell.kind == SequenceNode && Named(b.content)
  {
  }

  /** A base that any proposal can be compared with passes the comparison with itself. */
  lemma SelfAccepted(b: Tree, p: Tree)
    requires MembershipRoot(b, p)
    ensures MembershipRoot(b, b)
  {
    hide MembershipProviders;
    forall i | 0 <= i < |b.content| - 1 && i % 2 == 0 ensures MembershipRootEntry(b, b, i) {
      assert MembershipRootEntry(b, p, i);
      if b.content[i].shell.value == OPENAI {
        SelfProviders(b.content[i + 1], p.content[i + 1]);
      }
    }
  }

  lemma SelfProviders(b: Tree, p: Tree)
    requires MembershipProviders(b, p)
    ensures MembershipProviders(b, b)
  {
    hide MembershipModels;
    forall i | 0 <= i < |b.content| ensures MembershipProvider(b.content[i], b.content[i]) {
      var one, two := b.content[i], p.content[i];
      forall k | 0 <= k < |one.content| - 1 && k % 2 == 0 ensures MembershipEntry(one, one, k) {
        assert MembershipEntry(one, two, k);
        if one.content[k].shell.value == "models" {
          SelfModels(one.content[k + 1], two.content[k + 1]);
        }
      }
    }
  }

  lemma SelfModels(b: Tree, p: Tree)
    requires MembershipModels(b, p)
    ensures MembershipModels(b, b)
  {
  }

  // ---------- the document ----------

  lemma ProvidersOf(root: Tree)
    requires FineTree(root) && HasChannels(root, OPENAI)
    ensures FineTree(ValueOf(root, OPENAI).value)
    ensures forall k :: 0 <= k < |Channels(root, OPENAI)| ==> FineTree(Channels(root, OPENAI)[k])
    ensures MembershipRoot(root, root) ==> MembershipProviders(ValueOf(root, OPENAI).value, ValueOf(root, OPENAI).value)
  {
    var i := KeyIndex(root.content, OPENAI);
    hide KeyIndex, MembershipProviders;
    if MembershipRoot(root, root) {
      assert MembershipRootEntry(root, root, i);
    }
  }

  lemma RootFromProviders(root: Tree, channels: seq<Tree>)
    requires FineTree(root) && HasChannels(root, OPENAI) && MembershipRoot(root, root)
    requires var providers := ValueOf(root, OPENAI).value; MembershipProviders(providers, providers.(content := channels))
    ensures MembershipRoot(root, SetChannels(root, OPENAI, channels))
  {
    hide KeyIndex, MembershipProviders;
    var i := KeyIndex(root.content, OPENAI);
    var next := SetChannels(root, OPENAI, channels);
    forall k | 0 <= k < |root.content| - 1 && k % 2 == 0 ensures MembershipRootEntry(root, next, k) {
      assert MembershipRootEntry(root, root, k);
      if root.content[k].shell.value == OPENAI {
        KeyIndexUnique(root.content, OPENAI, k);
      }
    }
  }

  lemma EditedPlace(before: seq<Tree>, after: seq<Tree>, results: seq<Planned>, places: seq<nat>, i: nat)
    requires ChannelsEdited(before, after, results, places) && i < |places| && CleanNames(results[i].desired)
    requires var channel := before[places[i]];
      FineTree(channel) && MembershipProvider(channel, channel) && PlannerNamed(Models(channel))
    ensures MembershipProvider(before[places[i]], after[places[i]])
    ensures after[places[i]] != before[places[i]] <==> Moves(before, places[i], results[i].desired)
    ensures forall j :: 0 <= j < |places| && places[j] == places[i] ==> j == i
  {
    EditedProvider(before[places[i]], results[i].desired);
    hide FineTree, MembershipProvider, CleanNames, SameOrder, PlannerNamed, EditedChannel, HasModels;
  }

  ghost predicate MovedAt(channels: seq<Tree>, results: seq<Planned>, places: seq<nat>, k: nat) {
    exists i :: 0 <= i < |places| <= |results| && places[i] == k && Moves(channels, k, results[i].desired)
  }

  lemma EditedChannels(reader: Reader, root: Tree, next: Tree, results: seq<Planned>, places: seq<nat>, k: nat)
    requires FineTree(root) && MembershipRoot(root, root) && EditedAt(reader, root, next, results, places)
    requires |places| == |results| && CleanResults(results) && k < |Channels(root, OPENAI)|
    ensures MembershipProvider(Channels(root, OPENAI)[k], Channels(next, OPENAI)[k])
    ensures Channels(next, OPENAI)[k] != Channels(root, OPENAI)[k] <==> MovedAt(Channels(root, OPENAI), results, places, k)
  {
    ProvidersOf(root);
    assert MembershipProvider(Channels(root, OPENAI)[k], Channels(root, OPENAI)[k]);
    if k in places {
      var i :| 0 <= i < |places| && places[i] == k;
      assert Locates(reader, root, results[i].selector, k);
      EditedPlace(Channels(root, OPENAI), Channels(next, OPENAI), results, places, i);
    }
    hide FineTree, MembershipRoot, MembershipProvider, CleanNames, SameOrder, Moves, Locates, EditedChannel, Channels, HasChannels;
  }

  /** The proposal of the membership planner passes the ownership check exactly when its base would pass
      unchanged, and both say the same about whether anything changed. */
  lemma ProposalAccepted(reader: Reader, root: Tree, next: Tree, results: seq<Planned>, places: seq<nat>)
    requires FineTree(root) && root.shell.kind == MappingNode
    requires Edited(reader, root, next, results, places) && |places| == |results| && CleanResults(results)
    ensures MembershipRoot(root, next) <==> MembershipRoot(root, root)
    ensures MembershipRoot(root, root) ==> (next != root <==> Differs(root, results, places))
  {
    if MembershipRoot(root, next) {
      SelfAccepted(root, next);
    }
    if MembershipRoot(root, root) && places != [] {
      forall k | 0 <= k < |Channels(root, OPENAI)|
        ensures MembershipProvider(Channels(root, OPENAI)[k], Channels(next, OPENAI)[k])
        ensures Channels(next, OPENAI)[k] != Channels(root, OPENAI)[k] <==> MovedAt(Channels(root, OPENAI), results, places, k)
      {
        EditedChannels(reader, root, next, results, places, k);
      }
      ProvidersOf(root);
      hide FineTree, MembershipRoot, MembershipProvider, Moves, CleanResults;
      RootFromProviders(root, Channels(next, OPENAI));
      if Channels(next, OPENAI) == Channels(root, OPENAI) {
        NothingEdited(reader, root, results);
      }
    }
  }

  // ---------- the proposed document is one the check can read ----------

  lemma CleanModel(models: seq<Tree>, name: string)
    requires forall k :: 0 <= k < |models| ==> Clean(models[k])
    ensures Clean(ModelFor(models, name))
  {
    FindSpec(models, name);
    hide PlannedName, TrimSpace;
    var node := MinimalModelNode(name);
    assert node.content[0].shell.value == "name";
    assert FineTree(node.content[0]) && FineTree(node.content[1]) && Unambiguous(node.content[0]) && Unambiguous(node.content[1]);
  }

  lemma CleanChannel(channel: Tree, desired: seq<string>)
    requires Clean(channel) && HasModels(channel)
    ensures Clean(EditedChannel(channel, desired))
  {
    CleanValue(channel, "models");
    var models := ValueOf(channel, "models").value;
    forall k | 0 <= k < |desired| ensures Clean(ModelFor(models.content, desired[k])) {
      CleanModel(models.content, desired[k]);
    }
    hide Clean, KeyIndex, SameOrder, ModelFor;
    CleanChildren(models);
    CleanContent(models, DesiredModels(models.content, desired));
    CleanSetValue(channel, "models", models.(content := DesiredModels(models.content, desired)));
  }

  lemma ProvidersReadable(root: Tree, operation: WriterTypes.Operation)
    requires FineTree(root) && MutablePaths(root, operation) && HasChannels(root, OPENAI)
    ensures Clean(ValueOf(root, OPENAI).value)
  {
    CleanValue(root, OPENAI);
    var i := KeyIndex(root.content, OPENAI);
    assert OwnedRoot(operation, root.content[i].shell.value);
    hide KeyIndex, Unambiguous, FineTree, PluginReadable, PluginConfigs;
  }

  lemma ChannelsReadable(before: seq<Tree>, after: seq<Tree>, results: seq<Planned>, places: seq<nat>)
    requires ChannelsEdited(before, after, results, places) && forall k :: 0 <= k < |before| ==> Clean(before[k])
    ensures forall k :: 0 <= k < |after| ==> Clean(after[k])
  {
    forall k | 0 <= k < |after| ensures Clean(after[k]) {
      if k in places {
        var i :| 0 <= i < |places| && places[i] == k;
        CleanChannel(before[k], results[i].desired);
      }
    }
  }

  /** Setting the providers leaves the plugin sections readable. */
  lemma SetChannelsReadable(root: Tree, channels: seq<Tree>, operation: WriterTypes.Operation)
    requires FineTree(root) && MutablePaths(root, operation) && HasChannels(root, OPENAI)
    requires Clean(ValueOf(root, OPENAI).value.(content := channels))
    ensures FineTree(SetChannels(root, OPENAI, channels)) && MutablePaths(SetChannels(root, OPENAI, channels), operation)
  {
    var value := ValueOf(root, OPENAI).value.(content := channels);
    CleanSetValue(root, OPENAI, value);
    SetValueReads(root, OPENAI, value, "plugins");
    var i, next := KeyIndex(root.content, OPENAI) + 1, SetChannels(root, OPENAI, channels);
    hide KeyIndex, FineTree, Unambiguous, PluginReadable;
    assert PluginConfigs(next) == PluginConfigs(root);
    assert next.content[i] == value && forall k :: 0 <= k < |next.content| && k != i ==> next.content[k] == root.content[k];
  }

  /** A proposal made from a base the check can read can itself be read, so the whole check accepts it
      exactly when it would accept the base unchanged. */
  lemma ProposalMeetsCheck(reader: Reader, root: Tree, next: Tree, results: seq<Planned>, places: seq<nat>)
    requires FineTree(root) && root.shell.kind == MappingNode && MutablePaths(root, WriterTypes.AutoPull)
    requires Edited(reader, root, next, results, places) && |places| == |results| && CleanResults(results)
    ensures FineTree(next) && MutablePaths(next, WriterTypes.AutoPull)
    ensures MayPropose(WriterTypes.AutoPull, root, next) <==> MayPropose(WriterTypes.AutoPull, root, root)
  {
    ProposalAccepted(reader, root, next, results, places);
    hide MembershipRoot, CleanResults;
    if places != [] {
      ProvidersReadable(root, WriterTypes.AutoPull);
      var providers := ValueOf(root, OPENAI).value;
      CleanChildren(providers);
      hide FineTree, Clean, MutablePaths, Locates;
      ChannelsReadable(Channels(root, OPENAI), Channels(next, OPENAI), results, places);
      CleanContent(providers, Channels(next, OPENAI));
      SetChannelsReadable(root, Channels(next, OPENAI), WriterTypes.AutoPull);
    }
  }
}
