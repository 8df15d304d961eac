/** The metadata planner meets the ownership check. */
module MetadataProposal {
  import opened Options
  import opened YamlGraph
  import opened YamlTree
  import opened YamlClone
  import opened YamlChannels
  import opened Ownership
  import opened MetadataOwnership
  import opened MetadataEdit
  import opened MetadataEditCheck
  import opened MetadataPlanner
  import opened OwnershipCheck
  import WriterTypes

  // ---------- models ----------

  /** The patch meant for this model, if any, changes only fields the check takes for owned. */
  predicate ModelAllowed(model: Tree, patches: seq<ModelPatch>) {
    ExactName(model).Some? && PatchFor(patches, ExactName(model).value).Some? ==>
      PatchAllowed(model, PatchFor(patches, ExactName(model).value).value)
  }

  lemma ExactNameIsName(model: Tree)
    requires ExactName(model).Some?
    ensures NameOf(model) == ExactName(model)
  {
    hide TrimSpace, KeyIndex;
  }

  lemma SelfModel(model: Tree)
    requires Editable(model) && NameOf(model).Some?
    ensures MetadataModel(model, model)
  {
    hide NameOf, Kept, MetadataModel;
    CleanEntries(model);
    KeptSelf(model.content);
    KeptAllowed(model, model);
  }

  lemma PatchedModelAllowed(model: Tree, patches: seq<ModelPatch>)
    requires Editable(model) && ExactName(model).Some? && PatchedModel(model, patches).Some?
    ensures MetadataModel(model, PatchedModel(model, patches).value) <==> ModelAllowed(model, patches)
  {
    ExactNameIsName(model);
    hide NameOf, ExactName, MetadataModel, Editable, PatchAllowed;
    if PatchFor(patches, ExactName(model).value).Some? {
      EditAllowedExactly(model, PatchFor(patches, ExactName(model).value).value);
    } else {
      SelfModel(model);
    }
  }

  // ---------- channels ----------

  predicate ChannelAllowed(channel: Tree, patches: seq<ModelPatch>) {
    HasModels(channel) && forall k :: 0 <= k < |Models(channel)| ==> ModelAllowed(Models(channel)[k], patches)
  }

  ghost predicate Located(channel: Tree) {
    && Clean(channel) && HasModels(channel) && ExactlyNamed(Models(channel))
    && forall m :: 0 <= m < |Models(channel)| ==> Editable(Models(channel)[m])
  }

  lemma ModelsAllowed(models: Tree, patches: seq<ModelPatch>)
    requires models.shell.kind == SequenceNode && ExactlyNamed(models.content) && AllPatched(models.content, patches)
    requires forall m :: 0 <= m < |models.content| ==> Editable(models.content[m])
    ensures MetadataModels(models, models.(content := PatchedModels(models.content, patches))) <==>
      forall m :: 0 <= m < |models.content| ==> ModelAllowed(models.content[m], patches)
  {
    hide ExactName, Editable, PatchedModel, MetadataModel, ModelAllowed;
    forall m | 0 <= m < |models.content|
      ensures MetadataModel(models.content[m], PatchedModels(models.content, patches)[m]) <==> ModelAllowed(models.content[m], patches)
    {
      PatchedModelAllowed(models.content[m], patches);
    }
  }

  /** Entries other than the one under `models` stay as they are. */
  lemma ProviderFromModels(channel: Tree, models: seq<Tree>)
    requires FineTree(channel) && HasModels(channel)
    ensures MetadataProvider(channel, SetModels(channel, models)) <==>
      MetadataModels(ValueOf(channel, "models").value, ValueOf(channel, "models").value.(content := models))
  {
    var i := KeyIndex(channel.content, "models");
    hide KeyIndex, MetadataModels;
    var next := SetModels(channel, models);
    assert next.content[i + 1] == ValueOf(channel, "models").value.(content := models);
    forall k | 0 <= k < |channel.content| - 1 && k % 2 == 0
      ensures MetadataEntry(channel, next, k) <==>
        (k == i ==> MetadataModels(ValueOf(channel, "models").value, ValueOf(channel, "models").value.(content := models)))
    {
      if channel.content[k].shell.value == "models" {
        KeyIndexUnique(channel.content, "models", k);
      }
    }
    assert MetadataProvider(channel, next) ==> MetadataEntry(channel, next, i);
  }

  lemma EditedAllowed(channel: Tree, patches: seq<ModelPatch>)
    requires Located(channel) && ChannelPatched(channel, patches)
    ensures MetadataProvider(channel, EditedChannel(channel, patches)) <==> ChannelAllowed(channel, patches)
    ensures MetadataProvider(channel, channel)
  {
    CleanFine(channel);
    ProviderFromModels(channel, PatchedModels(Models(channel), patches));
    ModelsAllowed(ValueOf(channel, "models").value, patches);
    ProviderFromModels(channel, Models(channel));
    SameModels(channel, Models(channel));
    SelfModels(ValueOf(channel, "models").value);
    hide FineTree, MetadataProvider, MetadataModels, SetModels, Editable, ExactlyNamed;
  }

  lemma SelfModels(models: Tree)
    requires models.shell.kind == SequenceNode && ExactlyNamed(models.content)
    requires forall m :: 0 <= m < |models.content| ==> Editable(models.content[m])
    ensures MetadataModels(models, models.(content := models.content))
  {
    hide ExactName, Editable, MetadataModel;
    forall m | 0 <= m < |models.content| ensures MetadataModel(models.content[m], models.content[m]) {
      ExactNameIsName(models.content[m]);
      SelfModel(models.content[m]);
    }
  }

  // ---------- the document ----------

  /** Every channel a plan edits is one the planner located. */
  ghost predicate AllLocated(before: seq<Tree>, key: string, results: seq<ChannelPlan>, places: seq<nat>) {
    forall k :: 0 <= k < |before| && Placed(results, places, key, k) ==> Located(before[k])
  }

  ghost predicate KeyAllowed(before: seq<Tree>, key: string, results: seq<ChannelPlan>, places: seq<nat>) {
    forall k, i {:trigger PlacedAt(results, places, key, k, i)} :: 0 <= k < |before| && PlacedAt(results, places, key, k, i) ==>
      ChannelAllowed(before[k], results[i].patches)
  }

  lemma ChannelsAllowed(before: seq<Tree>, after: seq<Tree>, key: string, results: seq<ChannelPlan>, places: seq<nat>)
    requires ChannelsEdited(before, after, key, results, places) && AllLocated(before, key, results, places)
    ensures (forall k :: 0 <= k < |before| ==> MetadataProvider(before[k], after[k])) <==>
      (forall k :: 0 <= k < |before| ==> MetadataProvider(before[k], before[k])) && KeyAllowed(before, key, results, places)
  {
    hide MetadataProvider, ChannelAllowed, EditedChannel, Located, ChannelPatched;
    forall k, i {:trigger PlacedAt(results, places, key, k, i)} | 0 <= k < |before| && PlacedAt(results, places, key, k, i)
      ensures MetadataProvider(before[k], after[k]) <==> ChannelAllowed(before[k], results[i].patches)
      ensures MetadataProvider(before[k], before[k])
    {
      assert Placed(results, places, key, k);
      EditedAllowed(before[k], results[i].patches);
    }
    forall k | 0 <= k < |before| && Placed(results, places, key, k)
      ensures MetadataProvider(before[k], before[k])
      ensures KeyAllowed(before, key, results, places) ==> MetadataProvider(before[k], after[k])
    {
      var i :| PlacedAt(results, places, key, k, i);
    }
  }

  ghost predicate EntryAllowed(root: Tree, i: nat, results: seq<ChannelPlan>, places: seq<nat>)
    requires i < |root.content|
  {
    ProviderEntry(root, i) && root.content[i].shell.kind == SequenceNode ==>
      KeyAllowed(root.content[i].content, root.content[i - 1].shell.value, results, places)
  }

  /** Every edit of every planned channel is allowed. */
  ghost predicate EditsAllowed(root: Tree, results: seq<ChannelPlan>, places: seq<nat>) {
    forall i :: 0 <= i < |root.content| ==> EntryAllowed(root, i, results, places)
  }

  lemma FoundLocated(reader: Reader, root: Tree, spec: ChannelSpec, k: nat)
    requires FineTree(root) && Finds(reader, root, spec, k)
    ensures HasChannels(root, RootKey(spec)) && k < |Channels(root, RootKey(spec))| && Located(Channels(root, RootKey(spec))[k])
  {
    ChannelModels(reader, root, spec, k);
    hide Editable, ExactlyNamed, Clean;
  }

  lemma PlaceLocated(reader: Reader, root: Tree, results: seq<ChannelPlan>, places: seq<nat>, key: string, k: nat)
    requires FineTree(root) && AllFound(reader, root, results, places)
    requires HasChannels(root, key) && k < |Channels(root, key)| && Placed(results, places, key, k)
    ensures Located(Channels(root, key)[k])
  {
    var j :| PlacedAt(results, places, key, k, j);
    assert Finds(reader, root, results[j].spec, places[j]);
    hide Located, Finds, FineTree;
    FoundLocated(reader, root, results[j].spec, k);
  }

  lemma EntryUnderKey(root: Tree, i: nat)
    requires FineTree(root) && root.shell.kind == MappingNode && i < |root.content| && i % 2 == 1
    ensures ValueOf(root, root.content[i - 1].shell.value) == Some(root.content[i])
  {
    KeyIndexUnique(root.content, root.content[i - 1].shell.value, i - 1);
  }

  lemma PlacesLocated(reader: Reader, root: Tree, key: string, results: seq<ChannelPlan>, places: seq<nat>)
    requires FineTree(root) && AllFound(reader, root, results, places) && HasChannels(root, key)
    ensures AllLocated(Channels(root, key), key, results, places)
  {
    hide FineTree, AllFound, Located, Placed, Channels, HasChannels, ValueOf;
    forall k | 0 <= k < |Channels(root, key)| && Placed(results, places, key, k) ensures Located(Channels(root, key)[k]) {
      PlaceLocated(reader, root, results, places, key, k);
    }
  }

  lemma ProvidersMeetCheck(b: Tree, p: Tree, key: string, results: seq<ChannelPlan>, places: seq<nat>)
    requires ProvidersEdited(b, p, key, results, places)
    requires b.shell.kind == SequenceNode ==> AllLocated(b.content, key, results, places)
    ensures MetadataProviders(b, p) <==>
      MetadataProviders(b, b) && (b.shell.kind == SequenceNode ==> KeyAllowed(b.content, key, results, places))
  {
    if b.shell.kind == SequenceNode {
      ChannelsAllowed(b.content, p.content, key, results, places);
      SameCount(b.content, p.content, key, results, places);
    }
    hide MetadataProvider, KeyAllowed, ChannelsEdited, AllLocated;
  }

  lemma EntryMeetsCheck(reader: Reader, root: Tree, next: Tree, results: seq<ChannelPlan>, places: seq<nat>, i: nat)
    requires FineTree(root) && root.shell.kind == MappingNode && AllFound(reader, root, results, places) && Edited(root, next, results, places)
    requires i + 1 < |root.content| && i % 2 == 0
    ensures MetadataRootEntry(root, next, i) <==> MetadataRootEntry(root, root, i) && EntryAllowed(root, i + 1, results, places)
  {
    EntriesEdited(root, next, results, places, i);
    hide FineTree, MetadataProviders, KeyAllowed, AllFound, AllLocated, Edited, ProvidersEdited;
    if ProviderEntry(root, i + 1) {
      var key := root.content[i].shell.value;
      if root.content[i + 1].shell.kind == SequenceNode {
        EntryUnderKey(root, i + 1);
        PlacesLocated(reader, root, key, results, places);
      }
      ProvidersMeetCheck(root.content[i + 1], next.content[i + 1], key, results, places);
    }
  }

  lemma EntriesEdited(root: Tree, next: Tree, results: seq<ChannelPlan>, places: seq<nat>, i: nat)
    requires Edited(root, next, results, places) && i + 1 < |root.content| && i % 2 == 0
    ensures next.content[i] == root.content[i] && EntryEdited(root, next, i + 1, results, places)
  {
    assert EntryEdited(root, next, i, results, places);
  }

  lemma SameCount(before: seq<Tree>, after: seq<Tree>, key: string, results: seq<ChannelPlan>, places: seq<nat>)
    requires ChannelsEdited(before, after, key, results, places)
    ensures |after| == |before|
  {
  }

  /** The proposal of the metadata planner passes the ownership check exactly when its base would pass
      unchanged and no field that has to change sits under a key that is not plainly tagged. */
  lemma ProposalAccepted(reader: Reader, root: Tree, next: Tree, results: seq<ChannelPlan>, places: seq<nat>)
    requires FineTree(root) && root.shell.kind == MappingNode && AllFound(reader, root, results, places) && Edited(root, next, results, places)
    ensures MetadataRoot(root, next) <==> MetadataRoot(root, root) && EditsAllowed(root, results, places)
  {
    hide FineTree, MetadataRootEntry, EntryAllowed, EntryEdited, AllFound;
    forall i | 0 <= i < |root.content| - 1 && i % 2 == 0
      ensures MetadataRootEntry(root, next, i) <==> MetadataRootEntry(root, root, i) && EntryAllowed(root, i + 1, results, places)
    {
      EntryMeetsCheck(reader, root, next, results, places, i);
    }
    forall i | 0 <= i < |root.content| && i % 2 == 0 ensures EntryAllowed(root, i, results, places) {
      KeyEntryAllowed(root, i, results, places);
    }
    RootEven(root);
    if MetadataRoot(root, next) {
      forall i | 0 <= i < |root.content| ensures EntryAllowed(root, i, results, places) {
        if i % 2 == 1 {
          assert MetadataRootEntry(root, next, i - 1);
        }
      }
      forall i | 0 <= i < |root.content| - 1 && i % 2 == 0 ensures MetadataRootEntry(root, root, i) {
        assert MetadataRootEntry(root, next, i);
      }
    }
    if MetadataRoot(root, root) && EditsAllowed(root, results, places) {
      forall i | 0 <= i < |root.content| - 1 && i % 2 == 0 ensures MetadataRootEntry(root, next, i) {
        assert MetadataRootEntry(root, root, i);
      }
    }
  }

  lemma RootEven(root: Tree)
    requires FineTree(root) && root.shell.kind == MappingNode
    ensures |root.content| % 2 == 0
  {
  }

  lemma KeyEntryAllowed(root: Tree, i: nat, results: seq<ChannelPlan>, places: seq<nat>)
    requires i < |root.content| && i % 2 == 0
    ensures EntryAllowed(root, i, results, places)
  {
  }

  // ---------- the two verdicts on change ----------

  lemma PlaceMoves(root: Tree, next: Tree, results: seq<ChannelPlan>, places: seq<nat>, i: nat)
    requires Edited(root, next, results, places) && i < |places| && Moves(root, results[i], places[i])
    ensures next != root
  {
    var key := RootKey(results[i].spec);
    EditedKeys(root, next, results, places, key);
    hide Edited, EditedChannel, ChannelPatched;
    assert PlacedAt(results, places, key, places[i], i);
  }

  lemma ChannelsUnmoved(before: seq<Tree>, after: seq<Tree>, key: string, results: seq<ChannelPlan>, places: seq<nat>)
    requires ChannelsEdited(before, after, key, results, places)
    requires forall k, i {:trigger PlacedAt(results, places, key, k, i)} :: 0 <= k < |before| && PlacedAt(results, places, key, k, i) ==>
      ChannelPatched(before[k], results[i].patches) && EditedChannel(before[k], results[i].patches) == before[k]
    ensures after == before
  {
    hide EditedChannel, ChannelPatched;
    forall k | 0 <= k < |before| ensures after[k] == before[k] {
      if Placed(results, places, key, k) {
        var i :| PlacedAt(results, places, key, k, i);
      }
    }
  }

  lemma NothingMoves(reader: Reader, root: Tree, next: Tree, results: seq<ChannelPlan>, places: seq<nat>)
    requires FineTree(root) && root.shell.kind == MappingNode && Edited(root, next, results, places) && AllFound(reader, root, results, places)
    requires |places| == |results| && !Differs(root, results, places)
    ensures next == root
  {
    forall i | 0 <= i < |root.content| ensures next.content[i] == root.content[i] {
      assert EntryEdited(root, next, i, results, places);
      if ProviderEntry(root, i) && root.content[i].shell.kind == SequenceNode {
        EntryUnmoved(root, next, results, places, i);
      }
    }
    assert next.content == root.content;
  }

  lemma EntryUnmoved(root: Tree, next: Tree, results: seq<ChannelPlan>, places: seq<nat>, i: nat)
    requires FineTree(root) && root.shell.kind == MappingNode && Edited(root, next, results, places)
    requires |places| == |results| && !Differs(root, results, places)
    requires i < |root.content| && ProviderEntry(root, i) && root.content[i].shell.kind == SequenceNode
    ensures next.content[i] == root.content[i]
  {
    var key := root.content[i - 1].shell.value;
    KeyIndexUnique(root.content, key, i - 1);
    assert EntryEdited(root, next, i, results, places);
    hide KeyIndex, FineTree, EditedChannel, ChannelPatched, Edited;
    assert ValueOf(root, key) == Some(root.content[i]);
    var before := root.content[i].content;
    forall k, j {:trigger PlacedAt(results, places, key, k, j)} | 0 <= k < |before| && PlacedAt(results, places, key, k, j)
      ensures ChannelPatched(before[k], results[j].patches) && EditedChannel(before[k], results[j].patches) == before[k]
    {
      assert !Moves(root, results[j], places[j]);
    }
    ChannelsUnmoved(before, next.content[i].content, key, results, places);
  }

  /** The planner reports a change exactly when the check would see one. */
  lemma VerdictsAgree(reader: Reader, root: Tree, next: Tree, results: seq<ChannelPlan>, places: seq<nat>)
    requires FineTree(root) && root.shell.kind == MappingNode && Edited(root, next, results, places) && AllFound(reader, root, results, places)
    requires |places| == |results|
    ensures Differs(root, results, places) <==> next != root
  {
    hide FineTree, Edited, AllFound, Moves;
    if Differs(root, results, places) {
      var i :| 0 <= i < |places| && Moves(root, results[i], places[i]);
      PlaceMoves(root, next, results, places, i);
    } else {
      NothingMoves(reader, root, next, results, places);
    }
  }

  // ---------- the proposed document is one the check can read ----------

  lemma PatchedClean(model: Tree, patches: seq<ModelPatch>)
    requires Editable(model) && PatchedModel(model, patches).Some?
    ensures Clean(PatchedModel(model, patches).value)
  {
    hide ExactName, EditModel;
    if ExactName(model).Some? && PatchFor(patches, ExactName(model).value).Some? {
      EditModelKeeps(model, PatchFor(patches, ExactName(model).value).value, |FIELDS|);
    }
  }

  lemma EditedClean(channel: Tree, patches: seq<ModelPatch>)
    requires Located(channel) && ChannelPatched(channel, patches)
    ensures Clean(EditedChannel(channel, patches))
  {
    CleanValue(channel, "models");
    var models := ValueOf(channel, "models").value;
    forall m | 0 <= m < |models.content| ensures Clean(PatchedModels(models.content, patches)[m]) {
      PatchedClean(models.content[m], patches);
    }
    hide Clean, KeyIndex, PatchedModel, Editable, ExactlyNamed;
    CleanContent(models, PatchedModels(models.content, patches));
    CleanSetValue(channel, "models", models.(content := PatchedModels(models.content, patches)));
  }

  lemma ChannelsClean(before: seq<Tree>, after: seq<Tree>, key: string, results: seq<ChannelPlan>, places: seq<nat>)
    requires ChannelsEdited(before, after, key, results, places) && AllLocated(before, key, results, places)
    requires forall k :: 0 <= k < |before| ==> Clean(before[k])
    ensures forall k :: 0 <= k < |after| ==> Clean(after[k])
  {
    hide Clean, EditedChannel, Located, ChannelPatched;
    forall k | 0 <= k < |after| ensures Clean(after[k]) {
      if Placed(results, places, key, k) {
        var i :| PlacedAt(results, places, key, k, i);
        EditedClean(before[k], results[i].patches);
      }
    }
  }

  lemma EntryClean(reader: Reader, root: Tree, next: Tree, results: seq<ChannelPlan>, places: seq<nat>, i: nat)
    requires FineTree(root) && root.shell.kind == MappingNode && AllFound(reader, root, results, places) && Edited(root, next, results, places)
    requires i < |root.content| && ProviderEntry(root, i) && Clean(root.content[i])
    ensures Clean(next.content[i])
  {
    assert EntryEdited(root, next, i, results, places);
    if root.content[i].shell.kind == SequenceNode {
      EntryUnderKey(root, i);
      PlacesLocated(reader, root, root.content[i - 1].shell.value, results, places);
      CleanChildren(root.content[i]);
      hide FineTree, Clean, Edited, AllFound, ChannelsEdited, AllLocated;
      ChannelsClean(root.content[i].content, next.content[i].content, root.content[i - 1].shell.value, results, places);
      SameCount(root.content[i].content, next.content[i].content, root.content[i - 1].shell.value, results, places);
      CleanContent(root.content[i], next.content[i].content);
    }
  }

  lemma OwnedEntryReadable(reader: Reader, root: Tree, next: Tree, results: seq<ChannelPlan>, places: seq<nat>, i: nat)
    requires FineTree(root) && root.shell.kind == MappingNode && AllFound(reader, root, results, places) && Edited(root, next, results, places)
    requires i + 1 < |root.content| && i % 2 == 0
    requires OwnedRoot(WriterTypes.MetadataSync, root.content[i].shell.value) ==> Unambiguous(root.content[i + 1])
    ensures next.content[i] == root.content[i]
    ensures OwnedRoot(WriterTypes.MetadataSync, root.content[i].shell.value) ==> Unambiguous(next.content[i + 1])
  {
    hide AllFound;
    assert EntryEdited(root, next, i, results, places);
    if OwnedRoot(WriterTypes.MetadataSync, root.content[i].shell.value) {
      FineChild(root, i + 1);
      EntryClean(reader, root, next, results, places, i + 1);
    }
  }

  /** A proposal made from a base the check can read can itself be read. */
  lemma ProposalReadable(reader: Reader, root: Tree, next: Tree, results: seq<ChannelPlan>, places: seq<nat>)
    requires FineTree(root) && root.shell.kind == MappingNode && AllFound(reader, root, results, places) && Edited(root, next, results, places)
    requires MutablePaths(root, WriterTypes.MetadataSync)
    ensures MutablePaths(next, WriterTypes.MetadataSync)
  {
    hide FineTree, Unambiguous, AllFound, EntryEdited, PluginReadable, PluginConfigs;
    PluginsKept(root, next, results, places);
    forall i | 0 <= i < |next.content| - 1 && i % 2 == 0
      ensures next.content[i] == root.content[i]
      ensures OwnedRoot(WriterTypes.MetadataSync, root.content[i].shell.value) ==> Unambiguous(next.content[i + 1])
    {
      OwnedEntryReadable(reader, root, next, results, places, i);
    }
  }

  lemma PluginsKept(root: Tree, next: Tree, results: seq<ChannelPlan>, places: seq<nat>)
    requires Edited(root, next, results, places)
    ensures PluginConfigs(next) == PluginConfigs(root)
  {
    EditedKeys(root, next, results, places, "plugins");
    var i := KeyIndex(root.content, "plugins") + 1;
    hide KeyIndex, ChannelsEdited;
    if i < |root.content| {
      assert EntryEdited(root, next, i, results, places);
    }
    hide Edited, EntryEdited;
  }

  /** The whole check accepts the proposal exactly when it would accept the base unchanged and every field
      that has to change is one it takes for owned. */
  lemma ProposalMeetsCheck(reader: Reader, root: Tree, next: Tree, results: seq<ChannelPlan>, places: seq<nat>)
    requires FineTree(root) && root.shell.kind == MappingNode && AllFound(reader, root, results, places) && Edited(root, next, results, places)
    requires MutablePaths(root, WriterTypes.MetadataSync)
    ensures MayPropose(WriterTypes.MetadataSync, root, next) <==>
      MayPropose(WriterTypes.MetadataSync, root, root) && EditsAllowed(root, results, places)
  {
    ProposalReadable(reader, root, next, results, places);
    ProposalAccepted(reader, root, next, results, places);
    hide FineTree, MutablePaths, MetadataRoot, Edited, AllFound, EditsAllowed;
  }
}
