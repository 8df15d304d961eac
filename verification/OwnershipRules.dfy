/** The rules of the ownership check written out: which keys it knows by their text, which nodes may differ, and
    how. The check accepts a proposal if and only if the proposal keeps to them. */
module OwnershipRules {
  import opened Options
  import opened YamlGraph
  import opened YamlTree
  import opened YamlClone
  import opened Ownership
  import opened MetadataOwnership
  import opened OwnershipCheck
  import WriterTypes

  // ---------- what is said about one node ----------

  predicate SameProperties(b: Tree, p: Tree) {
    && b.shell.kind == p.shell.kind && b.shell.tag == p.shell.tag && b.shell.value == p.shell.value && b.shell.style == p.shell.style
    && b.shell.anchor == p.shell.anchor && b.shell.headComment == p.shell.headComment
    && b.shell.lineComment == p.shell.lineComment && b.shell.footComment == p.shell.footComment && b.alias == p.alias
  }

  predicate NoDecoration(tree: Tree) {
    && tree.shell.style == 0 && tree.shell.anchor == "" && tree.alias.None?
    && tree.shell.headComment == "" && tree.shell.lineComment == "" && tree.shell.footComment == ""
  }

  predicate PlainScalar(tree: Tree, text: string) {
    tree.shell.kind == ScalarNode && tree.shell.tag == "!!str" && tree.shell.value == text && NoDecoration(tree)
  }

  /** The mapping has this value under this key. */
  ghost predicate Holds(tree: Tree, key: string, value: Tree) {
    tree.shell.kind == MappingNode && exists i :: HoldsAt(tree.content, i, key, value)
  }

  predicate HoldsAt(content: seq<Tree>, i: int, key: string, value: Tree) {
    0 <= i < |content| - 1 && i % 2 == 0 && content[i].shell.value == key && content[i + 1] == value
  }

  ghost predicate NamedText(model: Tree, text: string) {
    exists value :: Holds(model, "name", value) && value.shell.kind == ScalarNode && value.shell.value == text && TrimSpace(text) != ""
  }

  /** No alias, anchor or merge key anywhere in it. */
  ghost predicate NoIndirection(tree: Tree) {
    && tree.shell.kind != AliasNode && tree.alias.None? && tree.shell.anchor == ""
    && (forall i :: 0 <= i < |tree.content| && i % 2 == 0 && tree.shell.kind == MappingNode ==>
         tree.content[i].shell.value != "<<" && tree.content[i].shell.tag != "!!merge")
    && (forall i :: 0 <= i < |tree.content| ==> NoIndirection(tree.content[i]))
  }

  // ---------- which documents can be compared ----------

  ghost predicate HasSection(configs: Tree, name: string) {
    exists section :: Holds(configs, name, section) && section.shell.kind == MappingNode && NoIndirection(section)
  }

  ghost predicate HasSections(configs: Tree) {
    && configs.shell.kind == MappingNode && HasSection(configs, "sync-config-write") && HasSection(configs, "auto-pull-models")
    && HasSection(configs, "model-metadata-sync") && HasSection(configs, "model-info")
  }

  ghost predicate HasPlugins(root: Tree) {
    exists plugins, configs :: Holds(root, "plugins", plugins) && Holds(plugins, "configs", configs) && HasSections(configs)
  }

  /** Under these keys of the root there is no alias, anchor or merge key. */
  ghost predicate Direct(root: Tree, keys: set<string>) {
    forall i :: 0 <= i < |root.content| && i % 2 == 1 && root.content[i - 1].shell.value in keys ==> NoIndirection(root.content[i])
  }

  // ---------- membership ----------

  /** A mapping of the key name to this text, and nothing else. */
  predicate BareModel(model: Tree, text: string) {
    && model.shell.kind == MappingNode && NoDecoration(model) && |model.content| == 2
    && PlainScalar(model.content[0], "name") && PlainScalar(model.content[1], text) && TrimSpace(text) != ""
  }

  ghost predicate HasName(model: Tree) {
    exists text :: NamedText(model, text)
  }

  ghost predicate NamesApart(models: seq<Tree>) {
    && (forall i :: 0 <= i < |models| ==> HasName(models[i]))
    && (forall i, j, text :: 0 <= i < j < |models| ==> !(NamedText(models[i], text) && NamedText(models[j], text)))
  }

  ghost predicate NewName(models: seq<Tree>, text: string) {
    forall i :: 0 <= i < |models| ==> !NamedText(models[i], text)
  }

  /** Every proposed model is one of the list, or has a new name and nothing else. */
  ghost predicate ListAllowed(b: Tree, p: Tree) {
    && SameProperties(b, p) && b.shell.kind == SequenceNode && NamesApart(b.content) && NamesApart(p.content)
    && (forall j :: 0 <= j < |p.content| ==>
         p.content[j] in b.content || exists text :: BareModel(p.content[j], text) && NewName(b.content, text))
  }

  ghost predicate ChannelNode(b: Tree, p: Tree, i: nat)
    requires i < |b.content| == |p.content|
  {
    if i % 2 == 1 && b.content[i - 1].shell.value == "models" then ListAllowed(b.content[i], p.content[i])
    else b.content[i] == p.content[i]
  }

  /** Values differ only under the key models, and there as allowed. */
  ghost predicate ChannelAllowed(b: Tree, p: Tree) {
    && SameProperties(b, p) && b.shell.kind == MappingNode && |b.content| == |p.content|
    && (forall i :: 0 <= i < |b.content| ==> ChannelNode(b, p, i))
  }

  ghost predicate ChannelsAllowed(b: Tree, p: Tree) {
    && SameProperties(b, p) && b.shell.kind == SequenceNode && |b.content| == |p.content|
    && (forall i :: 0 <= i < |b.content| ==> ChannelAllowed(b.content[i], p.content[i]))
  }

  ghost predicate RootNode(b: Tree, p: Tree, i: nat)
    requires i < |b.content| == |p.content|
  {
    if i % 2 == 1 && b.content[i - 1].shell.value == "openai-compatibility" then ChannelsAllowed(b.content[i], p.content[i])
    else b.content[i] == p.content[i]
  }

  /** Values differ only under the key openai-compatibility, and there as allowed. */
  ghost predicate MembershipRules(b: Tree, p: Tree) {
    && SameProperties(b, p) && |b.content| == |p.content|
    && (forall i :: 0 <= i < |b.content| ==> RootNode(b, p, i))
  }

  // ---------- metadata ----------

  predicate SixKey(key: Tree) {
    && key.shell.kind == ScalarNode && key.shell.tag == "!!str"
    && var text := key.shell.value;
       || text == "thinking" || text == "max-context-length" || text == "max-input-tokens" || text == "max-output-tokens"
       || text == "input-modalities" || text == "output-modalities"
  }

  /** The entries under other keys, in order. */
  function Others(content: seq<Tree>): seq<Tree> {
    if |content| < 2 then []
    else (if SixKey(content[0]) then [] else [content[0], content[1]]) + Others(content[2..])
  }

  /** One of the six keys is at this place. */
  predicate SixAt(content: seq<Tree>, i: int, name: string) {
    0 <= i < |content| - 1 && i % 2 == 0 && SixKey(content[i]) && content[i].shell.value == name
  }

  /** Keys that are kept are kept as they are and in their order, and new ones are plain. */
  ghost predicate KeysStay(b: seq<Tree>, p: seq<Tree>) {
    && (forall i, j, name :: SixAt(b, i, name) && SixAt(p, j, name) ==> b[i] == p[j])
    && (forall j, name :: SixAt(p, j, name) && (forall i :: !SixAt(b, i, name)) ==> NoDecoration(p[j]))
    && (forall i, i', j, j', one, two :: SixAt(b, i, one) && SixAt(b, i', two) && SixAt(p, j, one) && SixAt(p, j', two) ==>
         (i < i' <==> j < j'))
  }

  /** A model keeps its name and everything but the values under the six keys, of which there may be more or fewer. */
  ghost predicate ModelAllowed(b: Tree, p: Tree) {
    && SameProperties(b, p) && b.shell.kind == MappingNode
    && (exists text :: NamedText(b, text) && NamedText(p, text))
    && Others(b.content) == Others(p.content) && KeysStay(b.content, p.content)
  }

  ghost predicate ModelsAllowed(b: Tree, p: Tree) {
    && SameProperties(b, p) && b.shell.kind == SequenceNode && |b.content| == |p.content|
    && (forall i :: 0 <= i < |b.content| ==> ModelAllowed(b.content[i], p.content[i]))
  }

  ghost predicate ProviderNode(b: Tree, p: Tree, i: nat)
    requires i < |b.content| == |p.content|
  {
    if i % 2 == 1 && b.content[i - 1].shell.value == "models" then ModelsAllowed(b.content[i], p.content[i])
    else b.content[i] == p.content[i]
  }

  ghost predicate ProviderAllowed(b: Tree, p: Tree) {
    && SameProperties(b, p) && b.shell.kind == MappingNode && |b.content| == |p.content|
    && (forall i :: 0 <= i < |b.content| ==> ProviderNode(b, p, i))
  }

  ghost predicate ProvidersAllowed(b: Tree, p: Tree) {
    && SameProperties(b, p) && b.shell.kind == SequenceNode && |b.content| == |p.content|
    && (forall i :: 0 <= i < |b.content| ==> ProviderAllowed(b.content[i], p.content[i]))
  }

  predicate ProviderKey(text: string) {
    text == "openai-compatibility" || text == "claude-api-key"
  }

  ghost predicate MetadataNode(b: Tree, p: Tree, i: nat)
    requires i < |b.content| == |p.content|
  {
    if i % 2 == 1 && ProviderKey(b.content[i - 1].shell.value) then ProvidersAllowed(b.content[i], p.content[i])
    else b.content[i] == p.content[i]
  }

  ghost predicate MetadataRules(b: Tree, p: Tree) {
    && SameProperties(b, p) && |b.content| == |p.content|
    && (forall i :: 0 <= i < |b.content| ==> MetadataNode(b, p, i))
  }

  // ---------- the check is these rules: reading ----------

  lemma ShellIs(b: Tree, p: Tree)
    ensures SameShell(b, p) <==> SameProperties(b, p)
  {
  }

  lemma {:induction false} IndirectionIs(tree: Tree)
    ensures Unambiguous(tree) <==> NoIndirection(tree)
    decreases tree
  {
    forall i | 0 <= i < |tree.content| ensures Unambiguous(tree.content[i]) <==> NoIndirection(tree.content[i]) {
      IndirectionIs(tree.content[i]);
    }
  }

  /** In a fine mapping a key has one value. */
  lemma HoldsIs(tree: Tree, key: string)
    requires tree.shell.kind == MappingNode ==> FineEntries(tree.content)
    ensures forall value :: Holds(tree, key, value) <==> ValueOf(tree, key) == Some(value)
  {
    if tree.shell.kind == MappingNode {
      var index := KeyIndex(tree.content, key);
      forall value, i | HoldsAt(tree.content, i, key, value) ensures i == index {
        KeyIndexUnique(tree.content, key, i);
      }
      forall value ensures Holds(tree, key, value) <==> ValueOf(tree, key) == Some(value) {
        assert ValueOf(tree, key) == Some(value) ==> HoldsAt(tree.content, index, key, value);
      }
    }
  }

  lemma NameIs(model: Tree)
    requires FineTree(model)
    ensures forall text :: NamedText(model, text) <==> NameOf(model) == Some(text)
  {
    HoldsIs(model, "name");
    hide Holds, TrimSpace;
  }

  lemma SectionIs(configs: Tree, name: string)
    requires FineTree(configs)
    ensures HasSection(configs, name) <==> PluginReadable(configs, name)
  {
    HoldsIs(configs, name);
    if ValueOf(configs, name).Some? {
      IndirectionIs(ValueOf(configs, name).value);
    }
    hide Holds, Unambiguous, NoIndirection;
  }

  lemma EachName(configs: Tree, one: string, two: string, three: string, four: string)
    requires PLUGIN_NAMES == [one, two, three, four]
    ensures (PluginReadable(configs, one) && PluginReadable(configs, two) && PluginReadable(configs, three) && PluginReadable(configs, four)) <==>
      forall i :: 0 <= i < |PLUGIN_NAMES| ==> PluginReadable(configs, PLUGIN_NAMES[i])
  {
    hide PluginReadable;
    var names := [one, two, three, four];
    assert names[0] == one && names[1] == two && names[2] == three && names[3] == four;
    assert forall i :: 0 <= i < 4 ==> PLUGIN_NAMES[i] == names[i];
  }

  lemma SectionsAre(configs: Tree)
    requires FineTree(configs) && configs.shell.kind == MappingNode
    ensures HasSections(configs) <==> forall i :: 0 <= i < |PLUGIN_NAMES| ==> PluginReadable(configs, PLUGIN_NAMES[i])
  {
    SectionIs(configs, "sync-config-write");
    SectionIs(configs, "auto-pull-models");
    SectionIs(configs, "model-metadata-sync");
    SectionIs(configs, "model-info");
    hide HasSection, PluginReadable, FineTree;
    assert PLUGIN_NAMES == ["sync-config-write", "auto-pull-models", "model-metadata-sync", "model-info"];
    EachName(configs, "sync-config-write", "auto-pull-models", "model-metadata-sync", "model-info");
  }

  lemma ValueFine(tree: Tree, key: string)
    requires FineTree(tree) && ValueOf(tree, key).Some?
    ensures FineTree(ValueOf(tree, key).value)
  {
  }

  lemma PluginsAre(root: Tree)
    requires FineTree(root) && root.shell.kind == MappingNode
    ensures HasPlugins(root) <==>
      PluginConfigs(root).Some? && forall i :: 0 <= i < |PLUGIN_NAMES| ==> PluginReadable(PluginConfigs(root).value, PLUGIN_NAMES[i])
  {
    HoldsIs(root, "plugins");
    var plugins := ValueOf(root, "plugins");
    if plugins.Some? {
      ValueFine(root, "plugins");
      HoldsIs(plugins.value, "configs");
      var configs := ValueOf(plugins.value, "configs");
      if configs.Some? {
        ValueFine(plugins.value, "configs");
        if configs.value.shell.kind == MappingNode {
          SectionsAre(configs.value);
        }
      }
    }
    hide FineTree, Holds, PluginReadable, HasSection, FineEntries;
    if HasPlugins(root) {
      var found, configs :| Holds(root, "plugins", found) && Holds(found, "configs", configs) && HasSections(configs);
      assert plugins == Some(found) && ValueOf(found, "configs") == Some(configs);
      ConfigsOf(root, found, configs);
    }
    if PluginConfigs(root).Some? {
      assert Holds(root, "plugins", plugins.value) && Holds(plugins.value, "configs", PluginConfigs(root).value);
    }
  }

  lemma ConfigsOf(root: Tree, plugins: Tree, configs: Tree)
    requires ValueOf(root, "plugins") == Some(plugins) && ValueOf(plugins, "configs") == Some(configs) && configs.shell.kind == MappingNode
    ensures PluginConfigs(root) == Some(configs)
  {
  }

  lemma DirectIs(root: Tree, operation: WriterTypes.Operation, keys: set<string>)
    requires forall text :: text in keys <==> OwnedRoot(operation, text)
    ensures Direct(root, keys) <==> RootsReadable(root.content, operation, |root.content|)
  {
    forall i | 0 <= i < |root.content| ensures Unambiguous(root.content[i]) <==> NoIndirection(root.content[i]) {
      IndirectionIs(root.content[i]);
    }
    hide Unambiguous, NoIndirection, OwnedRoot;
    if RootsReadable(root.content, operation, |root.content|) {
      forall i | 0 <= i < |root.content| && i % 2 == 1 && root.content[i - 1].shell.value in keys ensures NoIndirection(root.content[i]) {
        var k := i - 1;
        assert k % 2 == 0 && OwnedRoot(operation, root.content[k].shell.value);
      }
    }
    if Direct(root, keys) {
      forall i | 0 <= i < |root.content| - 1 && i % 2 == 0 && OwnedRoot(operation, root.content[i].shell.value)
        ensures Unambiguous(root.content[i + 1])
      {
        var k := i + 1;
        assert k % 2 == 1 && root.content[k - 1].shell.value in keys;
      }
    }
  }

  /** Which documents the check can compare. */
  lemma ReadableExactly(root: Tree, operation: WriterTypes.Operation)
    requires FineTree(root) && root.shell.kind == MappingNode
    ensures MutablePaths(root, operation) <==>
      match operation
      case AutoPull => HasPlugins(root) && Direct(root, {"openai-compatibility"})
      case MetadataSync => HasPlugins(root) && Direct(root, {"openai-compatibility", "claude-api-key"})
      case _ => false
  {
    PluginsAre(root);
    hide FineTree, HasPlugins, PluginReadable, Direct, RootsReadable;
    if operation == WriterTypes.AutoPull {
      DirectIs(root, operation, {"openai-compatibility"});
    } else if operation == WriterTypes.MetadataSync {
      DirectIs(root, operation, {"openai-compatibility", "claude-api-key"});
    }
  }

  // ---------- the check is these rules: membership ----------

  lemma ChildrenFine(tree: Tree)
    requires FineTree(tree)
    ensures forall i :: 0 <= i < |tree.content| ==> FineTree(tree.content[i])
    ensures tree.shell.kind == MappingNode ==> FineEntries(tree.content) && |tree.content| % 2 == 0
  {
  }

  lemma NamesApartIs(list: Tree)
    requires FineTree(list)
    ensures NamesApart(list.content) <==> Named(list.content)
  {
    var models := list.content;
    forall i | 0 <= i < |models| ensures NamedAs(models[i]) {
      NameIs(models[i]);
    }
    hide FineTree;
    NamesApartOf(models);
  }

  ghost predicate NamedAs(model: Tree) {
    forall text :: NamedText(model, text) <==> NameOf(model) == Some(text)
  }

  lemma NamesApartOf(models: seq<Tree>)
    requires forall i :: 0 <= i < |models| ==> NamedAs(models[i])
    ensures NamesApart(models) <==> Named(models)
  {
    hide NamedText, NameOf;
    if NamesApart(models) {
      forall i | 0 <= i < |models| ensures NameOf(models[i]).Some? {
        assert HasName(models[i]) && NamedAs(models[i]);
      }
      forall i, j | 0 <= i < j < |models| ensures NameOf(models[i]) != NameOf(models[j]) {
        assert NamedAs(models[i]) && NamedAs(models[j]);
        var text := NameOf(models[i]).value;
        assert NamedText(models[i], text);
      }
    }
    if Named(models) {
      forall i | 0 <= i < |models| ensures HasName(models[i]) {
        assert NamedAs(models[i]);
        assert NamedText(models[i], NameOf(models[i]).value);
      }
      forall i, j, text | 0 <= i < j < |models| ensures !(NamedText(models[i], text) && NamedText(models[j], text)) {
        assert NamedAs(models[i]) && NamedAs(models[j]) && NameOf(models[i]) != NameOf(models[j]);
      }
    }
  }

  lemma BareIs(model: Tree, text: string)
    requires FineTree(model)
    ensures BareModel(model, text) <==> Minimal(model, text) && NameOf(model) == Some(text)
  {
    hide TrimSpace;
    if Minimal(model, text) {
      NameAt(model, 0);
    }
  }

  lemma AllowedIs(b: Tree, model: Tree)
    requires FineTree(b) && FineTree(model)
    ensures AllowedModel(b.content, model) <==> model in b.content || exists text :: BareModel(model, text) && NewName(b.content, text)
  {
    forall i | 0 <= i < |b.content| ensures forall text :: NamedText(b.content[i], text) <==> NameOf(b.content[i]) == Some(text) {
      NameIs(b.content[i]);
    }
    forall text {
      BareIs(model, text);
    }
    hide NamedText, NameOf, FineTree, BareModel, Minimal;
    if NameOf(model).Some? {
      assert BareModel(model, NameOf(model).value) <==> Minimal(model, NameOf(model).value);
      assert NewName(b.content, NameOf(model).value) <==> forall i :: 0 <= i < |b.content| ==> NameOf(b.content[i]) != NameOf(model);
    }
  }

  lemma ListIs(b: Tree, p: Tree)
    requires FineTree(b) && FineTree(p)
    ensures MembershipModels(b, p) <==> ListAllowed(b, p)
  {
    ShellIs(b, p);
    NamesApartIs(b);
    NamesApartIs(p);
    forall j | 0 <= j < |p.content|
      ensures AllowedModel(b.content, p.content[j]) <==>
        p.content[j] in b.content || exists text :: BareModel(p.content[j], text) && NewName(b.content, text)
    {
      AllowedIs(b, p.content[j]);
    }
    hide AllowedModel, BareModel, NewName, Named, NamesApart, FineTree, SameProperties;
  }

  lemma ChannelIsEntry(b: Tree, p: Tree, k: nat)
    requires |b.content| == |p.content| && k + 1 < |b.content| && k % 2 == 0
    requires MembershipModels(b.content[k + 1], p.content[k + 1]) <==> ListAllowed(b.content[k + 1], p.content[k + 1])
    ensures MembershipEntry(b, p, k) <==> ChannelNode(b, p, k) && ChannelNode(b, p, k + 1)
  {
    hide MembershipModels, ListAllowed;
  }

  lemma ChannelIs(b: Tree, p: Tree)
    requires FineTree(b) && FineTree(p)
    ensures MembershipProvider(b, p) <==> ChannelAllowed(b, p)
  {
    ShellIs(b, p);
    ChildrenFine(b);
    ChildrenFine(p);
    hide FineTree, SameProperties, SameShell, FineEntries, MembershipEntry, ChannelNode;
    if |b.content| == |p.content| && b.shell.kind == MappingNode {
      forall k | 0 <= k < |b.content| - 1 && k % 2 == 0
        ensures MembershipEntry(b, p, k) <==> ChannelNode(b, p, k) && ChannelNode(b, p, k + 1)
      {
        ListIs(b.content[k + 1], p.content[k + 1]);
        ChannelIsEntry(b, p, k);
      }
      if forall i :: 0 <= i < |b.content| ==> ChannelNode(b, p, i) {
        forall k | 0 <= k < |b.content| - 1 && k % 2 == 0 ensures MembershipEntry(b, p, k) {
          assert ChannelNode(b, p, k) && ChannelNode(b, p, k + 1);
        }
      }
      if forall k {:trigger MembershipEntry(b, p, k)} :: 0 <= k < |b.content| - 1 && k % 2 == 0 ==> MembershipEntry(b, p, k) {
        forall i | 0 <= i < |b.content| ensures ChannelNode(b, p, i) {
          assert MembershipEntry(b, p, if i % 2 == 0 then i else i - 1);
        }
      }
    }
  }


  lemma ChannelsAre(b: Tree, p: Tree)
    requires FineTree(b) && FineTree(p)
    ensures MembershipProviders(b, p) <==> ChannelsAllowed(b, p)
  {
    ShellIs(b, p);
    if |b.content| == |p.content| {
      forall i | 0 <= i < |b.content| ensures MembershipProvider(b.content[i], p.content[i]) <==> ChannelAllowed(b.content[i], p.content[i]) {
        ChannelIs(b.content[i], p.content[i]);
      }
    }
    hide FineTree, SameProperties, SameShell, MembershipProvider, ChannelAllowed;
  }

  lemma MembershipIsEntry(b: Tree, p: Tree, k: nat)
    requires |b.content| == |p.content| && k + 1 < |b.content| && k % 2 == 0
    requires MembershipProviders(b.content[k + 1], p.content[k + 1]) <==> ChannelsAllowed(b.content[k + 1], p.content[k + 1])
    ensures MembershipRootEntry(b, p, k) <==> RootNode(b, p, k) && RootNode(b, p, k + 1)
  {
    hide MembershipProviders, ChannelsAllowed;
  }

  lemma MembershipIs(b: Tree, p: Tree)
    requires FineTree(b) && FineTree(p) && b.shell.kind == MappingNode
    ensures MembershipRoot(b, p) <==> MembershipRules(b, p)
  {
    ShellIs(b, p);
    ChildrenFine(b);
    ChildrenFine(p);
    hide FineTree, SameProperties, SameShell, FineEntries, MembershipRootEntry, RootNode;
    if |b.content| == |p.content| && b.shell.kind == MappingNode {
      forall k | 0 <= k < |b.content| - 1 && k % 2 == 0
        ensures MembershipRootEntry(b, p, k) <==> RootNode(b, p, k) && RootNode(b, p, k + 1)
      {
        ChannelsAre(b.content[k + 1], p.content[k + 1]);
        MembershipIsEntry(b, p, k);
      }
      if forall i :: 0 <= i < |b.content| ==> RootNode(b, p, i) {
        forall k | 0 <= k < |b.content| - 1 && k % 2 == 0 ensures MembershipRootEntry(b, p, k) {
          assert RootNode(b, p, k) && RootNode(b, p, k + 1);
        }
      }
      if forall k {:trigger MembershipRootEntry(b, p, k)} :: 0 <= k < |b.content| - 1 && k % 2 == 0 ==> MembershipRootEntry(b, p, k) {
        forall i | 0 <= i < |b.content| ensures RootNode(b, p, i) {
          assert MembershipRootEntry(b, p, if i % 2 == 0 then i else i - 1);
        }
      }
    }
  }


  /** A membership proposal is accepted exactly when it keeps to the rules for one. */
  lemma MembershipExactly(b: Tree, p: Tree)
    requires FineTree(b) && FineTree(p) && b.shell.kind == MappingNode && p.shell.kind == MappingNode
    ensures MayPropose(WriterTypes.AutoPull, b, p) <==>
      && HasPlugins(b) && Direct(b, {"openai-compatibility"}) && HasPlugins(p) && Direct(p, {"openai-compatibility"})
      && MembershipRules(b, p)
  {
    ReadableExactly(b, WriterTypes.AutoPull);
    ReadableExactly(p, WriterTypes.AutoPull);
    MembershipIs(b, p);
    hide FineTree, MutablePaths, MembershipRoot, MembershipRules, HasPlugins, Direct;
  }

  // ---------- the order of kept keys ----------

  /** One text comes before the other. */
  ghost predicate Before(order: seq<string>, one: string, two: string) {
    exists i, j :: 0 <= i < j < |order| && order[i] == one && order[j] == two
  }

  ghost predicate Once(order: seq<string>) {
    forall i, j :: 0 <= i < j < |order| ==> order[i] != order[j]
  }

  /** Lists without repetition are the same if they have the same texts in the same order. */
  lemma {:induction false} SameOrderSame(one: seq<string>, two: seq<string>)
    requires Once(one) && Once(two) && (forall text :: text in one <==> text in two)
    requires forall a, b :: Before(one, a, b) ==> Before(two, a, b)
    ensures one == two
    decreases |one|
  {
    HasText(two);
    if one != [] {
      assert one[0] in one;
      assert two != [];
      FirstIsFirst(one, two);
      forall text ensures text in one[1..] <==> text in two[1..] {
        InRest(one, text);
        InRest(two, text);
      }
      forall a, b | Before(one[1..], a, b) ensures Before(two[1..], a, b) {
        BeforeInRest(one, a, b);
        BeforeInRest(two, a, b);
      }
      SameOrderSame(one[1..], two[1..]);
      assert one == [one[0]] + one[1..] && two == [two[0]] + two[1..];
    }
  }

  lemma HasText(order: seq<string>)
    ensures order != [] ==> exists text :: text in order
  {
    if order != [] {
      assert order[0] in order;
    }
  }

  lemma FirstIsBefore(order: seq<string>, i: nat)
    requires 0 < i < |order|
    ensures Before(order, order[0], order[i])
  {
  }

  lemma NothingBeforeFirst(order: seq<string>, text: string)
    requires Once(order) && order != []
    ensures !Before(order, text, order[0])
  {
  }

  lemma FirstIsFirst(one: seq<string>, two: seq<string>)
    requires Once(one) && Once(two) && (forall text :: text in one <==> text in two) && one != [] && two != []
    requires forall a, b :: Before(one, a, b) ==> Before(two, a, b)
    ensures one[0] == two[0]
  {
    assert two[0] in two && two[0] in one;
    var i :| 0 <= i < |one| && one[i] == two[0];
    if i > 0 {
      FirstIsBefore(one, i);
      NothingBeforeFirst(two, one[0]);
    }
  }

  lemma InRest(order: seq<string>, text: string)
    requires Once(order) && order != []
    ensures text in order[1..] <==> text in order && text != order[0]
  {
    if text in order[1..] {
      var i :| 0 <= i < |order| - 1 && order[1..][i] == text;
      assert order[i + 1] == text;
    }
    if text in order && text != order[0] {
      var i :| 0 <= i < |order| && order[i] == text;
      assert order[1..][i - 1] == text;
    }
  }

  lemma BeforeInRest(order: seq<string>, a: string, b: string)
    requires Once(order) && order != []
    ensures Before(order[1..], a, b) <==> Before(order, a, b) && a != order[0]
  {
    if Before(order[1..], a, b) {
      var i, j :| 0 <= i < j < |order| - 1 && order[1..][i] == a && order[1..][j] == b;
      assert order[i + 1] == a && order[j + 1] == b;
    }
    if Before(order, a, b) && a != order[0] {
      var i, j :| 0 <= i < j < |order| && order[i] == a && order[j] == b;
      assert order[1..][i - 1] == a && order[1..][j - 1] == b;
    }
  }

  lemma {:induction false} RetainedBefore(order: seq<string>, names: set<string>, a: string, b: string)
    requires Once(order)
    ensures Before(Retained(order, names), a, b) <==> Before(order, a, b) && a in names && b in names
    ensures Once(Retained(order, names)) && (a in Retained(order, names) <==> a in order && a in names)
  {
    RetainedMembers(order, names);
    if order != [] {
      var rest := order[1..];
      RetainedBefore(rest, names, a, b);
      RetainedMembers(rest, names);
      InRest(order, order[0]);
      BeforeInRest(order, a, b);
      BeforeFirst(order, b);
      if order[0] in names {
        var kept := Retained(order, names);
        assert kept[1..] == Retained(rest, names) && kept[0] == order[0];
        assert Once(kept);
        BeforeInRest(kept, a, b);
        BeforeFirst(kept, b);
        InRest(order, b);
        InRest(kept, b);
      }
    }
  }

  lemma BeforeFirst(order: seq<string>, b: string)
    requires Once(order) && order != []
    ensures Before(order, order[0], b) <==> b in order[1..]
  {
    if Before(order, order[0], b) {
      var i, j :| 0 <= i < j < |order| && order[i] == order[0] && order[j] == b;
      assert order[1..][j - 1] == b;
    }
    if b in order[1..] {
      var j :| 0 <= j < |order| - 1 && order[1..][j] == b;
      assert order[0] == order[0] && order[j + 1] == b;
    }
  }

  lemma {:induction false} RetainedMembers(order: seq<string>, names: set<string>)
    ensures forall a :: a in Retained(order, names) <==> a in order && a in names
  {
    if order != [] {
      RetainedMembers(order[1..], names);
      assert order == [order[0]] + order[1..];
    }
  }

  // ---------- the check is these rules: metadata ----------

  lemma SixIs(key: Tree)
    ensures OwnedKey(key) <==> SixKey(key)
  {
  }

  lemma {:induction false} OthersAre(content: seq<Tree>)
    ensures Others(content) == Unowned(content)
  {
    if |content| >= 2 {
      SixIs(content[0]);
      OthersAre(content[2..]);
    }
  }

  ghost predicate HasSix(content: seq<Tree>, name: string) {
    exists i :: SixAt(content, i, name)
  }

  ghost predicate SixInOrder(content: seq<Tree>, one: string, two: string) {
    exists i, j :: i < j && SixAt(content, i, one) && SixAt(content, j, two)
  }

  lemma OnePlace(content: seq<Tree>, i: int, j: int, name: string)
    requires FineEntries(content) && SixAt(content, i, name) && SixAt(content, j, name)
    ensures i == j
  {
    hide SixKey;
  }

  lemma KeyNodeIs(content: seq<Tree>, name: string)
    requires FineEntries(content)
    ensures KeyNode(content, name).Some? <==> HasSix(content, name)
    ensures forall i :: SixAt(content, i, name) ==> KeyNode(content, name) == Some(content[i])
  {
    var index := KeyIndex(content, name);
    if index < |content| {
      SixIs(content[index]);
    }
    hide OwnedKey, SixKey;
    forall i | SixAt(content, i, name) ensures i == index {
      KeyIndexUnique(content, name, i);
    }
    assert KeyNode(content, name).Some? ==> SixAt(content, index, name);
  }

  lemma OwnedNamesAre(content: seq<Tree>, name: string)
    requires FineEntries(content)
    ensures name in OwnedNames(content) <==> HasSix(content, name)
  {
    KeyNodeIs(content, name);
    if HasSix(content, name) {
      var i :| SixAt(content, i, name);
      SixIs(content[i]);
    }
    hide KeyNode, SixKey;
  }

  lemma SixLater(content: seq<Tree>, i: int, name: string)
    requires |content| >= 2
    ensures SixAt(content[2..], i - 2, name) <==> i >= 2 && SixAt(content, i, name)
  {
    hide SixKey;
  }

  lemma {:induction false} OrderMembers(content: seq<Tree>, name: string)
    ensures name in Order(content) <==> HasSix(content, name)
  {
    if |content| >= 2 {
      var rest := content[2..];
      OrderMembers(rest, name);
      SixIs(content[0]);
      hide SixKey, OwnedKey;
      if HasSix(rest, name) {
        var i :| SixAt(rest, i, name);
        SixLater(content, i + 2, name);
      }
      if HasSix(content, name) {
        var i :| SixAt(content, i, name);
        SixLater(content, i, name);
      }
      assert OwnedKey(content[0]) && content[0].shell.value == name ==> SixAt(content, 0, name);
    }
  }

  lemma {:induction false} OrderOnce(content: seq<Tree>)
    requires FineEntries(content)
    ensures Once(Order(content))
  {
    if |content| >= 2 {
      var rest := content[2..];
      OrderOnce(rest);
      if OwnedKey(content[0]) {
        OrderMembers(rest, content[0].shell.value);
        NotLater(content, content[0].shell.value);
        hide OwnedKey, SixKey, FineEntries;
        var order := Order(content);
        assert order[1..] == Order(rest);
        forall i, j | 0 <= i < j < |order| ensures order[i] != order[j] {
          assert order[j] == Order(rest)[j - 1];
          assert i > 0 ==> order[i] == Order(rest)[i - 1];
        }
      }
    }
  }

  lemma NotLater(content: seq<Tree>, name: string)
    requires FineEntries(content) && |content| >= 2 && content[0].shell.value == name
    ensures !HasSix(content[2..], name)
  {
    hide SixKey;
    forall i ensures !SixAt(content[2..], i, name) {
      SixLater(content, i + 2, name);
    }
  }

  lemma {:induction false} OrderBefore(content: seq<Tree>, one: string, two: string)
    requires FineEntries(content)
    ensures Before(Order(content), one, two) <==> SixInOrder(content, one, two)
  {
    OrderOnce(content);
    if |content| >= 2 {
      var rest, key := content[2..], content[0].shell.value;
      OrderBefore(rest, one, two);
      OrderMembers(rest, two);
      SixIs(content[0]);
      LaterInOrder(content, one, two);
      if OwnedKey(content[0]) {
        var order := Order(content);
        assert order[1..] == Order(rest) && order[0] == key;
        BeforeInRest(order, one, two);
        BeforeFirst(order, two);
        NotLater(content, key);
        if key == one {
          NotBeforeLater(content, one, two);
        }
      }
      hide OwnedKey, SixKey, FineEntries, Before;
    }
  }

  /** Two of the keys in order: both later, or the first one here and the other later. */
  lemma LaterInOrder(content: seq<Tree>, one: string, two: string)
    requires |content| >= 2
    ensures SixInOrder(content, one, two) <==>
      SixInOrder(content[2..], one, two) || (SixKey(content[0]) && content[0].shell.value == one && HasSix(content[2..], two))
  {
    hide SixKey;
    var rest := content[2..];
    if SixInOrder(content, one, two) {
      var i, j :| i < j && SixAt(content, i, one) && SixAt(content, j, two);
      SixLater(content, i, one);
      SixLater(content, j, two);
    }
    if SixInOrder(rest, one, two) {
      var i, j :| i < j && SixAt(rest, i, one) && SixAt(rest, j, two);
      SixLater(content, i + 2, one);
      SixLater(content, j + 2, two);
    }
    if SixKey(content[0]) && content[0].shell.value == one && HasSix(rest, two) {
      var j :| SixAt(rest, j, two);
      SixLater(content, j + 2, two);
      assert SixAt(content, 0, one);
    }
  }

  lemma NotBeforeLater(content: seq<Tree>, one: string, two: string)
    requires FineEntries(content) && |content| >= 2 && content[0].shell.value == one
    ensures !SixInOrder(content[2..], one, two)
  {
    hide SixKey;
    NotLater(content, one);
  }

  lemma PositionsOrder(content: seq<Tree>, i: int, j: int, one: string, two: string)
    requires FineEntries(content) && SixAt(content, i, one) && SixAt(content, j, two)
    ensures i < j <==> Before(Order(content), one, two)
  {
    OrderBefore(content, one, two);
    if SixInOrder(content, one, two) {
      var k, l :| k < l && SixAt(content, k, one) && SixAt(content, l, two);
      OnePlace(content, i, k, one);
      OnePlace(content, j, l, two);
    }
    hide SixKey, FineEntries, Before;
  }

  ghost predicate SameRelativeOrder(b: seq<Tree>, p: seq<Tree>) {
    forall i, i', j, j', one, two :: SixAt(b, i, one) && SixAt(b, i', two) && SixAt(p, j, one) && SixAt(p, j', two) ==>
      (i < i' <==> j < j')
  }

  lemma OrderKept(b: seq<Tree>, p: seq<Tree>)
    requires FineEntries(b) && FineEntries(p) && Retained(Order(b), OwnedNames(p)) == Retained(Order(p), OwnedNames(b))
    ensures SameRelativeOrder(b, p)
  {
    OrderOnce(b);
    OrderOnce(p);
    hide FineEntries, SixAt, Before, Once, OwnedNames;
    forall i, i', j, j', one, two | SixAt(b, i, one) && SixAt(b, i', two) && SixAt(p, j, one) && SixAt(p, j', two)
      ensures i < i' <==> j < j'
    {
      PositionsOrder(b, i, i', one, two);
      PositionsOrder(p, j, j', one, two);
      RetainedBefore(Order(b), OwnedNames(p), one, two);
      RetainedBefore(Order(p), OwnedNames(b), one, two);
      OwnedNamesAre(b, one);
      OwnedNamesAre(b, two);
      OwnedNamesAre(p, one);
      OwnedNamesAre(p, two);
    }
  }

  lemma OrderSuffices(b: seq<Tree>, p: seq<Tree>)
    requires FineEntries(b) && FineEntries(p) && SameRelativeOrder(b, p)
    ensures Retained(Order(b), OwnedNames(p)) == Retained(Order(p), OwnedNames(b))
  {
    var one, two := Retained(Order(b), OwnedNames(p)), Retained(Order(p), OwnedNames(b));
    OrderOnce(b);
    OrderOnce(p);
    RetainedBefore(Order(b), OwnedNames(p), "", "");
    RetainedBefore(Order(p), OwnedNames(b), "", "");
    RetainedMembers(Order(b), OwnedNames(p));
    RetainedMembers(Order(p), OwnedNames(b));
    hide FineEntries, SixAt, Before, Once, OwnedNames, Retained;
    forall text ensures text in one <==> text in two {
      OrderMembers(b, text);
      OrderMembers(p, text);
      OwnedNamesAre(b, text);
      OwnedNamesAre(p, text);
    }
    forall x, y | Before(one, x, y) ensures Before(two, x, y) {
      RetainedBefore(Order(b), OwnedNames(p), x, y);
      RetainedBefore(Order(p), OwnedNames(b), x, y);
      OwnedNamesAre(b, x);
      OwnedNamesAre(b, y);
      OwnedNamesAre(p, x);
      OwnedNamesAre(p, y);
      OrderBefore(b, x, y);
      var i, i' :| i < i' && SixAt(b, i, x) && SixAt(b, i', y);
      var j :| SixAt(p, j, x);
      var j' :| SixAt(p, j', y);
      PositionsOrder(p, j, j', x, y);
    }
    SameOrderSame(one, two);
  }

  ghost predicate KeptAsTheyAre(b: seq<Tree>, p: seq<Tree>) {
    && (forall i, j, name :: SixAt(b, i, name) && SixAt(p, j, name) ==> b[i] == p[j])
    && (forall j, name :: SixAt(p, j, name) && !HasSix(b, name) ==> NoDecoration(p[j]))
  }

  lemma KeysKeptIs(b: seq<Tree>, p: seq<Tree>)
    requires FineEntries(b) && FineEntries(p)
    ensures KeysKept(b, p) <==> KeptAsTheyAre(b, p)
  {
    forall name ensures Placed(b, name) && Placed(p, name) {
      KeyPlaces(b, name);
      KeyPlaces(p, name);
    }
    hide FineEntries, OwnedNames, KeyNode, SixKey;
    if KeysKept(b, p) {
      forall i, j, name | SixAt(b, i, name) && SixAt(p, j, name) ensures b[i] == p[j] {
        assert Placed(b, name) && Placed(p, name);
      }
      forall j, name | SixAt(p, j, name) && !HasSix(b, name) ensures NoDecoration(p[j]) {
        assert Placed(b, name) && Placed(p, name);
      }
    }
    if KeptAsTheyAre(b, p) {
      forall name | name in OwnedNames(p)
        ensures KeyNode(p, name).Some?
        ensures if name in OwnedNames(b) then KeyNode(b, name) == KeyNode(p, name) else Undecorated(KeyNode(p, name).value)
      {
        assert Placed(b, name) && Placed(p, name);
        var j :| SixAt(p, j, name);
        if name in OwnedNames(b) {
          var i :| SixAt(b, i, name);
        }
      }
    }
  }

  ghost predicate Placed(content: seq<Tree>, name: string) {
    && (name in OwnedNames(content) <==> HasSix(content, name))
    && (name in OwnedNames(content) <==> KeyNode(content, name).Some?)
    && (forall i :: SixAt(content, i, name) ==> KeyNode(content, name) == Some(content[i]))
  }

  lemma KeyPlaces(content: seq<Tree>, name: string)
    requires FineEntries(content)
    ensures Placed(content, name)
  {
    KeyNodeIs(content, name);
    OwnedNamesAre(content, name);
    hide OwnedNames, KeyNode, SixKey, FineEntries;
  }

  lemma StayParts(b: seq<Tree>, p: seq<Tree>)
    ensures KeysStay(b, p) <==> KeptAsTheyAre(b, p) && SameRelativeOrder(b, p)
  {
    hide SixAt;
  }

  lemma ModelIs(b: Tree, p: Tree)
    requires FineTree(b) && FineTree(p)
    ensures MetadataModel(b, p) <==> ModelAllowed(b, p)
  {
    ShellIs(b, p);
    NameIs(b);
    NameIs(p);
    OthersAre(b.content);
    OthersAre(p.content);
    ChildrenFine(b);
    ChildrenFine(p);
    if b.shell.kind == MappingNode && p.shell.kind == MappingNode {
      KeysKeptIs(b.content, p.content);
      StayParts(b.content, p.content);
      hide FineTree, FineEntries, SixAt, OwnedNames, Retained, Order, KeysStay, KeysKept, NamedText, NameOf;
      if SameRelativeOrder(b.content, p.content) {
        OrderSuffices(b.content, p.content);
      }
      if Retained(Order(b.content), OwnedNames(p.content)) == Retained(Order(p.content), OwnedNames(b.content)) {
        OrderKept(b.content, p.content);
      }
    }
  }

  lemma ModelsAre(b: Tree, p: Tree)
    requires FineTree(b) && FineTree(p)
    ensures MetadataModels(b, p) <==> ModelsAllowed(b, p)
  {
    ShellIs(b, p);
    if |b.content| == |p.content| {
      forall i | 0 <= i < |b.content| ensures MetadataModel(b.content[i], p.content[i]) <==> ModelAllowed(b.content[i], p.content[i]) {
        ModelIs(b.content[i], p.content[i]);
      }
    }
    hide FineTree, SameProperties, SameShell, MetadataModel, ModelAllowed;
  }

  lemma ProviderIsEntry(b: Tree, p: Tree, k: nat)
    requires |b.content| == |p.content| && k + 1 < |b.content| && k % 2 == 0
    requires MetadataModels(b.content[k + 1], p.content[k + 1]) <==> ModelsAllowed(b.content[k + 1], p.content[k + 1])
    ensures MetadataEntry(b, p, k) <==> ProviderNode(b, p, k) && ProviderNode(b, p, k + 1)
  {
    hide MetadataModels, ModelsAllowed;
  }

  lemma ProviderIs(b: Tree, p: Tree)
    requires FineTree(b) && FineTree(p)
    ensures MetadataProvider(b, p) <==> ProviderAllowed(b, p)
  {
    ShellIs(b, p);
    ChildrenFine(b);
    ChildrenFine(p);
    hide FineTree, SameProperties, SameShell, FineEntries, MetadataEntry, ProviderNode;
    if |b.content| == |p.content| && b.shell.kind == MappingNode {
      forall k | 0 <= k < |b.content| - 1 && k % 2 == 0
        ensures MetadataEntry(b, p, k) <==> ProviderNode(b, p, k) && ProviderNode(b, p, k + 1)
      {
        ModelsAre(b.content[k + 1], p.content[k + 1]);
        ProviderIsEntry(b, p, k);
      }
      if forall i :: 0 <= i < |b.content| ==> ProviderNode(b, p, i) {
        forall k | 0 <= k < |b.content| - 1 && k % 2 == 0 ensures MetadataEntry(b, p, k) {
          assert ProviderNode(b, p, k) && ProviderNode(b, p, k + 1);
        }
      }
      if forall k {:trigger MetadataEntry(b, p, k)} :: 0 <= k < |b.content| - 1 && k % 2 == 0 ==> MetadataEntry(b, p, k) {
        forall i | 0 <= i < |b.content| ensures ProviderNode(b, p, i) {
          assert MetadataEntry(b, p, if i % 2 == 0 then i else i - 1);
        }
      }
    }
  }


  lemma ProvidersAre(b: Tree, p: Tree)
    requires FineTree(b) && FineTree(p)
    ensures MetadataProviders(b, p) <==> ProvidersAllowed(b, p)
  {
    ShellIs(b, p);
    if |b.content| == |p.content| {
      forall i | 0 <= i < |b.content| ensures MetadataProvider(b.content[i], p.content[i]) <==> ProviderAllowed(b.content[i], p.content[i]) {
        ProviderIs(b.content[i], p.content[i]);
      }
    }
    hide FineTree, SameProperties, SameShell, MetadataProvider, ProviderAllowed;
  }

  lemma MetadataIsEntry(b: Tree, p: Tree, k: nat)
    requires |b.content| == |p.content| && k + 1 < |b.content| && k % 2 == 0
    requires MetadataProviders(b.content[k + 1], p.content[k + 1]) <==> ProvidersAllowed(b.content[k + 1], p.content[k + 1])
    ensures MetadataRootEntry(b, p, k) <==> MetadataNode(b, p, k) && MetadataNode(b, p, k + 1)
  {
    hide MetadataProviders, ProvidersAllowed;
  }

  lemma MetadataIs(b: Tree, p: Tree)
    requires FineTree(b) && FineTree(p) && b.shell.kind == MappingNode
    ensures MetadataRoot(b, p) <==> MetadataRules(b, p)
  {
    ShellIs(b, p);
    ChildrenFine(b);
    ChildrenFine(p);
    hide FineTree, SameProperties, SameShell, FineEntries, MetadataRootEntry, MetadataNode;
    if |b.content| == |p.content| && b.shell.kind == MappingNode {
      forall k | 0 <= k < |b.content| - 1 && k % 2 == 0
        ensures MetadataRootEntry(b, p, k) <==> MetadataNode(b, p, k) && MetadataNode(b, p, k + 1)
      {
        ProvidersAre(b.content[k + 1], p.content[k + 1]);
        MetadataIsEntry(b, p, k);
      }
      if forall i :: 0 <= i < |b.content| ==> MetadataNode(b, p, i) {
        forall k | 0 <= k < |b.content| - 1 && k % 2 == 0 ensures MetadataRootEntry(b, p, k) {
          assert MetadataNode(b, p, k) && MetadataNode(b, p, k + 1);
        }
      }
      if forall k {:trigger MetadataRootEntry(b, p, k)} :: 0 <= k < |b.content| - 1 && k % 2 == 0 ==> MetadataRootEntry(b, p, k) {
        forall i | 0 <= i < |b.content| ensures MetadataNode(b, p, i) {
          assert MetadataRootEntry(b, p, if i % 2 == 0 then i else i - 1);
        }
      }
    }
  }


  /** A metadata proposal is accepted exactly when it keeps to the rules for one. */
  lemma MetadataExactly(b: Tree, p: Tree)
    requires FineTree(b) && FineTree(p) && b.shell.kind == MappingNode && p.shell.kind == MappingNode
    ensures MayPropose(WriterTypes.MetadataSync, b, p) <==>
      && HasPlugins(b) && Direct(b, {"openai-compatibility", "claude-api-key"})
      && HasPlugins(p) && Direct(p, {"openai-compatibility", "claude-api-key"})
      && MetadataRules(b, p)
  {
    ReadableExactly(b, WriterTypes.MetadataSync);
    ReadableExactly(p, WriterTypes.MetadataSync);
    MetadataIs(b, p);
    hide FineTree, MutablePaths, MetadataRoot, MetadataRules, HasPlugins, Direct;
  }

  /** No other operation may propose anything. */
  lemma OthersMayNot(operation: WriterTypes.Operation, b: Tree, p: Tree)
    requires operation == WriterTypes.ModelInfo || operation == WriterTypes.Reconcile
    ensures !MayPropose(operation, b, p)
  {
  }
}
