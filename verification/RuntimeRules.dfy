/** The epoch of a write, with the keys it stands under. */
module RuntimeRules {
  import opened Options
  import opened YamlGraph
  import opened YamlTree
  import opened YamlClone
  import opened YamlChannels
  import opened OwnershipCheck
  import opened OwnershipRules
  import opened RuntimeConfig

  predicate IsPlugin(name: string) {
    name == "sync-config-write" || name == "auto-pull-models" || name == "model-metadata-sync" || name == "model-info"
  }

  /** The section of a plugin, by its keys. */
  ghost predicate SectionOf(root: Tree, name: string, section: Tree) {
    exists plugins, configs :: ValueOf(root, "plugins") == Some(plugins) && ValueOf(plugins, "configs") == Some(configs)
      && configs.shell.kind == MappingNode && ValueOf(configs, name) == Some(section)
  }

  lemma SectionIsThere(root: Tree, name: string)
    requires PluginAt(root, name).Some?
    ensures SectionOf(root, name, PluginAt(root, name).value)
  {
    hide ValueOf;
    assert ValueOf(root, "plugins").Some? && ValueOf(ValueOf(root, "plugins").value, "configs") == PluginConfigs(root);
  }

  lemma PlaceOfPlugin(name: string) returns (i: nat)
    requires IsPlugin(name)
    ensures i < |PLUGIN_NAMES| && PLUGIN_NAMES[i] == name
  {
    assert PLUGIN_NAMES == ["sync-config-write", "auto-pull-models", "model-metadata-sync", "model-info"];
    i := if name == "sync-config-write" then 0 else if name == "auto-pull-models" then 1 else if name == "model-metadata-sync" then 2 else 3;
  }

  /** After the injection each of the four plugins has the epoch under sync_epoch, as a plain string; no other key of
      its section and no other key of the root reads differently. */
  lemma EpochStands(root: Tree, adjusted: Tree, epoch: string, name: string) returns (before: Tree, after: Tree)
    requires FineTree(root) && Injectable(root) && InjectedUpTo(root, adjusted, epoch, |PLUGIN_NAMES|) && IsPlugin(name)
    ensures SectionOf(root, name, before) && SectionOf(adjusted, name, after)
    ensures ValueOf(after, "sync_epoch").Some? && PlainScalar(ValueOf(after, "sync_epoch").value, epoch)
    ensures forall key :: key != "sync_epoch" ==> ValueOf(after, key) == ValueOf(before, key)
    ensures forall key :: key != "plugins" ==> ValueOf(adjusted, key) == ValueOf(root, key)
  {
    var i := PlaceOfPlugin(name);
    EpochReads(root, adjusted, epoch, i);
    assert AllPlugins(root) && AllPlugins(adjusted);
    before, after := PluginAt(root, name).value, PluginAt(adjusted, name).value;
    hide InjectedUpTo, Injectable, FineTree, ValueOf;
    SectionIsThere(root, name);
    SectionIsThere(adjusted, name);
  }

  /** An epoch can be injected exactly if all four sections are there, without alias, anchor or merge key. */
  lemma InjectableExactly(root: Tree)
    requires FineTree(root) && root.shell.kind == MappingNode
    ensures Injectable(root) <==> HasPlugins(root)
  {
    PluginsAre(root);
    hide HasPlugins, PluginConfigs, PluginReadable, FineTree;
  }

  /** Removing a key takes out its entry, and leaves the others as they are and in their order. */
  lemma RemovesExactly(mapping: Tree, key: string)
    requires mapping.shell.kind == MappingNode && FineEntries(mapping.content)
    ensures SameProperties(mapping, RemoveKey(mapping, key))
    ensures if ValueOf(mapping, key).None? then RemoveKey(mapping, key) == mapping
      else exists i :: EntryRemoved(mapping.content, RemoveKey(mapping, key).content, i, key)
  {
    var i := KeyIndex(mapping.content, key);
    hide KeyIndex;
    if ValueOf(mapping, key).Some? {
      assert EntryRemoved(mapping.content, RemoveKey(mapping, key).content, i, key);
    }
  }

  predicate EntryRemoved(before: seq<Tree>, after: seq<Tree>, i: int, key: string) {
    && 0 <= i < |before| - 1 && i % 2 == 0 && before[i].shell.value == key && |after| == |before| - 2
    && (forall k :: 0 <= k < i ==> after[k] == before[k]) && (forall k :: i + 1 < k < |before| ==> after[k - 2] == before[k])
  }
}
