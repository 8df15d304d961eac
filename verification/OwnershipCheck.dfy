/** The whole ownership check on two decoded documents, and what it means to pass it. */
module OwnershipCheck {
  import opened Options
  import opened YamlGraph
  import opened YamlTree
  import opened YamlClone
  import opened Ownership
  import opened MetadataOwnership
  import WriterTypes

  const PLUGIN_NAMES: seq<string> := ["sync-config-write", "auto-pull-models", "model-metadata-sync", "model-info"]

  // ---------- which documents can be compared ----------

  function PluginConfigs(root: Tree): Option<Tree> {
    match ValueOf(root, "plugins")
    case None => None
    case Some(plugins) =>
      if plugins.shell.kind != MappingNode then None
      else
        match ValueOf(plugins, "configs")
        case None => None
        case Some(configs) => if configs.shell.kind != MappingNode then None else Some(configs)
  }

  ghost predicate PluginReadable(configs: Tree, name: string) {
    match ValueOf(configs, name)
    case None => false
    case Some(subtree) => subtree.shell.kind == MappingNode && Unambiguous(subtree)
  }

  predicate OwnedRoot(operation: WriterTypes.Operation, key: string) {
    key == OPENAI || (operation == WriterTypes.MetadataSync && key == CLAUDE)
  }

  ghost predicate RootsReadable(content: seq<Tree>, operation: WriterTypes.Operation, n: nat) {
    forall i :: 0 <= i < n - 1 && i + 1 < |content| && i % 2 == 0 && OwnedRoot(operation, content[i].shell.value) ==>
      Unambiguous(content[i + 1])
  }

  /** The four plugin sections exist and neither they nor the owned sections use aliases, anchors or merge keys. */
  ghost predicate MutablePaths(root: Tree, operation: WriterTypes.Operation) {
    && PluginConfigs(root).Some?
    && (forall i :: 0 <= i < |PLUGIN_NAMES| ==> PluginReadable(PluginConfigs(root).value, PLUGIN_NAMES[i]))
    && WriterTypes.IsConfigWrite(operation)
    && RootsReadable(root.content, operation, |root.content|)
  }

  method PluginConfigsNode(g: Graph, root: NodeId, ghost tree: Tree) returns (configs: Option<NodeId>, ghost found: Option<Tree>)
    requires Represents(g, root, tree) && FineTree(tree)
    ensures found == PluginConfigs(tree) && (configs.Some? <==> found.Some?)
    ensures configs.Some? ==> Represents(g, configs.value, found.value) && FineTree(found.value)
  {
    var plugins, pluginsTree := UniqueMappingValue(g, root, "plugins", tree);
    if plugins.None? || g[plugins.value].shell.kind != MappingNode {
      return None, None;
    }
    configs, found := UniqueMappingValue(g, plugins.value, "configs", pluginsTree.value);
    if configs.None? || g[configs.value].shell.kind != MappingNode {
      return None, None;
    }
  }

  method PluginsReadable(g: Graph, configs: NodeId, ghost tree: Tree) returns (ok: bool)
    requires Represents(g, configs, tree) && FineTree(tree)
    ensures ok <==> forall i :: 0 <= i < |PLUGIN_NAMES| ==> PluginReadable(tree, PLUGIN_NAMES[i])
  {
    var i := 0;
    while i < |PLUGIN_NAMES|
      invariant i <= |PLUGIN_NAMES|
      invariant forall k :: 0 <= k < i ==> PluginReadable(tree, PLUGIN_NAMES[k])
    {
      var subtree, found := UniqueMappingValue(g, configs, PLUGIN_NAMES[i], tree);
      if subtree.None? || g[subtree.value].shell.kind != MappingNode {
        assert !PluginReadable(tree, PLUGIN_NAMES[i]);
        return false;
      }
      ok := RejectMutableAmbiguity(g, subtree.value, found.value);
      if !ok {
        assert !PluginReadable(tree, PLUGIN_NAMES[i]);
        return false;
      }
      i := i + 1;
    }
    return true;
  }

  method OwnedRootsReadable(g: Graph, content: seq<Option<NodeId>>, operation: WriterTypes.Operation, ghost trees: seq<Tree>) returns (ok: bool)
    requires RepresentAll(g, content, trees) && FineEntries(trees)
    ensures ok <==> RootsReadable(trees, operation, |trees|)
  {
    hide Represents, FineTree, Unambiguous;
    var i := 0;
    while i < |content|
      invariant i % 2 == 0 && i <= |content| && RootsReadable(trees, operation, i)
    {
      KeyText(g, content, trees, i);
      if OwnedRoot(operation, g[content[i].value].shell.value) {
        ok := RejectMutableAmbiguity(g, content[i + 1].value, trees[i + 1]);
        if !ok {
          return false;
        }
      }
      i := i + 2;
    }
    return true;
  }

  method ValidateMutablePaths(g: Graph, root: NodeId, operation: WriterTypes.Operation, ghost tree: Tree) returns (ok: bool)
    requires Represents(g, root, tree) && FineTree(tree) && tree.shell.kind == MappingNode
    ensures ok <==> MutablePaths(tree, operation)
  {
    var configs, configsTree := PluginConfigsNode(g, root, tree);
    if configs.None? {
      return false;
    }
    ok := PluginsReadable(g, configs.value, configsTree.value);
    if !ok || !WriterTypes.IsConfigWrite(operation) {
      return false;
    }
    Children(g, root, tree);
    ok := OwnedRootsReadable(g, g[root].content, operation, tree.content);
  }

  /** A document with one root mapping, every mapping of which is fine. */
  ghost predicate OwnedDocument(g: Graph, document: NodeId) {
    && document in g && g[document].shell.kind == DocumentNode && |g[document].content| == 1
    && g[document].content[0].Some? && g[document].content[0].value in g
    && g[g[document].content[0].value].shell.kind == MappingNode && FineDocument(g, g[document].content[0].value)
  }

  method ParseOwnedDocument(g: Graph, document: NodeId) returns (root: Option<NodeId>)
    requires Closed(g) && document in g
    ensures root.Some? <==> OwnedDocument(g, document)
    ensures root.Some? ==> root == g[document].content[0]
  {
    var node := g[document];
    if node.shell.kind != DocumentNode || |node.content| != 1 || node.content[0].None?
       || g[node.content[0].value].shell.kind != MappingNode {
      return None;
    }
    var ok := ValidateDocument(g, node.content[0]);
    return if ok then node.content[0] else None;
  }

  // ---------- the check ----------

  ghost predicate MayPropose(operation: WriterTypes.Operation, base: Tree, proposed: Tree) {
    && MutablePaths(base, operation) && MutablePaths(proposed, operation)
    && (if operation == WriterTypes.AutoPull then MembershipRoot(base, proposed) else MetadataRoot(base, proposed))
  }

  /** The decoder builds Content as trees: the two roots, if there are any, stand for b and p. */
  ghost predicate Decoded(g: Graph, document: NodeId, tree: Tree) {
    && Closed(g) && document in g
    && (|g[document].content| == 1 && g[document].content[0].Some? ==> Represents(g, g[document].content[0].value, tree))
  }

  /** None rejects; otherwise the value says whether the configurations differ at all. */
  method ValidateOwnership(g: Graph, operation: WriterTypes.Operation, base: NodeId, proposed: NodeId, ghost b: Tree, ghost p: Tree)
    returns (changed: Option<bool>)
    requires Decoded(g, base, b) && Decoded(g, proposed, p)
    ensures changed.Some? <==> OwnedDocument(g, base) && OwnedDocument(g, proposed) && MayPropose(operation, b, p)
    ensures changed.Some? ==> (changed.value <==> !Identical(g, g[base].content[0], g[proposed].content[0]))
  {
    hide Represents, FineTree, FineDocument, MutablePaths, MembershipRoot, MetadataRoot;
    var baseRoot := ParseOwnedDocument(g, base);
    if baseRoot.None? {
      return None;
    }
    var proposedRoot := ParseOwnedDocument(g, proposed);
    if proposedRoot.None? {
      return None;
    }
    FineDocumentTree(g, baseRoot.value, b);
    FineDocumentTree(g, proposedRoot.value, p);
    Children(g, baseRoot.value, b);
    Children(g, proposedRoot.value, p);
    IdenticalAreEqualTrees(g, baseRoot.value, proposedRoot.value, b, p);
    var ok := ValidateMutablePaths(g, baseRoot.value, operation, b);
    if !ok {
      return None;
    }
    ok := ValidateMutablePaths(g, proposedRoot.value, operation, p);
    if !ok {
      return None;
    }
    if operation == WriterTypes.AutoPull {
      changed := CompareMembershipRoot(g, baseRoot.value, proposedRoot.value, b, p);
    } else {
      OnlyWrites(b, operation);
      changed := CompareMetadataRoot(g, baseRoot.value, proposedRoot.value, b, p);
    }
  }

  lemma OnlyWrites(tree: Tree, operation: WriterTypes.Operation)
    requires MutablePaths(tree, operation)
    ensures WriterTypes.IsConfigWrite(operation)
  {
  }
}
