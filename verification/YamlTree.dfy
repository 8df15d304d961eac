/** Documents whose Content is a tree: mappings as lists of entries, lookups, names, and the bridge
    from the validated graph to the tree. */
module YamlTree {
  import opened Options
  import opened YamlGraph

  /** White space as Unicode defines it. */
  predicate IsSpace(c: char) {
    || '\t' <= c <= '\r' || c == ' ' || c == '\U{85}' || c == '\U{A0}' || c == '\U{1680}'
    || '\U{2000}' <= c <= '\U{200A}' || c == '\U{2028}' || c == '\U{2029}' || c == '\U{202F}'
    || c == '\U{205F}' || c == '\U{3000}'
  }

  function TrimLeft(s: string): string {
    if s != [] && IsSpace(s[0]) then TrimLeft(s[1..]) else s
  }

  function TrimRight(s: string): string {
    if s != [] && IsSpace(s[|s| - 1]) then TrimRight(s[..|s| - 1]) else s
  }

  function TrimSpace(s: string): string {
    TrimRight(TrimLeft(s))
  }

  /** Length in UTF-8. */
  function ByteLength(s: string): nat {
    if s == [] then 0
    else (if s[0] < '\U{80}' then 1 else if s[0] < '\U{800}' then 2 else if s[0] < '\U{10000}' then 3 else 4) + ByteLength(s[1..])
  }

  predicate HasControl(s: string) {
    exists i :: 0 <= i < |s| && (s[i] < ' ' || s[i] == '\U{7F}')
  }

  // ---------- mappings ----------

  /** An even number of children; those at even positions are different non-empty scalars. */
  ghost predicate FineEntries(content: seq<Tree>) {
    && |content| % 2 == 0
    && (forall i :: 0 <= i < |content| && i % 2 == 0 ==> content[i].shell.kind == ScalarNode && content[i].shell.value != "")
    && (forall i, j :: 0 <= i < j < |content| && i % 2 == 0 && j % 2 == 0 ==> content[i].shell.value != content[j].shell.value)
  }

  ghost predicate FineTree(tree: Tree) {
    && (tree.shell.kind == MappingNode ==> FineEntries(tree.content))
    && (forall i :: 0 <= i < |tree.content| ==> FineTree(tree.content[i]))
  }

  /** The position of the first key with this text, or the length of the content. */
  function KeyIndex(content: seq<Tree>, key: string): (index: nat)
    ensures index <= |content|
    ensures index < |content| ==> index % 2 == 0 && content[index].shell.value == key
    ensures forall k :: 0 <= k < index && k % 2 == 0 ==> content[k].shell.value != key
  {
    if content == [] then 0
    else if content[0].shell.value == key then 0
    else if |content| == 1 then 1
    else 2 + KeyIndex(content[2..], key)
  }

  /** The value under a key of a mapping. */
  function ValueOf(tree: Tree, key: string): Option<Tree> {
    if tree.shell.kind != MappingNode then None
    else
      var index := KeyIndex(tree.content, key);
      if index + 1 < |tree.content| then Some(tree.content[index + 1]) else None
  }

  lemma KeyIndexUnique(content: seq<Tree>, key: string, i: nat)
    requires FineEntries(content) && i < |content| && i % 2 == 0 && content[i].shell.value == key
    ensures KeyIndex(content, key) == i
  {
  }

  /** A document the Writer accepts is fine all the way down its tree. */
  lemma {:induction false} FineDocumentTree(g: Graph, id: NodeId, tree: Tree)
    requires FineDocument(g, id) && Represents(g, id, tree)
    ensures FineTree(tree)
    decreases tree
  {
    ReachableSelf(g, id);
    forall i | 0 <= i < |tree.content| ensures FineTree(tree.content[i]) {
      assert g[id].content[i] in g[id].content;
      FineFromHere(g, id, g[id].content[i].value);
      FineDocumentTree(g, g[id].content[i].value, tree.content[i]);
    }
    if tree.shell.kind == MappingNode {
      assert FineMapping(g, g[id].content);
      forall i | 0 <= i < |tree.content| && i % 2 == 0
        ensures ScalarKey(g, g[id].content[i]) && tree.content[i].shell == g[g[id].content[i].value].shell
      {
      }
    }
  }

  ghost predicate WithoutAlias(tree: Tree) {
    tree.shell.kind != AliasNode && tree.alias.None? && forall i :: 0 <= i < |tree.content| ==> WithoutAlias(tree.content[i])
  }

  /** The validation refuses nothing else: without aliases a document is accepted exactly if its tree is fine. */
  lemma FineExactly(g: Graph, id: NodeId, tree: Tree)
    requires Represents(g, id, tree) && WithoutAlias(tree)
    ensures FineDocument(g, id) <==> FineTree(tree)
  {
    if FineDocument(g, id) {
      FineDocumentTree(g, id, tree);
    }
    if FineTree(tree) {
      forall to | Reachable(g, id, to) ensures FineNode(g, to) {
        var path: seq<NodeId> :| Path(g, path) && path[0] == id && path[|path| - 1] == to;
        FineAlong(g, id, tree, path);
      }
    }
  }

  lemma {:induction false} FineAlong(g: Graph, id: NodeId, tree: Tree, path: seq<NodeId>)
    requires Represents(g, id, tree) && WithoutAlias(tree) && FineTree(tree) && Path(g, path) && path[0] == id
    ensures FineNode(g, path[|path| - 1])
    decreases |path|
  {
    if |path| == 1 {
      FineHere(g, id, tree);
    } else {
      assert Edge(g, path[0], path[1]);
      var i :| 0 <= i < |g[id].content| && g[id].content[i] == Some(path[1]);
      var rest := path[1..];
      assert Path(g, rest) by {
        forall k | 0 <= k < |rest| - 1 ensures Edge(g, rest[k], rest[k + 1]) {
          assert Edge(g, path[k + 1], path[k + 1 + 1]);
        }
      }
      FineAlong(g, path[1], tree.content[i], rest);
    }
  }

  lemma FineHere(g: Graph, id: NodeId, tree: Tree)
    requires Represents(g, id, tree) && WithoutAlias(tree) && FineTree(tree)
    ensures FineNode(g, id)
  {
    if tree.shell.kind == MappingNode {
      forall i | 0 <= i < |tree.content|
        ensures g[id].content[i].Some? && g[id].content[i].value in g && g[g[id].content[i].value].shell == tree.content[i].shell
      {
      }
    }
  }

  // ---------- comparison and lookup on nodes, told in terms of their trees ----------

  method SameNodes(g: Graph, left: NodeId, right: NodeId, ghost one: Tree, ghost two: Tree) returns (same: bool)
    requires Closed(g) && Represents(g, left, one) && Represents(g, right, two)
    ensures same <==> one == two
  {
    same := NodesIdentical(g, Some(left), Some(right));
    IdenticalAreEqualTrees(g, left, right, one, two);
  }

  predicate SameShell(one: Tree, two: Tree) {
    one.shell == two.shell && one.alias == two.alias
  }

  /** All properties but Content. */
  method SameNodeShell(g: Graph, left: NodeId, right: NodeId, ghost one: Tree, ghost two: Tree) returns (same: bool)
    requires Closed(g) && Represents(g, left, one) && Represents(g, right, two)
    ensures same <==> SameShell(one, two)
  {
    if g[left].shell != g[right].shell {
      return false;
    }
    same := NodesIdentical(g, g[left].alias, g[right].alias);
    AliasesAreEqual(g, left, right, one, two);
  }

  /** The value under a key that must occur exactly once. */
  ghost predicate ChildStands(g: Graph, child: Option<NodeId>, tree: Tree) {
    child.Some? && child.value in g && Represents(g, child.value, tree) && g[child.value].shell == tree.shell
  }

  lemma NodeParts(g: Graph, id: NodeId, tree: Tree)
    requires Represents(g, id, tree) && FineTree(tree)
    ensures id in g && g[id].shell == tree.shell && |g[id].content| == |tree.content|
    ensures tree.shell.kind == MappingNode ==> FineEntries(tree.content)
    ensures forall i :: 0 <= i < |tree.content| ==> FineTree(tree.content[i]) && ChildStands(g, g[id].content[i], tree.content[i])
  {
  }

  method UniqueMappingValue(g: Graph, id: NodeId, key: string, ghost tree: Tree) returns (value: Option<NodeId>, ghost found: Option<Tree>)
    requires Represents(g, id, tree) && FineTree(tree)
    ensures found == ValueOf(tree, key) && (value.Some? <==> found.Some?)
    ensures value.Some? ==> Represents(g, value.value, found.value) && FineTree(found.value)
  {
    value, found := None, None;
    NodeParts(g, id, tree);
    hide Represents, FineTree;
    var node := g[id];
    if node.shell.kind != MappingNode {
      return;
    }
    var i := 0;
    while i < |node.content|
      invariant i % 2 == 0 && i <= |node.content|
      invariant value.None? ==> found.None? && forall k :: 0 <= k < i && k % 2 == 0 ==> tree.content[k].shell.value != key
      invariant value.Some? ==> found == ValueOf(tree, key) && KeyIndex(tree.content, key) < i && found.Some?
      invariant value.Some? ==> Represents(g, value.value, found.value) && FineTree(found.value)
    {
      if g[node.content[i].value].shell.value == key {
        if value.Some? {
          assert false;
          return None, None;
        }
        KeyIndexUnique(tree.content, key, i);
        value, found := node.content[i + 1], Some(tree.content[i + 1]);
      }
      i := i + 2;
    }
  }
}
