/** The subtrees the Writer may edit carry no aliases, anchors or merge keys; that is what lets them be
    copied. */
module YamlClone {
  import opened Options
  import opened YamlGraph

  // ---------- which subtrees may be edited ----------

  predicate MergeKey(shell: Shell) {
    shell.value == "<<" || shell.tag == "!!merge"
  }

  /** No alias, no anchor and no merge key anywhere. */
  ghost predicate Unambiguous(tree: Tree) {
    && tree.shell.kind != AliasNode && tree.alias.None? && tree.shell.anchor == ""
    && (tree.shell.kind == MappingNode ==>
         forall i :: 0 <= i < |tree.content| && i % 2 == 0 ==> !MergeKey(tree.content[i].shell))
    && (forall i :: 0 <= i < |tree.content| ==> Unambiguous(tree.content[i]))
  }

  method RejectMutableAmbiguity(g: Graph, id: NodeId, ghost tree: Tree) returns (ok: bool)
    requires Represents(g, id, tree)
    ensures ok <==> Unambiguous(tree)
    decreases tree
  {
    var node := g[id];
    if node.shell.kind == AliasNode || node.alias.Some? || node.shell.anchor != "" {
      return false;
    }
    if node.shell.kind == MappingNode {
      var i := 0;
      while i < |node.content|
        invariant i % 2 == 0
        invariant forall k :: 0 <= k < i && k < |node.content| && k % 2 == 0 ==> !MergeKey(tree.content[k].shell)
      {
        if MergeKey(g[node.content[i].value].shell) {
          return false;
        }
        i := i + 2;
      }
    }
    var i := 0;
    while i < |node.content|
      invariant i <= |node.content|
      invariant forall k :: 0 <= k < i ==> Unambiguous(tree.content[k])
    {
      ok := RejectMutableAmbiguity(g, node.content[i].value, tree.content[i]);
      if !ok {
        return false;
      }
      i := i + 1;
    }
    return true;
  }

  // ---------- copying ----------

  ghost predicate AliasFree(tree: Tree) {
    tree.alias.None? && forall i :: 0 <= i < |tree.content| ==> AliasFree(tree.content[i])
  }

  lemma {:induction false} UnambiguousAliasFree(tree: Tree)
    requires Unambiguous(tree)
    ensures AliasFree(tree)
  {
    forall i | 0 <= i < |tree.content| ensures AliasFree(tree.content[i]) {
      UnambiguousAliasFree(tree.content[i]);
    }
  }

  ghost predicate Extends(g: Graph, h: Graph) {
    forall id :: id in g ==> id in h && h[id] == g[id]
  }

  lemma {:induction false} RepresentsExtends(g: Graph, h: Graph, id: NodeId, tree: Tree)
    requires Represents(g, id, tree) && AliasFree(tree) && Extends(g, h)
    ensures Represents(h, id, tree)
    decreases tree
  {
    forall i | 0 <= i < |tree.content| ensures Represents(h, g[id].content[i].value, tree.content[i]) {
      RepresentsExtends(g, h, g[id].content[i].value, tree.content[i]);
    }
  }

  ghost predicate Below(g: Graph, next: NodeId) {
    forall id :: id in g ==> id < next
  }

  /** The nodes allocated since `next` refer only to each other. */
  ghost predicate Separate(g: Graph, next: NodeId) {
    forall id :: id in g && id >= next ==>
      g[id].alias.None? && forall i :: 0 <= i < |g[id].content| ==> g[id].content[i].Some? && g[id].content[i].value >= next
  }

  /** A deep copy into newly allocated nodes; `next` is the allocator. Following an alias could go round
      in circles, but there is none to follow. */
  method CloneNode(g: Graph, next: NodeId, id: NodeId, ghost tree: Tree) returns (h: Graph, last: NodeId, copy: NodeId)
    requires Closed(g) && Represents(g, id, tree) && AliasFree(tree) && Below(g, next)
    ensures Extends(g, h) && Closed(h) && Below(h, last) && next <= copy < last
    ensures Represents(h, copy, tree)
    ensures forall base: NodeId :: base <= next && Separate(g, base) ==> Separate(h, base)
    decreases tree
  {
    h, last := g, next;
    var node := g[id];
    var content: seq<Option<NodeId>> := [];
    var i := 0;
    while i < |node.content|
      invariant i == |content| <= |node.content|
      invariant Extends(g, h) && Closed(h) && Below(h, last) && next <= last
      invariant forall k :: 0 <= k < i ==> content[k].Some? && next <= content[k].value && Represents(h, content[k].value, tree.content[k])
      invariant forall base: NodeId :: base <= next && Separate(g, base) ==> Separate(h, base)
    {
      RepresentsExtends(g, h, node.content[i].value, tree.content[i]);
      ghost var before := h;
      var child;
      h, last, child := CloneNode(h, last, node.content[i].value, tree.content[i]);
      forall k | 0 <= k < i ensures Represents(h, content[k].value, tree.content[k]) {
        RepresentsExtends(before, h, content[k].value, tree.content[k]);
      }
      content := content + [Some(child)];
      i := i + 1;
    }
    if node.alias.Some? {
      assert false;
    }
    ghost var children := h;
    copy, last := last, last + 1;
    h := h[copy := Node(node.shell, None, content)];
    forall k | 0 <= k < i ensures Represents(h, content[k].value, tree.content[k]) {
      RepresentsExtends(children, h, content[k].value, tree.content[k]);
    }
  }

  /** The copy of an editable subtree is identical to it, leaves every node of the document as it was and
      shares none of them. */
  method CloneEditable(g: Graph, next: NodeId, id: NodeId, ghost tree: Tree) returns (h: Graph, copy: NodeId)
    requires Closed(g) && Represents(g, id, tree) && Unambiguous(tree) && Below(g, next)
    ensures Extends(g, h) && Closed(h) && copy !in g && Separate(h, next)
    ensures Represents(h, copy, tree) && Identical(h, Some(id), Some(copy))
  {
    UnambiguousAliasFree(tree);
    var last;
    h, last, copy := CloneNode(g, next, id, tree);
    RepresentsExtends(g, h, id, tree);
    IdenticalAreEqualTrees(h, id, copy, tree, tree);
  }
}
