/** YAML nodes as the decoder leaves them: a graph of nodes linked through Content and, for aliases,
    through Alias, which may be cyclic. Here are the alias-aware functions of the ownership check:
    structural comparison, and validation of every mapping in a document. */
module YamlGraph {
  import opened Options

  datatype Kind = DocumentNode | SequenceNode | MappingNode | ScalarNode | AliasNode

  /** The properties of a node that are compared; line and column are not among them. */
  datatype Shell = Shell(
    kind: Kind, tag: string, value: string, style: nat, anchor: string,
    headComment: string, lineComment: string, footComment: string)

  /** Nodes are named by numbers instead of addresses; None is the nil pointer. */
  type NodeId = nat

  datatype Node = Node(shell: Shell, alias: Option<NodeId>, content: seq<Option<NodeId>>)

  type Graph = map<NodeId, Node>

  predicate InGraph(g: Graph, ref: Option<NodeId>) {
    ref.Some? ==> ref.value in g
  }

  ghost predicate Closed(g: Graph) {
    forall id :: id in g ==> InGraph(g, g[id].alias) && forall i :: 0 <= i < |g[id].content| ==> InGraph(g, g[id].content[i])
  }

  // ---------- identity of nodes ----------

  datatype Pair = Pair(left: NodeId, right: NodeId)

  predicate Related(pairs: set<Pair>, left: Option<NodeId>, right: Option<NodeId>) {
    if left.None? || right.None? then left == right else Pair(left.value, right.value) in pairs
  }

  /** The two nodes agree, given that the pairs do. */
  ghost predicate Agree(g: Graph, pairs: set<Pair>, left: NodeId, right: NodeId) {
    && left in g && right in g
    && g[left].shell == g[right].shell
    && Related(pairs, g[left].alias, g[right].alias)
    && |g[left].content| == |g[right].content|
    && (forall i :: 0 <= i < |g[left].content| ==> Related(pairs, g[left].content[i], g[right].content[i]))
  }

  ghost predicate Bisimulation(g: Graph, pairs: set<Pair>) {
    forall p :: p in pairs ==> Agree(g, pairs, p.left, p.right)
  }

  /** No path through Content and Alias tells the two nodes apart. */
  ghost predicate Identical(g: Graph, left: Option<NodeId>, right: Option<NodeId>) {
    exists pairs: set<Pair> :: Bisimulation(g, pairs) && Related(pairs, left, right)
  }

  function AllPairs(g: Graph): set<Pair> {
    set left, right | left in g && right in g :: Pair(left, right)
  }

  /** All pairs added to `before` agree up to `after`. */
  ghost predicate Explored(g: Graph, before: set<Pair>, after: set<Pair>) {
    && before <= after <= AllPairs(g)
    && (forall p :: p in after && p !in before ==> Agree(g, after, p.left, p.right))
  }

  lemma ExploredGrows(g: Graph, before: set<Pair>, middle: set<Pair>, after: set<Pair>)
    requires Explored(g, before, middle) && Explored(g, middle, after)
    ensures Explored(g, before, after)
  {
  }

  lemma ExploredPair(g: Graph, seen: set<Pair>, pair: Pair, after: set<Pair>)
    requires Explored(g, seen + {pair}, after) && Agree(g, after, pair.left, pair.right)
    ensures Explored(g, seen, after)
  {
  }

  lemma IdenticalParts(g: Graph, left: NodeId, right: NodeId)
    requires Identical(g, Some(left), Some(right))
    ensures left in g && right in g && g[left].shell == g[right].shell && |g[left].content| == |g[right].content|
    ensures Identical(g, g[left].alias, g[right].alias)
    ensures forall i :: 0 <= i < |g[left].content| ==> Identical(g, g[left].content[i], g[right].content[i])
  {
    var pairs: set<Pair> :| Bisimulation(g, pairs) && Related(pairs, Some(left), Some(right));
    assert Agree(g, pairs, left, right);
  }

  /** The recursion of the comparison. `seen` is the map the calls share: it comes in as `seen` and goes
      out as `after`. It terminates on every graph, cyclic or not. */
  method NodesIdenticalSeen(g: Graph, left: Option<NodeId>, right: Option<NodeId>, seen: set<Pair>)
    returns (same: bool, after: set<Pair>)
    requires Closed(g) && InGraph(g, left) && InGraph(g, right) && seen <= AllPairs(g)
    ensures seen <= after <= AllPairs(g)
    ensures same ==> Explored(g, seen, after) && Related(after, left, right)
    ensures !same ==> !Identical(g, left, right)
    decreases AllPairs(g) - seen
  {
    if left.None? || right.None? {
      return left == right, seen;
    }
    var l, r := left.value, right.value;
    var pair := Pair(l, r);
    if pair in seen {
      return true, seen;
    }
    after := seen + {pair};
    assert pair in AllPairs(g) - seen && pair !in AllPairs(g) - after;
    if Identical(g, left, right) {
      IdenticalParts(g, l, r);
    }
    if g[l].shell != g[r].shell {
      return false, after;
    }
    same, after := NodesIdenticalSeen(g, g[l].alias, g[r].alias, after);
    if !same || |g[l].content| != |g[r].content| {
      return false, after;
    }
    var i := 0;
    while i < |g[l].content|
      invariant i <= |g[l].content|
      invariant Explored(g, seen + {pair}, after)
      invariant Related(after, g[l].alias, g[r].alias)
      invariant forall k :: 0 <= k < i ==> Related(after, g[l].content[k], g[r].content[k])
    {
      ghost var before := after;
      assert AllPairs(g) - after <= AllPairs(g) - (seen + {pair});
      same, after := NodesIdenticalSeen(g, g[l].content[i], g[r].content[i], after);
      if !same {
        return false, after;
      }
      ExploredGrows(g, seen + {pair}, before, after);
      i := i + 1;
    }
    ExploredPair(g, seen, pair, after);
    return true, after;
  }

  /** The comparison holds exactly when some bisimulation relates the two nodes. */
  method NodesIdentical(g: Graph, left: Option<NodeId>, right: Option<NodeId>) returns (same: bool)
    requires Closed(g) && InGraph(g, left) && InGraph(g, right)
    ensures same <==> Identical(g, left, right)
  {
    var after;
    same, after := NodesIdenticalSeen(g, left, right, {});
    assert same ==> Bisimulation(g, after);
  }

  lemma IdenticalReflexive(g: Graph, ref: Option<NodeId>)
    requires Closed(g) && InGraph(g, ref)
    ensures Identical(g, ref, ref)
  {
    var same := set id | id in g :: Pair(id, id);
    assert Bisimulation(g, same);
    assert Related(same, ref, ref);
  }

  lemma IdenticalSymmetric(g: Graph, left: Option<NodeId>, right: Option<NodeId>)
    requires Identical(g, left, right)
    ensures Identical(g, right, left)
  {
    var pairs: set<Pair> :| Bisimulation(g, pairs) && Related(pairs, left, right);
    var swapped := set p: Pair | p in pairs :: Pair(p.right, p.left);
    forall a: Option<NodeId>, b: Option<NodeId> | Related(pairs, a, b) ensures Related(swapped, b, a) {
      if a.Some? && b.Some? {
        assert Pair(a.value, b.value) in pairs;
      }
    }
    forall p | p in swapped ensures Agree(g, swapped, p.left, p.right) {
      assert Agree(g, pairs, p.right, p.left);
    }
    assert Related(swapped, right, left);
  }

  lemma IdenticalTransitive(g: Graph, one: Option<NodeId>, two: Option<NodeId>, three: Option<NodeId>)
    requires Identical(g, one, two) && Identical(g, two, three)
    ensures Identical(g, one, three)
  {
    var p: set<Pair> :| Bisimulation(g, p) && Related(p, one, two);
    var q: set<Pair> :| Bisimulation(g, q) && Related(q, two, three);
    var composed := set a: Pair, b: Pair | a in p && b in q && a.right == b.left :: Pair(a.left, b.right);
    forall x: Option<NodeId>, y: Option<NodeId>, z: Option<NodeId> | Related(p, x, y) && Related(q, y, z)
      ensures Related(composed, x, z)
    {
      if x.Some? {
        var a, b := Pair(x.value, y.value), Pair(y.value, z.value);
        assert a in p && b in q;
      }
    }
    forall c | c in composed ensures Agree(g, composed, c.left, c.right) {
      var a: Pair, b: Pair :| a in p && b in q && a.right == b.left && c == Pair(a.left, b.right);
      assert Agree(g, p, a.left, a.right) && Agree(g, q, b.left, b.right);
    }
    assert Related(composed, one, three);
  }

  // ---------- trees ----------

  /** All nodes identical to the given one. */
  ghost function ClassOf(g: Graph, id: NodeId): set<NodeId> {
    set other | other in g && Identical(g, Some(id), Some(other))
  }

  /** A node whose Content is a tree. An alias is a leaf that names the class of nodes identical to its target. */
  datatype Tree = Tree(shell: Shell, alias: Option<set<NodeId>>, content: seq<Tree>)

  ghost predicate Represents(g: Graph, id: NodeId, tree: Tree)
    decreases tree
  {
    && id in g
    && g[id].shell == tree.shell
    && (match g[id].alias
        case None => tree.alias.None?
        case Some(target) => target in g && tree.alias == Some(ClassOf(g, target)))
    && |g[id].content| == |tree.content|
    && (forall i :: 0 <= i < |tree.content| ==> g[id].content[i].Some? && Represents(g, g[id].content[i].value, tree.content[i]))
  }

  /** The largest bisimulation. */
  lemma IdenticalPairsBisimulate(g: Graph)
    ensures Bisimulation(g, set p | p in AllPairs(g) && Identical(g, Some(p.left), Some(p.right)))
  {
    var all := set p | p in AllPairs(g) && Identical(g, Some(p.left), Some(p.right));
    forall p | p in all ensures Agree(g, all, p.left, p.right) {
      var pairs: set<Pair> :| Bisimulation(g, pairs) && Related(pairs, Some(p.left), Some(p.right));
      forall q | q in pairs ensures q in all {
        assert Related(pairs, Some(q.left), Some(q.right)) && Agree(g, pairs, q.left, q.right);
      }
      assert Agree(g, pairs, p.left, p.right);
    }
  }

  /** Nodes with identical parts are identical. */
  lemma IdenticalFromParts(g: Graph, left: NodeId, right: NodeId)
    requires Closed(g) && left in g && right in g
    requires g[left].shell == g[right].shell && |g[left].content| == |g[right].content|
    requires Identical(g, g[left].alias, g[right].alias)
    requires forall i :: 0 <= i < |g[left].content| ==> Identical(g, g[left].content[i], g[right].content[i])
    ensures Identical(g, Some(left), Some(right))
  {
    IdenticalPairsBisimulate(g);
    var all := set p | p in AllPairs(g) && Identical(g, Some(p.left), Some(p.right));
    var more := all + {Pair(left, right)};
    forall a: Option<NodeId>, b: Option<NodeId> | Identical(g, a, b) && InGraph(g, a) && InGraph(g, b)
      ensures Related(more, a, b)
    {
      if a.Some? && b.Some? {
        assert Pair(a.value, b.value) in AllPairs(g);
      }
    }
    assert Bisimulation(g, more);
    assert Related(more, Some(left), Some(right));
  }

  lemma ClassesEqual(g: Graph, left: NodeId, right: NodeId)
    requires Closed(g) && left in g && right in g
    ensures ClassOf(g, left) == ClassOf(g, right) <==> Identical(g, Some(left), Some(right))
  {
    IdenticalReflexive(g, Some(right));
    if ClassOf(g, left) == ClassOf(g, right) {
      assert right in ClassOf(g, left);
    } else if Identical(g, Some(left), Some(right)) {
      IdenticalSymmetric(g, Some(left), Some(right));
      forall other | other in g
        ensures Identical(g, Some(left), Some(other)) <==> Identical(g, Some(right), Some(other))
      {
        if Identical(g, Some(left), Some(other)) {
          IdenticalTransitive(g, Some(right), Some(left), Some(other));
        } else if Identical(g, Some(right), Some(other)) {
          IdenticalTransitive(g, Some(left), Some(right), Some(other));
        }
      }
    }
  }

  /** On nodes that are trees, comparison through aliases is equality of trees. */
  lemma {:induction false} IdenticalAreEqualTrees(g: Graph, left: NodeId, right: NodeId, one: Tree, two: Tree)
    requires Closed(g) && Represents(g, left, one) && Represents(g, right, two)
    ensures Identical(g, Some(left), Some(right)) <==> one == two
    decreases one
  {
    AliasesAreEqual(g, left, right, one, two);
    if Identical(g, Some(left), Some(right)) {
      IdenticalParts(g, left, right);
    }
    if |one.content| == |two.content| {
      forall i | 0 <= i < |one.content|
        ensures Identical(g, g[left].content[i], g[right].content[i]) <==> one.content[i] == two.content[i]
      {
        IdenticalAreEqualTrees(g, g[left].content[i].value, g[right].content[i].value, one.content[i], two.content[i]);
      }
      if one == two {
        IdenticalFromParts(g, left, right);
      }
    }
  }

  lemma AliasesAreEqual(g: Graph, left: NodeId, right: NodeId, one: Tree, two: Tree)
    requires Closed(g) && Represents(g, left, one) && Represents(g, right, two)
    ensures Identical(g, g[left].alias, g[right].alias) <==> one.alias == two.alias
  {
    if g[left].alias.Some? && g[right].alias.Some? {
      ClassesEqual(g, g[left].alias.value, g[right].alias.value);
    } else if g[left].alias.None? && g[right].alias.None? {
      IdenticalReflexive(g, None);
    }
  }

  // ---------- every mapping of a document ----------

  predicate ScalarKey(g: Graph, key: Option<NodeId>) {
    key.Some? && key.value in g && g[key.value].shell.kind == ScalarNode && g[key.value].shell.value != ""
  }

  /** An even number of children, of which those at even positions are different non-empty scalars. */
  ghost predicate FineMapping(g: Graph, content: seq<Option<NodeId>>) {
    && |content| % 2 == 0
    && (forall i :: 0 <= i < |content| && i % 2 == 0 ==> ScalarKey(g, content[i]))
    && (forall i, j :: 0 <= i < j < |content| && i % 2 == 0 && j % 2 == 0 && ScalarKey(g, content[i]) && ScalarKey(g, content[j]) ==>
         g[content[i].value].shell.value != g[content[j].value].shell.value)
  }

  /** What the validation demands of one node: no nil child, no alias without a target, a fine mapping. */
  ghost predicate FineNode(g: Graph, id: NodeId) {
    && id in g
    && (forall i :: 0 <= i < |g[id].content| ==> g[id].content[i].Some?)
    && (g[id].shell.kind == AliasNode ==> g[id].alias.Some?)
    && (g[id].shell.kind == MappingNode ==> FineMapping(g, g[id].content))
  }

  predicate Edge(g: Graph, from: NodeId, to: NodeId) {
    from in g && (Some(to) in g[from].content || g[from].alias == Some(to))
  }

  /** `path` leads from one node to another through Content and Alias. */
  ghost predicate Path(g: Graph, path: seq<NodeId>) {
    path != [] && forall i :: 0 <= i < |path| - 1 ==> Edge(g, path[i], path[i + 1])
  }

  ghost predicate Reachable(g: Graph, from: NodeId, to: NodeId) {
    exists path :: Path(g, path) && path[0] == from && path[|path| - 1] == to
  }

  ghost predicate FineDocument(g: Graph, root: NodeId) {
    forall id :: Reachable(g, root, id) ==> FineNode(g, id)
  }

  /** Nodes outside `pending` are fine and lead only to each other and to pending ones. */
  ghost predicate Checked(g: Graph, visited: set<NodeId>, pending: set<NodeId>) {
    forall id :: id in visited && id !in pending ==>
      FineNode(g, id) && forall to :: Edge(g, id, to) ==> to in visited
  }

  lemma ReachableStep(g: Graph, root: NodeId, from: NodeId, to: NodeId)
    requires Reachable(g, root, from) && Edge(g, from, to)
    ensures Reachable(g, root, to)
  {
    var path: seq<NodeId> :| Path(g, path) && path[0] == root && path[|path| - 1] == from;
    assert Path(g, path + [to]);
  }

  lemma ReachableSelf(g: Graph, root: NodeId)
    ensures Reachable(g, root, root)
  {
    assert Path(g, [root]);
  }

  /** A set that holds the root and the targets of all its edges holds everything reachable. */
  lemma {:induction false} ClosedHoldsPath(g: Graph, visited: set<NodeId>, path: seq<NodeId>)
    requires Path(g, path) && path[0] in visited
    requires forall id, to :: id in visited && Edge(g, id, to) ==> to in visited
    ensures path[|path| - 1] in visited
    decreases |path|
  {
    if |path| > 1 {
      assert Edge(g, path[0], path[1]);
      ClosedHoldsPath(g, visited, path[1..]);
    }
  }

  lemma CheckedDocument(g: Graph, root: NodeId, visited: set<NodeId>)
    requires root in visited && Checked(g, visited, {})
    ensures FineDocument(g, root)
  {
    forall id | Reachable(g, root, id) ensures FineNode(g, id) {
      var path: seq<NodeId> :| Path(g, path) && path[0] == root && path[|path| - 1] == id;
      ClosedHoldsPath(g, visited, path);
    }
  }

  lemma FineFromHere(g: Graph, root: NodeId, next: NodeId)
    requires FineDocument(g, root) && Edge(g, root, next)
    ensures FineDocument(g, next)
  {
    forall id | Reachable(g, next, id) ensures FineNode(g, id) {
      var path: seq<NodeId> :| Path(g, path) && path[0] == next && path[|path| - 1] == id;
      assert Path(g, [root] + path);
      assert Reachable(g, root, id);
    }
  }

  /** The loop over the keys of one mapping. */
  method ValidateKeys(g: Graph, content: seq<Option<NodeId>>) returns (ok: bool)
    requires forall i :: 0 <= i < |content| ==> InGraph(g, content[i])
    ensures ok <==> FineMapping(g, content)
  {
    if |content| % 2 != 0 {
      return false;
    }
    var seen: set<string> := {};
    var i := 0;
    while i < |content|
      invariant i <= |content| && i % 2 == 0
      invariant forall k :: 0 <= k < i && k % 2 == 0 ==> ScalarKey(g, content[k])
      invariant forall name :: name in seen <==> exists k :: 0 <= k < i && k % 2 == 0 && ScalarKey(g, content[k]) && g[content[k].value].shell.value == name
      invariant forall j, k :: 0 <= j < k < i && j % 2 == 0 && k % 2 == 0 && ScalarKey(g, content[j]) && ScalarKey(g, content[k]) ==>
        g[content[j].value].shell.value != g[content[k].value].shell.value
    {
      var key := content[i];
      if key.None? || g[key.value].shell.kind != ScalarNode || g[key.value].shell.value == "" {
        return false;
      }
      if g[key.value].shell.value in seen {
        return false;
      }
      seen := seen + {g[key.value].shell.value};
      i := i + 2;
    }
    return true;
  }

  /** The recursion of the validation, with the `visited` map its calls share; nodes in `pending` are
      being validated by a caller. It terminates on every graph. */
  method ValidateDocumentMappings(g: Graph, node: Option<NodeId>, visited: set<NodeId>, ghost pending: set<NodeId>)
    returns (ok: bool, after: set<NodeId>)
    requires Closed(g) && InGraph(g, node) && visited <= g.Keys && Checked(g, visited, pending) && pending <= visited
    ensures visited <= after <= g.Keys
    ensures ok ==> node.Some? && node.value in after && Checked(g, after, pending)
    ensures !ok ==> node.None? || !FineDocument(g, node.value)
    decreases g.Keys - visited
  {
    if node.None? {
      return false, visited;
    }
    var id := node.value;
    if id in visited {
      return true, visited;
    }
    after := visited + {id};
    assert id in g.Keys - visited && id !in g.Keys - after;
    ReachableSelf(g, id);
    if g[id].shell.kind == AliasNode && g[id].alias.None? {
      return false, after;
    }
    if g[id].shell.kind == MappingNode {
      var fine := ValidateKeys(g, g[id].content);
      if !fine {
        return false, after;
      }
    }
    var i := 0;
    while i < |g[id].content|
      invariant i <= |g[id].content| && visited + {id} <= after <= g.Keys
      invariant Checked(g, after, pending + {id})
      invariant forall k :: 0 <= k < i ==> g[id].content[k].Some? && g[id].content[k].value in after
    {
      var child := g[id].content[i];
      assert child in g[id].content;
      assert child.Some? ==> Edge(g, id, child.value);
      if child.Some? && FineDocument(g, id) {
        FineFromHere(g, id, child.value);
      }
      assert g.Keys - after <= g.Keys - (visited + {id});
      ok, after := ValidateDocumentMappings(g, child, after, pending + {id});
      if !ok {
        return false, after;
      }
      i := i + 1;
    }
    if g[id].alias.Some? {
      assert Edge(g, id, g[id].alias.value);
      if FineDocument(g, id) {
        FineFromHere(g, id, g[id].alias.value);
      }
      assert g.Keys - after <= g.Keys - (visited + {id});
      ok, after := ValidateDocumentMappings(g, g[id].alias, after, pending + {id});
      if !ok {
        return false, after;
      }
    }
    return true, after;
  }

  /** A document is accepted exactly when every node reachable through Content or Alias is fine. */
  method ValidateDocument(g: Graph, root: Option<NodeId>) returns (ok: bool)
    requires Closed(g) && InGraph(g, root)
    ensures ok <==> root.Some? && FineDocument(g, root.value)
  {
    var after;
    ok, after := ValidateDocumentMappings(g, root, {}, {});
    if ok {
      CheckedDocument(g, root.value, after);
    }
  }
}
