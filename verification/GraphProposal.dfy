/** Proposals as the check sees them: graphs of nodes, of which everything the planner does not own is a copy of
    the configuration's, references to the root included. A planner's edit passes as it would on trees,
    unless something it does not own leads back to the root. */
module GraphProposal {
  import opened Options
  import opened YamlGraph
  import opened YamlTree
  import opened OwnershipCheck
  import opened OwnershipFrozen
  import WriterTypes

  /** f takes the left reference to the right one. */
  predicate Mapped(f: map<NodeId, NodeId>, left: Option<NodeId>, right: Option<NodeId>) {
    if left.None? || right.None? then left == right else left.value in f && f[left.value] == right.value
  }

  predicate CopiedNode(g: Graph, f: map<NodeId, NodeId>, id: NodeId) {
    && id in g && id in f && f[id] in g
    && g[f[id]].shell == g[id].shell && Mapped(f, g[id].alias, g[f[id]].alias)
    && |g[f[id]].content| == |g[id].content|
    && (forall i :: 0 <= i < |g[id].content| ==> Mapped(f, g[id].content[i], g[f[id]].content[i]))
  }

  /** The proposal's root and everything below its free children is a copy of the configuration's, by f, and
      a reference to the root has become one to the new root. */
  ghost predicate Copied(g: Graph, operation: WriterTypes.Operation, base: NodeId, proposed: NodeId, b: Tree, f: map<NodeId, NodeId>) {
    && base in g && proposed in g && base in f && f[base] == proposed
    && g[proposed].shell == g[base].shell && g[base].alias.None? && g[proposed].alias.None?
    && |g[proposed].content| == |g[base].content|
    && (forall i :: 0 <= i < |g[base].content| && FreeChild(operation, b, i) ==> Mapped(f, g[base].content[i], g[proposed].content[i]))
    && (forall id :: id in f && id != base ==> CopiedNode(g, f, id))
  }

  /** e is the planner's edit of b, and p has what it made of the owned values. */
  ghost predicate EditedAs(operation: WriterTypes.Operation, b: Tree, e: Tree, p: Tree) {
    && SameShell(b, e) && |e.content| == |b.content| == |p.content|
    && (forall i :: 0 <= i < |b.content| ==> if FreeChild(operation, b, i) then e.content[i] == b.content[i] else p.content[i] == e.content[i])
  }

  /** A walk from a free child of the root ends here. */
  ghost predicate Leads(g: Graph, operation: WriterTypes.Operation, base: NodeId, b: Tree, id: NodeId) {
    exists i, hops :: LeadsBy(g, operation, base, b, id, i, hops)
  }

  predicate LeadsBy(g: Graph, operation: WriterTypes.Operation, base: NodeId, b: Tree, id: NodeId, i: nat, hops: seq<Hop>) {
    && base in g && FreeChild(operation, b, i) && i < |g[base].content|
    && Walk(g, g[base].content[i], hops) == Some(id)
  }

  /** Something the operation does not own leads back to the root. */
  ghost predicate SelfRefers(g: Graph, operation: WriterTypes.Operation, base: NodeId, b: Tree) {
    Leads(g, operation, base, b, base)
  }

  // ---------- without a reference to the root ----------

  lemma {:induction false} WalkOn(g: Graph, from: Option<NodeId>, hops: seq<Hop>, hop: Hop)
    ensures Walk(g, from, hops + [hop]) == Walk(g, Walk(g, from, hops), [hop])
    decreases |hops|
  {
    if hops == [] {
      assert [] + [hop] == [hop];
    } else if from.Some? && from.value in g {
      assert (hops + [hop])[1..] == hops[1..] + [hop];
      var node := g[from.value];
      match hops[0]
      case ToAlias => WalkOn(g, node.alias, hops[1..], hop);
      case ToChild(i) =>
        if i < |node.content| {
          WalkOn(g, node.content[i], hops[1..], hop);
        }
    }
  }

  lemma OneHop(g: Graph, id: NodeId)
    requires id in g
    ensures Walk(g, Some(id), [ToAlias]) == g[id].alias
    ensures forall k :: 0 <= k < |g[id].content| ==> Walk(g, Some(id), [ToChild(k)]) == g[id].content[k]
  {
    forall from: Option<NodeId> ensures Walk(g, from, []) == from {
    }
    forall k | 0 <= k < |g[id].content| ensures Walk(g, Some(id), [ToChild(k)]) == g[id].content[k] {
      assert [ToChild(k)][1..] == [];
    }
    assert [ToAlias][1..] == [];
  }

  lemma LeadsOn(g: Graph, operation: WriterTypes.Operation, base: NodeId, b: Tree, id: NodeId)
    requires Leads(g, operation, base, b, id) && id in g
    ensures g[id].alias.Some? ==> Leads(g, operation, base, b, g[id].alias.value)
    ensures forall k :: 0 <= k < |g[id].content| && g[id].content[k].Some? ==> Leads(g, operation, base, b, g[id].content[k].value)
  {
    var i: nat, hops: seq<Hop> :| LeadsBy(g, operation, base, b, id, i, hops);
    OneHop(g, id);
    var from := g[base].content[i];
    hide Walk;
    if g[id].alias.Some? {
      WalkOn(g, from, hops, ToAlias);
      assert LeadsBy(g, operation, base, b, g[id].alias.value, i, hops + [ToAlias]);
    }
    forall k | 0 <= k < |g[id].content| && g[id].content[k].Some? ensures Leads(g, operation, base, b, g[id].content[k].value) {
      WalkOn(g, from, hops, ToChild(k));
      assert LeadsBy(g, operation, base, b, g[id].content[k].value, i, hops + [ToChild(k)]);
    }
  }

  /** What leads nowhere near the root is the same in the copy. */
  lemma FreeChildrenIdentical(g: Graph, operation: WriterTypes.Operation, base: NodeId, proposed: NodeId, b: Tree, f: map<NodeId, NodeId>, i: nat)
    requires Closed(g) && Copied(g, operation, base, proposed, b, f) && !SelfRefers(g, operation, base, b)
    requires FreeChild(operation, b, i) && i < |g[base].content|
    ensures Identical(g, g[base].content[i], g[proposed].content[i])
  {
    var pairs := set id | id in f && Leads(g, operation, base, b, id) :: Pair(id, f[id]);
    hide Walk, FreeChild;
    forall p | p in pairs ensures Agree(g, pairs, p.left, p.right) {
      assert CopiedNode(g, f, p.left);
      hide Leads;
      LeadsOn(g, operation, base, b, p.left);
    }
    FreeChildLeads(g, operation, base, b, i);
    hide Leads;
    assert Bisimulation(g, pairs);
    assert Related(pairs, g[base].content[i], g[proposed].content[i]);
  }

  lemma FreeChildLeads(g: Graph, operation: WriterTypes.Operation, base: NodeId, b: Tree, i: nat)
    requires base in g && FreeChild(operation, b, i) && i < |g[base].content|
    ensures g[base].content[i].Some? ==> Leads(g, operation, base, b, g[base].content[i].value)
  {
    if g[base].content[i].Some? {
      assert LeadsBy(g, operation, base, b, g[base].content[i].value, i, []);
    }
  }

  // ---------- with one ----------

  /** A walk back to the root has its like in the copy. */
  lemma {:induction false} ReturnIsCopied(g: Graph, base: NodeId, proposed: NodeId, f: map<NodeId, NodeId>,
      from: Option<NodeId>, copy: Option<NodeId>, hops: seq<Hop>)
    returns (way: seq<Hop>)
    requires base in f && f[base] == proposed && (forall id :: id in f && id != base ==> CopiedNode(g, f, id))
    requires Mapped(f, from, copy) && Walk(g, from, hops) == Some(base)
    ensures Walk(g, from, way) == Some(base) && Walk(g, copy, way) == Some(proposed)
    decreases |hops|
  {
    if from == Some(base) {
      return [];
    }
    assert CopiedNode(g, f, from.value);
    var node, like := g[from.value], g[copy.value];
    match hops[0]
    case ToAlias =>
      var rest := ReturnIsCopied(g, base, proposed, f, node.alias, like.alias, hops[1..]);
      way := [ToAlias] + rest;
    case ToChild(i) =>
      var rest := ReturnIsCopied(g, base, proposed, f, node.content[i], like.content[i], hops[1..]);
      way := [ToChild(i)] + rest;
  }

  /** With unchanged owned values the whole proposal is the configuration again. */
  lemma UneditedIsIdentical(g: Graph, operation: WriterTypes.Operation, base: NodeId, proposed: NodeId, b: Tree, f: map<NodeId, NodeId>)
    requires Closed(g) && Copied(g, operation, base, proposed, b, f)
    requires forall i :: 0 <= i < |g[base].content| && !FreeChild(operation, b, i) ==> Identical(g, g[base].content[i], g[proposed].content[i])
    ensures Identical(g, Some(base), Some(proposed))
  {
    IdenticalPairsBisimulate(g);
    var same := set p | p in AllPairs(g) && Identical(g, Some(p.left), Some(p.right));
    var copied := set id | id in f :: Pair(id, f[id]);
    var pairs := same + copied;
    hide FreeChild;
    forall left: Option<NodeId>, right: Option<NodeId> | InGraph(g, left) && InGraph(g, right) && Identical(g, left, right)
      ensures Related(pairs, left, right)
    {
      if left.Some? && right.Some? {
        assert Pair(left.value, right.value) in AllPairs(g);
      }
    }
    forall left: Option<NodeId>, right: Option<NodeId> | Mapped(f, left, right) ensures Related(pairs, left, right) {
    }
    hide Identical;
    forall p | p in pairs ensures Agree(g, pairs, p.left, p.right) {
      if p in same {
        assert Agree(g, same, p.left, p.right);
      } else if p.left != base {
        assert CopiedNode(g, f, p.left);
      }
    }
    assert Bisimulation(g, pairs) && Related(pairs, Some(base), Some(proposed));
    IdenticalBy(g, pairs, Some(base), Some(proposed));
  }

  lemma IdenticalBy(g: Graph, pairs: set<Pair>, left: Option<NodeId>, right: Option<NodeId>)
    requires Bisimulation(g, pairs) && Related(pairs, left, right)
    ensures Identical(g, left, right)
  {
  }

  // ---------- the theorem ----------

  lemma NothingRefers(g: Graph, operation: WriterTypes.Operation, base: NodeId, proposed: NodeId, b: Tree, p: Tree, e: Tree, f: map<NodeId, NodeId>)
    requires Closed(g) && Represents(g, base, b) && Represents(g, proposed, p)
    requires Copied(g, operation, base, proposed, b, f) && EditedAs(operation, b, e, p) && !SelfRefers(g, operation, base, b)
    ensures p == e
  {
    forall i | 0 <= i < |b.content| && FreeChild(operation, b, i) ensures p.content[i] == b.content[i] {
      FreeChildrenIdentical(g, operation, base, proposed, b, f, i);
      IdenticalAreEqualTrees(g, g[base].content[i].value, g[proposed].content[i].value, b.content[i], p.content[i]);
    }
    hide Identical, SelfRefers, FreeChild;
    assert p.content == e.content;
  }

  lemma NothingEdited(g: Graph, operation: WriterTypes.Operation, base: NodeId, proposed: NodeId, b: Tree, p: Tree, f: map<NodeId, NodeId>)
    requires Closed(g) && Represents(g, base, b) && Represents(g, proposed, p)
    requires Copied(g, operation, base, proposed, b, f) && EditedAs(operation, b, b, p)
    ensures p == b
  {
    forall i | 0 <= i < |b.content| && !FreeChild(operation, b, i) ensures Identical(g, g[base].content[i], g[proposed].content[i]) {
      IdenticalAreEqualTrees(g, g[base].content[i].value, g[proposed].content[i].value, b.content[i], p.content[i]);
    }
    UneditedIsIdentical(g, operation, base, proposed, b, f);
    IdenticalAreEqualTrees(g, base, proposed, b, p);
  }

  lemma ReferenceStops(g: Graph, operation: WriterTypes.Operation, base: NodeId, proposed: NodeId, b: Tree, p: Tree, f: map<NodeId, NodeId>)
    requires Closed(g) && Represents(g, base, b) && Represents(g, proposed, p) && |b.content| % 2 == 0
    requires Copied(g, operation, base, proposed, b, f) && |p.content| == |b.content| && SelfRefers(g, operation, base, b)
    ensures MayPropose(operation, b, p) ==> p == b
  {
    var i: nat, hops: seq<Hop> :| LeadsBy(g, operation, base, b, base, i, hops);
    hide MayPropose, Walk;
    var way := ReturnIsCopied(g, base, proposed, f, g[base].content[i], g[proposed].content[i], hops);
    if MayPropose(operation, b, p) {
      hide Represents, Copied, Closed;
      SelfReferenceFreezes(g, operation, base, proposed, b, p, i, way);
    }
  }

  lemma SameEdit(operation: WriterTypes.Operation, b: Tree, e: Tree, p: Tree)
    requires EditedAs(operation, b, e, p)
    ensures p == b ==> e == b
  {
    hide FreeChild;
    if p == b {
      assert e.content == b.content;
    }
  }

  /** A proposal is accepted exactly when the planner's edit would be on trees, and the edit changes nothing
      or nothing the operation does not own leads back to the root. */
  lemma AcceptedExactly(g: Graph, operation: WriterTypes.Operation, base: NodeId, proposed: NodeId, b: Tree, p: Tree, e: Tree, f: map<NodeId, NodeId>)
    requires Closed(g) && Represents(g, base, b) && Represents(g, proposed, p) && |b.content| % 2 == 0
    requires Copied(g, operation, base, proposed, b, f) && EditedAs(operation, b, e, p)
    ensures MayPropose(operation, b, p) <==> MayPropose(operation, b, e) && (e == b || !SelfRefers(g, operation, base, b))
  {
    SameEdit(operation, b, e, p);
    hide Represents, MayPropose, SelfRefers, Copied;
    if e == b {
      NothingEdited(g, operation, base, proposed, b, p, f);
    } else if SelfRefers(g, operation, base, b) {
      ReferenceStops(g, operation, base, proposed, b, p, f);
    } else {
      NothingRefers(g, operation, base, proposed, b, p, e, f);
    }
  }
}
