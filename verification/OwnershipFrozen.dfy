/** What aliases do to the ownership check. The comparison follows aliases, so a part no planner owns that
    refers back to the root drags the root into the comparison, and then nothing may change at all. */
module OwnershipFrozen {
  import opened Options
  import opened YamlGraph
  import opened YamlTree
  import opened Ownership
  import opened MetadataOwnership
  import opened OwnershipCheck
  import WriterTypes

  datatype Hop = ToAlias | ToChild(i: nat)

  /** Where a walk along aliases and children ends. */
  function Walk(g: Graph, from: Option<NodeId>, hops: seq<Hop>): Option<NodeId>
    decreases |hops|
  {
    if hops == [] then from
    else if from.None? || from.value !in g then None
    else
      var node := g[from.value];
      match hops[0]
      case ToAlias => Walk(g, node.alias, hops[1..])
      case ToChild(i) => if i < |node.content| then Walk(g, node.content[i], hops[1..]) else None
  }

  /** The same walk from identical nodes ends at identical nodes. */
  lemma {:induction false} IdenticalWalks(g: Graph, left: Option<NodeId>, right: Option<NodeId>, hops: seq<Hop>)
    requires Identical(g, left, right)
    ensures Identical(g, Walk(g, left, hops), Walk(g, right, hops))
    decreases |hops|
  {
    if hops != [] {
      if left.None? || right.None? {
        assert left.None? && right.None?;
      } else {
        IdenticalParts(g, left.value, right.value);
        match hops[0]
        case ToAlias => IdenticalWalks(g, g[left.value].alias, g[right.value].alias, hops[1..]);
        case ToChild(i) =>
          if i < |g[left.value].content| {
            IdenticalWalks(g, g[left.value].content[i], g[right.value].content[i], hops[1..]);
          }
      }
      NoneIsNone(g);
    }
  }

  lemma NoneIsNone(g: Graph)
    ensures Identical(g, None, None)
  {
    assert Bisimulation(g, {}) && Related({}, None, None);
  }

  /** A child of the root that the operation leaves to the user: a key, or the value of a key it does not own. */
  predicate FreeChild(operation: WriterTypes.Operation, root: Tree, i: nat) {
    i < |root.content| && (i % 2 == 1 ==> !OwnedRoot(operation, root.content[i - 1].shell.value))
  }

  lemma FreeChildrenEqual(operation: WriterTypes.Operation, b: Tree, p: Tree, i: nat)
    requires MayPropose(operation, b, p) && |b.content| % 2 == 0 && FreeChild(operation, b, i)
    ensures i < |p.content| && b.content[i] == p.content[i]
  {
    hide MutablePaths, MembershipProviders, MetadataProviders;
    var key := if i % 2 == 0 then i else i - 1;
    if operation == WriterTypes.AutoPull {
      assert MembershipRootEntry(b, p, key);
    } else {
      OnlyWrites(b, operation);
      assert MetadataRootEntry(b, p, key);
    }
  }

  /** If a free child leads back to the root, in the configuration and in the proposal alike, the check
      accepts the proposal only when it changes nothing. */
  lemma SelfReferenceFreezes(g: Graph, operation: WriterTypes.Operation, base: NodeId, proposed: NodeId, b: Tree, p: Tree,
      i: nat, hops: seq<Hop>)
    requires Closed(g) && Represents(g, base, b) && Represents(g, proposed, p) && |b.content| % 2 == 0
    requires MayPropose(operation, b, p) && FreeChild(operation, b, i)
    requires Walk(g, g[base].content[i], hops) == Some(base)
    requires i < |p.content| && Walk(g, g[proposed].content[i], hops) == Some(proposed)
    ensures Identical(g, Some(base), Some(proposed)) && b == p
  {
    FreeChildrenEqual(operation, b, p, i);
    hide MayPropose;
    var left, right := g[base].content[i], g[proposed].content[i];
    IdenticalAreEqualTrees(g, left.value, right.value, b.content[i], p.content[i]);
    IdenticalWalks(g, left, right, hops);
    IdenticalAreEqualTrees(g, base, proposed, b, p);
  }
}
