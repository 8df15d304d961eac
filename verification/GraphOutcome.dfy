/** Both planners against the check on graphs: a proposal made from a document the check can read can itself be
    read, and is accepted exactly as far as the edit is, unless something unowned leads back to the root. */
module GraphOutcome {
  import opened Options
  import opened YamlGraph
  import opened YamlTree
  import opened YamlClone
  import opened YamlChannels
  import opened OwnershipCheck
  import opened OwnershipFrozen
  import opened GraphProposal
  import Ownership
  import MP = MembershipPlanner
  import MC = MembershipProposal
  import DP = MetadataPlanner
  import DC = MetadataProposal
  import WriterTypes

  // ---------- the proposal can be read ----------

  /** The node stands for a tree without alias, anchor or merge key in which every mapping is fine. */
  ghost predicate CleanNode(g: Graph, id: NodeId) {
    exists tree :: Represents(g, id, tree) && Clean(tree)
  }

  lemma CleanNodeLeads(g: Graph, id: NodeId, to: NodeId)
    requires CleanNode(g, id)
    ensures FineNode(g, id) && (Edge(g, id, to) ==> CleanNode(g, to))
  {
    var tree :| Represents(g, id, tree) && Clean(tree);
    forall i | 0 <= i < |tree.content|
      ensures g[id].content[i].value in g && g[g[id].content[i].value].shell == tree.content[i].shell
    {
      assert Represents(g, g[id].content[i].value, tree.content[i]);
    }
    if Edge(g, id, to) {
      var i :| 0 <= i < |g[id].content| && g[id].content[i] == Some(to);
      assert Represents(g, to, tree.content[i]) && Clean(tree.content[i]);
    }
  }

  /** A copy of a fine node is fine. */
  lemma CopyIsFine(g: Graph, f: map<NodeId, NodeId>, base: NodeId, id: NodeId)
    requires Closed(g) && CopiedNode(g, f, id) && FineNode(g, id)
    requires forall k :: k in f && k != base ==> CopiedNode(g, f, k)
    requires base in f && base in g && f[base] in g && g[f[base]].shell == g[base].shell
    ensures FineNode(g, f[id])
  {
    var node, copy := g[id], g[f[id]];
    forall i | 0 <= i < |node.content|
      ensures copy.content[i].Some? && g[copy.content[i].value].shell == g[node.content[i].value].shell
    {
      var child := node.content[i].value;
      if child != base {
        assert CopiedNode(g, f, child);
      }
    }
  }

  ghost predicate CopyOf(g: Graph, base: NodeId, f: map<NodeId, NodeId>, y: NodeId, x: NodeId) {
    x in f && f[x] == y && Reachable(g, base, x)
  }

  /** A copy of something the configuration reaches, or a part of an owned value. */
  ghost predicate Known(g: Graph, base: NodeId, f: map<NodeId, NodeId>, y: NodeId) {
    CleanNode(g, y) || exists x :: CopyOf(g, base, f, y, x)
  }

  /** The values the operation owns are clean in the proposal. */
  ghost predicate OwnedClean(operation: WriterTypes.Operation, b: Tree, p: Tree) {
    forall i :: 0 <= i < |b.content| && i < |p.content| && !FreeChild(operation, b, i) ==> Clean(p.content[i])
  }

  lemma MappedIsKnown(g: Graph, base: NodeId, f: map<NodeId, NodeId>, from: NodeId, x: NodeId, y: NodeId)
    requires x in f && f[x] == y && Reachable(g, base, from) && Edge(g, from, x)
    ensures Known(g, base, f, y)
  {
    ReachableStep(g, base, from, x);
    assert CopyOf(g, base, f, y, x);
  }

  lemma KnownLeads(g: Graph, operation: WriterTypes.Operation, base: NodeId, proposed: NodeId, b: Tree, p: Tree, f: map<NodeId, NodeId>, y: NodeId, to: NodeId)
    requires Closed(g) && FineDocument(g, base) && Represents(g, base, b) && Represents(g, proposed, p)
    requires Copied(g, operation, base, proposed, b, f) && OwnedClean(operation, b, p) && Known(g, base, f, y) && Edge(g, y, to)
    ensures Known(g, base, f, to)
  {
    if CleanNode(g, y) {
      CleanNodeLeads(g, y, to);
    } else {
      var x :| CopyOf(g, base, f, y, x);
      assert x != base ==> CopiedNode(g, f, x);
      hide Known, CleanNode, Clean, Represents, Reachable, FineDocument;
      if g[y].alias == Some(to) {
        assert x != base && g[x].alias.Some?;
        MappedIsKnown(g, base, f, x, g[x].alias.value, to);
      } else {
        var i :| 0 <= i < |g[y].content| && g[y].content[i] == Some(to);
        if x == base && !FreeChild(operation, b, i) {
          OwnedIsKnown(g, base, proposed, b, p, f, i);
        } else {
          assert Mapped(f, g[x].content[i], Some(to));
          assert g[x].content[i] in g[x].content;
          MappedIsKnown(g, base, f, x, g[x].content[i].value, to);
        }
      }
    }
  }

  lemma OwnedIsKnown(g: Graph, base: NodeId, proposed: NodeId, b: Tree, p: Tree, f: map<NodeId, NodeId>, i: nat)
    requires Represents(g, proposed, p) && i < |p.content| && Clean(p.content[i])
    ensures Known(g, base, f, g[proposed].content[i].value)
  {
    assert CleanNode(g, g[proposed].content[i].value);
  }

  lemma RootIsFine(g: Graph, operation: WriterTypes.Operation, base: NodeId, proposed: NodeId, b: Tree, p: Tree, f: map<NodeId, NodeId>)
    requires Closed(g) && FineNode(g, base) && Represents(g, base, b) && Represents(g, proposed, p)
    requires Copied(g, operation, base, proposed, b, f)
    ensures FineNode(g, proposed)
  {
    forall i | 0 <= i < |g[base].content| && i % 2 == 0
      ensures g[proposed].content[i].Some? && g[g[proposed].content[i].value].shell == g[g[base].content[i].value].shell
    {
      assert FreeChild(operation, b, i);
      var key := g[base].content[i].value;
      if key != base {
        assert CopiedNode(g, f, key);
      }
    }
  }

  lemma KnownIsFine(g: Graph, operation: WriterTypes.Operation, base: NodeId, proposed: NodeId, b: Tree, p: Tree, f: map<NodeId, NodeId>, y: NodeId)
    requires Closed(g) && FineDocument(g, base) && Represents(g, base, b) && Represents(g, proposed, p)
    requires Copied(g, operation, base, proposed, b, f) && Known(g, base, f, y)
    ensures FineNode(g, y)
  {
    if CleanNode(g, y) {
      CleanNodeLeads(g, y, y);
    } else {
      var x :| CopyOf(g, base, f, y, x);
      hide CleanNode, Represents, Reachable, FineNode, CopiedNode;
      if x == base {
        RootIsFine(g, operation, base, proposed, b, p, f);
      } else {
        CopyIsFine(g, f, base, x);
      }
    }
  }

  lemma {:induction false} KnownAlong(g: Graph, operation: WriterTypes.Operation, base: NodeId, proposed: NodeId, b: Tree, p: Tree, f: map<NodeId, NodeId>, path: seq<NodeId>)
    requires Closed(g) && FineDocument(g, base) && Represents(g, base, b) && Represents(g, proposed, p)
    requires Copied(g, operation, base, proposed, b, f) && OwnedClean(operation, b, p)
    requires Path(g, path) && Known(g, base, f, path[0])
    ensures Known(g, base, f, path[|path| - 1])
    decreases |path|
  {
    hide FineDocument, Represents, Copied, OwnedClean, Known, Closed;
    if |path| > 1 {
      KnownLeads(g, operation, base, proposed, b, p, f, path[0], path[1]);
      KnownAlong(g, operation, base, proposed, b, p, f, path[1..]);
    }
  }

  /** Every node the proposal reaches is fine, so it can be read like the configuration it was made from. */
  lemma ProposalIsFine(g: Graph, operation: WriterTypes.Operation, base: NodeId, proposed: NodeId, b: Tree, p: Tree, f: map<NodeId, NodeId>)
    requires Closed(g) && FineDocument(g, base) && Represents(g, base, b) && Represents(g, proposed, p)
    requires Copied(g, operation, base, proposed, b, f) && OwnedClean(operation, b, p)
    ensures FineDocument(g, proposed)
  {
    ReachableSelf(g, base);
    assert CopyOf(g, base, f, proposed, base);
    forall id | Reachable(g, proposed, id) ensures FineNode(g, id) {
      var path: seq<NodeId> :| Path(g, path) && path[0] == proposed && path[|path| - 1] == id;
      hide FineDocument, Represents, Copied, OwnedClean, Closed, CopyOf, FineNode, Path, Reachable, CleanNode;
      KnownAlong(g, operation, base, proposed, b, p, f, path);
      KnownIsFine(g, operation, base, proposed, b, p, f, id);
    }
  }

  // ---------- what the check makes of it ----------

  /** Both documents can be read and the difference between them is allowed: what the check accepts. */
  ghost predicate Accepts(g: Graph, operation: WriterTypes.Operation, document: NodeId, proposal: NodeId, b: Tree, p: Tree) {
    OwnedDocument(g, document) && OwnedDocument(g, proposal) && MayPropose(operation, b, p)
  }

  /** The proposal's document: one root, made of a copy and of the owned values of the edit. */
  ghost predicate ProposalOf(g: Graph, operation: WriterTypes.Operation, document: NodeId, proposal: NodeId, b: Tree, e: Tree, p: Tree,
      f: map<NodeId, NodeId>)
  {
    && Decoded(g, document, b) && Decoded(g, proposal, p)
    && |g[document].content| == 1 && g[document].content[0].Some?
    && g[proposal].shell == g[document].shell && |g[proposal].content| == 1 && g[proposal].content[0].Some?
    && Copied(g, operation, g[document].content[0].value, g[proposal].content[0].value, b, f)
    && |p.content| == |b.content| == |e.content|
    && (forall i :: 0 <= i < |b.content| && !FreeChild(operation, b, i) ==> p.content[i] == e.content[i])
  }

  lemma MembershipKeeps(reader: Reader, b: Tree, e: Tree, results: seq<MP.Planned>, places: seq<nat>)
    requires b.shell.kind == MappingNode && MP.Edited(reader, b, e, results, places)
    ensures SameShell(b, e) && |e.content| == |b.content|
    ensures forall i :: 0 <= i < |b.content| && FreeChild(WriterTypes.AutoPull, b, i) ==> e.content[i] == b.content[i]
  {
    hide KeyIndex, MP.ChannelsEdited, MP.Locates;
  }

  lemma MetadataKeeps(b: Tree, e: Tree, results: seq<DP.ChannelPlan>, places: seq<nat>)
    requires DP.Edited(b, e, results, places)
    ensures SameShell(b, e) && |e.content| == |b.content|
    ensures forall i :: 0 <= i < |b.content| && FreeChild(WriterTypes.MetadataSync, b, i) ==> e.content[i] == b.content[i]
  {
    hide DP.ProvidersEdited;
    forall i | 0 <= i < |b.content| && FreeChild(WriterTypes.MetadataSync, b, i) ensures e.content[i] == b.content[i] {
      assert DP.EntryEdited(b, e, i, results, places);
    }
  }

  lemma OwnedValueIsClean(operation: WriterTypes.Operation, tree: Tree, i: nat)
    requires FineTree(tree) && MutablePaths(tree, operation) && i < |tree.content| && i % 2 == 1
    requires OwnedRoot(operation, tree.content[i - 1].shell.value)
    ensures Clean(tree.content[i])
  {
    hide *;
    FineParts(tree, i);
    RootsAreReadable(tree, operation);
    RootAt(tree.content, operation, i - 1);
    CleanIs(tree.content[i]);
  }

  lemma CleanIs(tree: Tree)
    requires FineTree(tree) && Unambiguous(tree)
    ensures Clean(tree)
  {
  }

  lemma RootsAreReadable(tree: Tree, operation: WriterTypes.Operation)
    requires MutablePaths(tree, operation)
    ensures RootsReadable(tree.content, operation, |tree.content|)
  {
    hide Unambiguous, PluginConfigs, PluginReadable, OwnedRoot, RootsReadable;
  }

  lemma RootAt(content: seq<Tree>, operation: WriterTypes.Operation, k: nat)
    requires RootsReadable(content, operation, |content|) && k + 1 < |content| && k % 2 == 0
    requires OwnedRoot(operation, content[k].shell.value)
    ensures Unambiguous(content[k + 1])
  {
    hide Unambiguous, OwnedRoot;
  }

  lemma FineParts(tree: Tree, i: nat)
    requires FineTree(tree) && i < |tree.content|
    ensures FineTree(tree.content[i])
  {
  }

  lemma NotFree(operation: WriterTypes.Operation, b: Tree, i: nat)
    requires i < |b.content| && !FreeChild(operation, b, i)
    ensures i % 2 == 1 && OwnedRoot(operation, b.content[i - 1].shell.value) && FreeChild(operation, b, i - 1)
  {
  }

  lemma OwnedIsClean(operation: WriterTypes.Operation, b: Tree, e: Tree, p: Tree)
    requires EditedAs(operation, b, e, p) && FineTree(e) && MutablePaths(e, operation)
    ensures OwnedClean(operation, b, p)
  {
    hide FineTree, Clean, MutablePaths, OwnedRoot, FreeChild;
    forall i | 0 <= i < |b.content| && !FreeChild(operation, b, i) ensures Clean(p.content[i]) {
      NotFree(operation, b, i);
      OwnedValueIsClean(operation, e, i);
    }
  }

  lemma MetadataOwnedIsClean(reader: Reader, b: Tree, e: Tree, p: Tree, results: seq<DP.ChannelPlan>, places: seq<nat>)
    requires FineTree(b) && b.shell.kind == MappingNode && MutablePaths(b, WriterTypes.MetadataSync)
    requires DP.AllFound(reader, b, results, places) && DP.Edited(b, e, results, places)
    requires EditedAs(WriterTypes.MetadataSync, b, e, p)
    ensures OwnedClean(WriterTypes.MetadataSync, b, p)
  {
    hide FineTree, Clean, MutablePaths, FreeChild, DP.AllFound, DP.Edited;
    forall i | 0 <= i < |b.content| && !FreeChild(WriterTypes.MetadataSync, b, i) ensures Clean(p.content[i]) {
      NotFree(WriterTypes.MetadataSync, b, i);
      OwnedValueIsClean(WriterTypes.MetadataSync, b, i);
      DC.EntryClean(reader, b, e, results, places, i);
    }
  }

  lemma DocumentTree(g: Graph, document: NodeId, b: Tree)
    requires OwnedDocument(g, document) && Decoded(g, document, b)
    ensures FineTree(b) && b.shell.kind == MappingNode && |b.content| % 2 == 0
  {
    FineDocumentTree(g, g[document].content[0].value, b);
  }

  /** Reading the proposal back, for both planners. */
  lemma ProposalIsRead(g: Graph, operation: WriterTypes.Operation, document: NodeId, proposal: NodeId, b: Tree, e: Tree, p: Tree,
      f: map<NodeId, NodeId>)
    requires OwnedDocument(g, document) && ProposalOf(g, operation, document, proposal, b, e, p, f) && OwnedClean(operation, b, p)
    ensures OwnedDocument(g, proposal)
  {
    hide OwnedClean, Represents, FineDocument;
    ProposalIsFine(g, operation, g[document].content[0].value, g[proposal].content[0].value, b, p, f);
  }

  /** The check takes a membership proposal exactly when it would take the document unchanged, and nothing
      changes or nothing but the OpenAI channels leads back to the root. */
  lemma MembershipProposalAccepted(g: Graph, document: NodeId, proposal: NodeId, reader: Reader, b: Tree, e: Tree, p: Tree,
      results: seq<MP.Planned>, places: seq<nat>, f: map<NodeId, NodeId>)
    requires ProposalOf(g, WriterTypes.AutoPull, document, proposal, b, e, p, f)
    requires MP.Edited(reader, b, e, results, places) && |places| == |results| && MC.CleanResults(results)
    ensures Accepts(g, WriterTypes.AutoPull, document, proposal, b, p) <==>
      && Accepts(g, WriterTypes.AutoPull, document, document, b, b)
      && (e == b || !SelfRefers(g, WriterTypes.AutoPull, g[document].content[0].value, b))
  {
    hide OwnedDocument, FineTree, MutablePaths, Represents, Copied, MP.Edited, MC.CleanResults, SelfRefers, Ownership.MembershipRoot;
    if OwnedDocument(g, document) && MutablePaths(b, WriterTypes.AutoPull) {
      DocumentTree(g, document, b);
      MembershipKeeps(reader, b, e, results, places);
      assert EditedAs(WriterTypes.AutoPull, b, e, p);
      MC.ProposalMeetsCheck(reader, b, e, results, places);
      OwnedIsCleanIf(WriterTypes.AutoPull, b, e, p);
      AcceptedExactly(g, WriterTypes.AutoPull, g[document].content[0].value, g[proposal].content[0].value, b, p, e, f);
      if OwnedClean(WriterTypes.AutoPull, b, p) {
        ProposalIsRead(g, WriterTypes.AutoPull, document, proposal, b, e, p, f);
      }
    }
  }

  lemma OwnedIsCleanIf(operation: WriterTypes.Operation, b: Tree, e: Tree, p: Tree)
    requires EditedAs(operation, b, e, p) && FineTree(e)
    ensures MayPropose(operation, b, e) ==> OwnedClean(operation, b, p)
  {
    if MayPropose(operation, b, e) {
      OwnedIsClean(operation, b, e, p);
    }
  }

  /** The same for a metadata proposal, given that every field that changes is one the check takes for owned. */
  lemma MetadataProposalAccepted(g: Graph, document: NodeId, proposal: NodeId, reader: Reader, b: Tree, e: Tree, p: Tree,
      results: seq<DP.ChannelPlan>, places: seq<nat>, f: map<NodeId, NodeId>)
    requires ProposalOf(g, WriterTypes.MetadataSync, document, proposal, b, e, p, f)
    requires DP.AllFound(reader, b, results, places) && DP.Edited(b, e, results, places)
    ensures Accepts(g, WriterTypes.MetadataSync, document, proposal, b, p) <==>
      && Accepts(g, WriterTypes.MetadataSync, document, document, b, b) && DC.EditsAllowed(b, results, places)
      && (e == b || !SelfRefers(g, WriterTypes.MetadataSync, g[document].content[0].value, b))
  {
    hide OwnedDocument, FineTree, MutablePaths, Represents, Copied, DP.Edited, DP.AllFound, SelfRefers, DC.EditsAllowed, Ownership.MembershipRoot;
    if OwnedDocument(g, document) && MutablePaths(b, WriterTypes.MetadataSync) {
      DocumentTree(g, document, b);
      MetadataKeeps(b, e, results, places);
      assert EditedAs(WriterTypes.MetadataSync, b, e, p);
      DC.ProposalMeetsCheck(reader, b, e, results, places);
      MetadataOwnedIsClean(reader, b, e, p, results, places);
      AcceptedExactly(g, WriterTypes.MetadataSync, g[document].content[0].value, g[proposal].content[0].value, b, p, e, f);
      ProposalIsRead(g, WriterTypes.MetadataSync, document, proposal, b, e, p, f);
    }
  }
}
