/** The ownership check: which differences between two configurations a plugin may propose. The methods
    walk the decoded nodes as the source does; what they accept is said about the trees. */
module Ownership {
  import opened Options
  import opened YamlGraph
  import opened YamlTree
  import opened YamlClone

  const OPENAI := "openai-compatibility"
  const CLAUDE := "claude-api-key"

  /** The children of a node and the trees they stand for. */
  ghost predicate RepresentAll(g: Graph, ids: seq<Option<NodeId>>, models: seq<Tree>) {
    && |ids| == |models|
    && (forall i :: 0 <= i < |models| ==> ids[i].Some? && Represents(g, ids[i].value, models[i]) && FineTree(models[i]))
  }

  lemma Children(g: Graph, id: NodeId, tree: Tree)
    requires Represents(g, id, tree) && FineTree(tree)
    ensures g[id].shell == tree.shell && RepresentAll(g, g[id].content, tree.content)
    ensures tree.shell.kind == MappingNode ==> FineEntries(tree.content)
  {
  }

  lemma KeyText(g: Graph, ids: seq<Option<NodeId>>, trees: seq<Tree>, i: nat)
    requires RepresentAll(g, ids, trees) && i < |trees|
    ensures ids[i].value in g && g[ids[i].value].shell == trees[i].shell
  {
  }

  // ---------- model names ----------

  /** The text of the one scalar name a model mapping must have, not blank. */
  function NameOf(model: Tree): Option<string> {
    match ValueOf(model, "name")
    case None => None
    case Some(value) =>
      if value.shell.kind == ScalarNode && TrimSpace(value.shell.value) != "" then Some(value.shell.value) else None
  }

  lemma NameNotEmpty(model: Tree)
    requires NameOf(model).Some?
    ensures NameOf(model).value != ""
  {
    assert TrimSpace("") == "";
  }

  ghost predicate NamedUpTo(models: seq<Tree>, n: nat)
    requires n <= |models|
  {
    && (forall i :: 0 <= i < n ==> NameOf(models[i]).Some?)
    && (forall i, j :: 0 <= i < j < n ==> NameOf(models[i]) != NameOf(models[j]))
  }

  /** Every model has a name and no two have the same. */
  ghost predicate Named(models: seq<Tree>) {
    NamedUpTo(models, |models|)
  }

  lemma NameAt(tree: Tree, i: nat)
    requires tree.shell.kind == MappingNode && FineEntries(tree.content)
    requires i < |tree.content| && i % 2 == 0 && tree.content[i].shell.value == "name"
    ensures KeyIndex(tree.content, "name") == i && ValueOf(tree, "name") == Some(tree.content[i + 1])
  {
    KeyIndexUnique(tree.content, "name", i);
  }

  method ModelName(g: Graph, id: NodeId, ghost tree: Tree) returns (name: Option<string>)
    requires Represents(g, id, tree) && FineTree(tree)
    ensures name == NameOf(tree)
  {
    Children(g, id, tree);
    var node := g[id];
    if node.shell.kind != MappingNode {
      return None;
    }
    hide TrimSpace, Represents, FineTree, KeyIndex;
    var text := "";
    var i := 0;
    while i < |node.content|
      invariant i % 2 == 0 && i <= |node.content|
      invariant text == "" ==> KeyIndex(tree.content, "name") >= i
      invariant text != "" ==> KeyIndex(tree.content, "name") < i && NameOf(tree) == Some(text)
    {
      KeyText(g, node.content, tree.content, i);
      KeyText(g, node.content, tree.content, i + 1);
      if g[node.content[i].value].shell.value == "name" {
        NameAt(tree, i);
        var value := g[node.content[i + 1].value];
        if value.shell.kind != ScalarNode || TrimSpace(value.shell.value) == "" || text != "" {
          return None;
        }
        text := value.shell.value;
        NameNotEmpty(tree);
      }
      i := i + 2;
    }
    return if text == "" then None else Some(text);
  }

  ghost predicate NamedBy(models: seq<Tree>, n: nat, name: string)
    requires n <= |models|
  {
    exists i :: 0 <= i < n && NameOf(models[i]) == Some(name)
  }

  predicate FiledUnder(byName: map<string, NodeId>, name: Option<string>, id: Option<NodeId>) {
    name.Some? && id.Some? && name.value in byName && byName[name.value] == id.value
  }

  /** The first n models are filed under their names, and nothing else is. */
  ghost predicate IndexesUpTo(ids: seq<Option<NodeId>>, models: seq<Tree>, n: nat, byName: map<string, NodeId>)
    requires n <= |ids| == |models|
  {
    && (forall i :: 0 <= i < n ==> FiledUnder(byName, NameOf(models[i]), ids[i]))
    && (forall name :: name in byName ==> NamedBy(models, n, name))
  }

  ghost predicate Indexes(ids: seq<Option<NodeId>>, models: seq<Tree>, byName: map<string, NodeId>) {
    |ids| == |models| && IndexesUpTo(ids, models, |models|, byName)
  }

  method NamedModels(g: Graph, ids: seq<Option<NodeId>>, ghost models: seq<Tree>) returns (byName: Option<map<string, NodeId>>)
    requires RepresentAll(g, ids, models)
    ensures byName.Some? <==> Named(models)
    ensures byName.Some? ==> Indexes(ids, models, byName.value)
  {
    hide Represents, FineTree, NameOf;
    var result: map<string, NodeId> := map[];
    var i := 0;
    while i < |ids|
      invariant i <= |ids| && NamedUpTo(models, i) && IndexesUpTo(ids, models, i, result)
    {
      var name := ModelName(g, ids[i].value, models[i]);
      if name.None? {
        return None;
      }
      if name.value in result {
        assert NamedBy(models, i, name.value);
        return None;
      }
      IndexGrows(ids, models, i, result);
      result := result[name.value := ids[i].value];
      i := i + 1;
    }
    return Some(result);
  }

  lemma IndexGrows(ids: seq<Option<NodeId>>, models: seq<Tree>, i: nat, byName: map<string, NodeId>)
    requires i < |ids| == |models| && ids[i].Some? && NameOf(models[i]).Some? && NameOf(models[i]).value !in byName
    requires NamedUpTo(models, i) && IndexesUpTo(ids, models, i, byName)
    ensures NamedUpTo(models, i + 1)
    ensures IndexesUpTo(ids, models, i + 1, byName[NameOf(models[i]).value := ids[i].value])
  {
    hide NameOf;
    var name := NameOf(models[i]).value;
    forall k | 0 <= k < i ensures NameOf(models[k]) != NameOf(models[i]) {
      assert FiledUnder(byName, NameOf(models[k]), ids[k]);
    }
    forall n {:trigger NamedBy(models, i + 1, n)} | n in byName[name := ids[i].value] ensures NamedBy(models, i + 1, n) {
      if n == name {
        assert NameOf(models[i]) == Some(n);
      } else {
        assert NamedBy(models, i, n);
      }
    }
  }

  // ---------- membership ----------

  predicate Undecorated(tree: Tree) {
    && tree.shell.style == 0 && tree.shell.anchor == "" && tree.shell.headComment == ""
    && tree.shell.lineComment == "" && tree.shell.footComment == "" && tree.alias.None?
  }

  predicate PlainText(tree: Tree, text: string) {
    tree.shell.kind == ScalarNode && tree.shell.tag == "!!str" && tree.shell.value == text && Undecorated(tree)
  }

  /** A new model is a bare mapping with a name and nothing else. */
  predicate Minimal(model: Tree, name: string) {
    && model.shell.kind == MappingNode && |model.content| == 2 && Undecorated(model)
    && PlainText(model.content[0], "name") && PlainText(model.content[1], name) && TrimSpace(name) != ""
  }

  ghost predicate AllowedModel(base: seq<Tree>, model: Tree) {
    || model in base
    || (NameOf(model).Some? && (forall i :: 0 <= i < |base| ==> NameOf(base[i]) != NameOf(model))
        && Minimal(model, NameOf(model).value))
  }

  ghost predicate MembershipModels(base: Tree, proposed: Tree) {
    && SameShell(base, proposed) && base.shell.kind == SequenceNode
    && Named(base.content) && Named(proposed.content)
    && (forall j :: 0 <= j < |proposed.content| ==> AllowedModel(base.content, proposed.content[j]))
  }

  /** Entry i may differ only as `allowed` says, and only under the key `owned`. */
  ghost predicate MembershipEntry(base: Tree, proposed: Tree, i: nat)
    requires i + 1 < |base.content| && i + 1 < |proposed.content|
  {
    && base.content[i] == proposed.content[i]
    && (if base.content[i].shell.value == "models" then MembershipModels(base.content[i + 1], proposed.content[i + 1])
        else base.content[i + 1] == proposed.content[i + 1])
  }

  ghost predicate MembershipEntries(b: Tree, p: Tree, n: nat) {
    && n <= |b.content| == |p.content|
    && (forall k {:trigger MembershipEntry(b, p, k)} :: 0 <= k < n - 1 && k % 2 == 0 ==> MembershipEntry(b, p, k))
  }

  ghost predicate MembershipProvider(base: Tree, proposed: Tree) {
    && SameShell(base, proposed) && base.shell.kind == MappingNode && |base.content| == |proposed.content|
    && MembershipEntries(base, proposed, |base.content|)
  }

  ghost predicate MembershipProviders(base: Tree, proposed: Tree) {
    && SameShell(base, proposed) && base.shell.kind == SequenceNode && |base.content| == |proposed.content|
    && (forall i :: 0 <= i < |base.content| ==> MembershipProvider(base.content[i], proposed.content[i]))
  }

  ghost predicate MembershipRootEntry(base: Tree, proposed: Tree, i: nat)
    requires i + 1 < |base.content| && i + 1 < |proposed.content|
  {
    && base.content[i] == proposed.content[i]
    && (if base.content[i].shell.value == OPENAI then MembershipProviders(base.content[i + 1], proposed.content[i + 1])
        else base.content[i + 1] == proposed.content[i + 1])
  }

  ghost predicate MembershipRootEntries(b: Tree, p: Tree, n: nat) {
    && n <= |b.content| == |p.content|
    && (forall k {:trigger MembershipRootEntry(b, p, k)} :: 0 <= k < n - 1 && k % 2 == 0 ==> MembershipRootEntry(b, p, k))
  }

  ghost predicate MembershipRoot(base: Tree, proposed: Tree) {
    SameShell(base, proposed) && |base.content| == |proposed.content| && MembershipRootEntries(base, proposed, |base.content|)
  }

  /** Two nodes and the trees they stand for. */
  ghost predicate Both(g: Graph, base: NodeId, proposed: NodeId, b: Tree, p: Tree) {
    Closed(g) && Represents(g, base, b) && Represents(g, proposed, p) && FineTree(b) && FineTree(p)
  }

  method MinimalNewModel(g: Graph, id: NodeId, name: string, ghost tree: Tree) returns (minimal: bool)
    requires Represents(g, id, tree)
    ensures minimal <==> Minimal(tree, name)
  {
    var node := g[id];
    if node.shell.kind != MappingNode || |node.content| != 2 || !Bare(node) {
      return false;
    }
    var key, value := g[node.content[0].value], g[node.content[1].value];
    return key.shell.kind == ScalarNode && key.shell.tag == "!!str" && key.shell.value == "name" && Bare(key)
      && value.shell.kind == ScalarNode && value.shell.tag == "!!str" && value.shell.value == name
      && TrimSpace(name) != "" && Bare(value);
  }

  predicate Bare(node: Node) {
    && node.shell.style == 0 && node.shell.anchor == "" && node.shell.headComment == ""
    && node.shell.lineComment == "" && node.shell.footComment == "" && node.alias.None?
  }

  /** The proposed models in the arbitrary order of a Go map. */
  method CompareNamed(g: Graph, baseIds: seq<Option<NodeId>>, proposedIds: seq<Option<NodeId>>,
    base: map<string, NodeId>, proposed: map<string, NodeId>, ghost bs: seq<Tree>, ghost ps: seq<Tree>) returns (ok: bool)
    requires Closed(g) && RepresentAll(g, baseIds, bs) && RepresentAll(g, proposedIds, ps) && Named(bs) && Named(ps)
    requires Indexes(baseIds, bs, base) && Indexes(proposedIds, ps, proposed)
    ensures ok <==> forall j :: 0 <= j < |ps| ==> AllowedModel(bs, ps[j])
  {
    hide Represents, FineTree, NameOf, Minimal, AllowedModel;
    var todo := proposed.Keys;
    while todo != {}
      invariant todo <= proposed.Keys
      invariant forall j :: 0 <= j < |ps| && NameOf(ps[j]).value !in todo ==> AllowedModel(bs, ps[j])
    {
      var name :| name in todo;
      assert NamedBy(ps, |ps|, name);
      ghost var j :| 0 <= j < |ps| && NameOf(ps[j]) == Some(name);
      assert FiledUnder(proposed, NameOf(ps[j]), proposedIds[j]);
      if name in base {
        assert NamedBy(bs, |bs|, name);
        ghost var i :| 0 <= i < |bs| && NameOf(bs[i]) == Some(name);
        assert FiledUnder(base, NameOf(bs[i]), baseIds[i]);
        var same := SameNodes(g, base[name], proposed[name], bs[i], ps[j]);
        RetainedModel(bs, i, ps[j]);
        if !same {
          return false;
        }
      } else {
        var minimal := MinimalNewModel(g, proposed[name], name, ps[j]);
        NewModel(baseIds, bs, base, ps[j]);
        if !minimal {
          return false;
        }
      }
      todo := todo - {name};
    }
    return true;
  }

  lemma RetainedModel(bs: seq<Tree>, i: nat, model: Tree)
    requires Named(bs) && i < |bs| && NameOf(model).Some? && NameOf(bs[i]) == NameOf(model)
    ensures AllowedModel(bs, model) <==> bs[i] == model
  {
    hide NameOf;
  }

  lemma NewModel(ids: seq<Option<NodeId>>, bs: seq<Tree>, byName: map<string, NodeId>, model: Tree)
    requires Indexes(ids, bs, byName) && NameOf(model).Some? && NameOf(model).value !in byName
    ensures AllowedModel(bs, model) <==> Minimal(model, NameOf(model).value)
  {
    hide NameOf, Minimal;
    forall i | 0 <= i < |bs| ensures NameOf(bs[i]) != NameOf(model) {
      assert FiledUnder(byName, NameOf(bs[i]), ids[i]);
    }
  }

  /** None is the error; otherwise whether anything changed. */
  method CompareMembershipModels(g: Graph, base: NodeId, proposed: NodeId, ghost b: Tree, ghost p: Tree) returns (changed: Option<bool>)
    requires Both(g, base, proposed, b, p)
    ensures changed.Some? <==> MembershipModels(b, p)
    ensures changed.Some? ==> (changed.value <==> b != p)
  {
    var shell := SameNodeShell(g, base, proposed, b, p);
    if !shell || g[base].shell.kind != SequenceNode {
      return None;
    }
    Children(g, base, b);
    Children(g, proposed, p);
    var baseModels := NamedModels(g, g[base].content, b.content);
    if baseModels.None? {
      return None;
    }
    var proposedModels := NamedModels(g, g[proposed].content, p.content);
    if proposedModels.None? {
      return None;
    }
    var ok := CompareNamed(g, g[base].content, g[proposed].content, baseModels.value, proposedModels.value, b.content, p.content);
    if !ok {
      return None;
    }
    var same := SameNodes(g, base, proposed, b, p);
    return Some(!same);
  }

  /** The first i children of the two sequences are the same. */
  ghost predicate SameBefore(b: seq<Tree>, p: seq<Tree>, i: nat) {
    i <= |b| && i <= |p| && forall k :: 0 <= k < i ==> b[k] == p[k]
  }

  /** One entry of a provider; the value says whether its owned part changed. */
  method CompareMembershipEntry(g: Graph, before: seq<Option<NodeId>>, after: seq<Option<NodeId>>, i: nat, ghost b: Tree, ghost p: Tree)
    returns (changed: Option<bool>)
    requires Closed(g) && RepresentAll(g, before, b.content) && RepresentAll(g, after, p.content)
    requires i + 1 < |b.content| && i + 1 < |p.content|
    ensures changed.Some? <==> MembershipEntry(b, p, i)
    ensures changed.Some? ==> (changed.value <==> b.content[i + 1] != p.content[i + 1])
  {
    hide Represents, FineTree, MembershipModels;
    var same := SameNodes(g, before[i].value, after[i].value, b.content[i], p.content[i]);
    if !same {
      return None;
    }
    KeyText(g, before, b.content, i);
    if g[before[i].value].shell.value != "models" {
      same := SameNodes(g, before[i + 1].value, after[i + 1].value, b.content[i + 1], p.content[i + 1]);
      return if same then Some(false) else None;
    }
    changed := CompareMembershipModels(g, before[i + 1].value, after[i + 1].value, b.content[i + 1], p.content[i + 1]);
  }

  /** The loop over the entries: whether `models` is among them and whether anything changed. */
  method CompareMembershipEntries(g: Graph, before: seq<Option<NodeId>>, after: seq<Option<NodeId>>, ghost b: Tree, ghost p: Tree)
    returns (foundModels: bool, changed: Option<bool>)
    requires Closed(g) && RepresentAll(g, before, b.content) && RepresentAll(g, after, p.content)
    requires FineEntries(b.content) && |b.content| == |p.content|
    ensures changed.Some? <==> MembershipEntries(b, p, |b.content|)
    ensures changed.Some? ==> (changed.value <==> b.content != p.content) && (!foundModels ==> !changed.value)
  {
    hide Represents, FineTree, MembershipEntry;
    foundModels := false;
    var ownedChanged := false;
    var i := 0;
    while i < |before|
      invariant i % 2 == 0 && i <= |before| && MembershipEntries(b, p, i)
      invariant ownedChanged <==> !SameBefore(b.content, p.content, i)
      invariant !foundModels ==> !ownedChanged
    {
      changed := CompareMembershipEntry(g, before, after, i, b, p);
      if changed.None? {
        return;
      }
      KeyText(g, before, b.content, i);
      MembershipEntryKeeps(b, p, i);
      if g[before[i].value].shell.value == "models" {
        foundModels, ownedChanged := true, changed.value;
      }
      i := i + 2;
    }
    assert b.content == p.content <==> SameBefore(b.content, p.content, i);
    changed := Some(ownedChanged);
  }

  method CompareMembershipProvider(g: Graph, base: NodeId, proposed: NodeId, ghost b: Tree, ghost p: Tree) returns (changed: Option<bool>)
    requires Both(g, base, proposed, b, p)
    ensures changed.Some? <==> MembershipProvider(b, p)
    ensures changed.Some? ==> (changed.value <==> b != p)
  {
    var shell := SameNodeShell(g, base, proposed, b, p);
    if !shell || g[base].shell.kind != MappingNode || |g[base].content| != |g[proposed].content| {
      return None;
    }
    Children(g, base, b);
    Children(g, proposed, p);
    var foundModels;
    foundModels, changed := CompareMembershipEntries(g, g[base].content, g[proposed].content, b, p);
    if changed.Some? && !foundModels {
      var same := SameNodes(g, base, proposed, b, p);
      if !same {
        assert false;
      }
    }
  }

  lemma MembershipEntryKeeps(b: Tree, p: Tree, i: nat)
    requires FineEntries(b.content) && |b.content| == |p.content| && i + 1 < |b.content| && i % 2 == 0
    requires MembershipEntries(b, p, i) && MembershipEntry(b, p, i)
    ensures MembershipEntries(b, p, i + 2)
    ensures b.content[i].shell.value == "models" ==> SameBefore(b.content, p.content, i)
    ensures b.content[i].shell.value != "models" ==> b.content[i + 1] == p.content[i + 1]
    ensures SameBefore(b.content, p.content, i + 2) <==>
      SameBefore(b.content, p.content, i) && b.content[i + 1] == p.content[i + 1]
  {
    hide MembershipModels;
    assert MembershipEntry(b, p, i);
    if b.content[i].shell.value == "models" {
      OnlyOneModels(b, p, i);
    }
  }

  /** Up to the entry `models` the mappings are the same. */
  lemma OnlyOneModels(b: Tree, p: Tree, i: nat)
    requires FineEntries(b.content) && |b.content| == |p.content| && i + 1 < |b.content| && i % 2 == 0
    requires b.content[i].shell.value == "models"
    requires MembershipEntries(b, p, i)
    ensures SameBefore(b.content, p.content, i)
  {
    hide MembershipModels;
    forall k | 0 <= k < i ensures b.content[k] == p.content[k] {
      assert MembershipEntry(b, p, k - k % 2);
      assert b.content[k - k % 2].shell.value != "models";
    }
  }

  method CompareMembershipProviders(g: Graph, base: NodeId, proposed: NodeId, ghost b: Tree, ghost p: Tree) returns (changed: Option<bool>)
    requires Both(g, base, proposed, b, p)
    ensures changed.Some? <==> MembershipProviders(b, p)
    ensures changed.Some? ==> (changed.value <==> b != p)
  {
    var shell := SameNodeShell(g, base, proposed, b, p);
    var before, after := g[base].content, g[proposed].content;
    if !shell || g[base].shell.kind != SequenceNode || |before| != |after| {
      return None;
    }
    Children(g, base, b);
    Children(g, proposed, p);
    hide Represents, FineTree, MembershipProvider;
    var ownedChanged := false;
    var i := 0;
    while i < |before|
      invariant i <= |before|
      invariant forall k :: 0 <= k < i ==> MembershipProvider(b.content[k], p.content[k])
      invariant ownedChanged <==> !SameBefore(b.content, p.content, i)
    {
      var provider := CompareMembershipProvider(g, before[i].value, after[i].value, b.content[i], p.content[i]);
      if provider.None? {
        return None;
      }
      ownedChanged := ownedChanged || provider.value;
      i := i + 1;
    }
    assert b.content == p.content <==> SameBefore(b.content, p.content, i);
    return Some(ownedChanged);
  }

  method CompareMembershipRootEntry(g: Graph, before: seq<Option<NodeId>>, after: seq<Option<NodeId>>, i: nat, ghost b: Tree, ghost p: Tree)
    returns (changed: Option<bool>)
    requires Closed(g) && RepresentAll(g, before, b.content) && RepresentAll(g, after, p.content)
    requires i + 1 < |b.content| && i + 1 < |p.content|
    ensures changed.Some? <==> MembershipRootEntry(b, p, i)
    ensures changed.Some? ==> (changed.value <==> b.content[i + 1] != p.content[i + 1])
  {
    hide Represents, FineTree, MembershipProviders;
    var same := SameNodes(g, before[i].value, after[i].value, b.content[i], p.content[i]);
    if !same {
      return None;
    }
    KeyText(g, before, b.content, i);
    if g[before[i].value].shell.value != OPENAI {
      same := SameNodes(g, before[i + 1].value, after[i + 1].value, b.content[i + 1], p.content[i + 1]);
      return if same then Some(false) else None;
    }
    changed := CompareMembershipProviders(g, before[i + 1].value, after[i + 1].value, b.content[i + 1], p.content[i + 1]);
  }

  lemma MembershipRootEntryKeeps(b: Tree, p: Tree, i: nat)
    requires MembershipRootEntries(b, p, i) && i + 1 < |b.content| && i % 2 == 0 && MembershipRootEntry(b, p, i)
    ensures MembershipRootEntries(b, p, i + 2)
    ensures SameBefore(b.content, p.content, i + 2) <==>
      SameBefore(b.content, p.content, i) && b.content[i + 1] == p.content[i + 1]
  {
    hide MembershipProviders;
  }

  method CompareMembershipRoot(g: Graph, base: NodeId, proposed: NodeId, ghost b: Tree, ghost p: Tree) returns (changed: Option<bool>)
    requires Both(g, base, proposed, b, p) && b.shell.kind == MappingNode
    ensures changed.Some? <==> MembershipRoot(b, p)
    ensures changed.Some? ==> (changed.value <==> b != p)
  {
    var shell := SameNodeShell(g, base, proposed, b, p);
    var before, after := g[base].content, g[proposed].content;
    if !shell || |before| != |after| {
      return None;
    }
    Children(g, base, b);
    Children(g, proposed, p);
    hide Represents, FineTree, MembershipRootEntry;
    var ownedChanged := false;
    var i := 0;
    while i < |before|
      invariant i % 2 == 0 && i <= |before| && MembershipRootEntries(b, p, i)
      invariant ownedChanged <==> !SameBefore(b.content, p.content, i)
    {
      var entry := CompareMembershipRootEntry(g, before, after, i, b, p);
      if entry.None? {
        return None;
      }
      MembershipRootEntryKeeps(b, p, i);
      ownedChanged := ownedChanged || entry.value;
      i := i + 2;
    }
    assert b.content == p.content <==> SameBefore(b.content, p.content, i);
    return Some(ownedChanged);
  }
}
