/** The metadata half of the ownership check: a metadata plugin may set six keys of a model and nothing
    else, and may not move what it keeps. */
module MetadataOwnership {
  import opened Options
  import opened YamlGraph
  import opened YamlTree
  import opened Ownership

  const METADATA_KEYS: set<string> := {
    "thinking", "max-context-length", "max-input-tokens", "max-output-tokens", "input-modalities", "output-modalities"}

  /** One of the six keys the metadata plugin owns. */
  predicate OwnedKey(key: Tree) {
    key.shell.kind == ScalarNode && key.shell.tag == "!!str" && key.shell.value in METADATA_KEYS
  }

  /** The entries left when the owned ones are erased. */
  function Unowned(content: seq<Tree>): seq<Tree> {
    if |content| < 2 then []
    else if OwnedKey(content[0]) then Unowned(content[2..])
    else [content[0], content[1]] + Unowned(content[2..])
  }

  /** The owned keys in order. */
  function Order(content: seq<Tree>): seq<string> {
    if |content| < 2 then []
    else if OwnedKey(content[0]) then [content[0].shell.value] + Order(content[2..])
    else Order(content[2..])
  }

  function KeyNode(content: seq<Tree>, name: string): Option<Tree> {
    var i := KeyIndex(content, name);
    if i < |content| && OwnedKey(content[i]) then Some(content[i]) else None
  }

  function OwnedNames(content: seq<Tree>): set<string> {
    set name | name in METADATA_KEYS && KeyNode(content, name).Some?
  }

  function Retained(order: seq<string>, names: set<string>): seq<string> {
    if order == [] then []
    else if order[0] in names then [order[0]] + Retained(order[1..], names)
    else Retained(order[1..], names)
  }

  /** Kept keys are the same nodes, added keys carry no decoration. */
  ghost predicate KeysKept(b: seq<Tree>, p: seq<Tree>) {
    forall name :: name in OwnedNames(p) ==>
      if name in OwnedNames(b) then KeyNode(b, name) == KeyNode(p, name) else Undecorated(KeyNode(p, name).value)
  }

  ghost predicate MetadataModel(base: Tree, proposed: Tree) {
    && SameShell(base, proposed) && base.shell.kind == MappingNode
    && NameOf(base).Some? && NameOf(proposed) == NameOf(base)
    && Unowned(base.content) == Unowned(proposed.content)
    && KeysKept(base.content, proposed.content)
    && Retained(Order(base.content), OwnedNames(proposed.content)) == Retained(Order(proposed.content), OwnedNames(base.content))
  }

  ghost predicate MetadataModels(base: Tree, proposed: Tree) {
    && SameShell(base, proposed) && base.shell.kind == SequenceNode && |base.content| == |proposed.content|
    && (forall i :: 0 <= i < |base.content| ==> MetadataModel(base.content[i], proposed.content[i]))
  }

  ghost predicate MetadataEntry(base: Tree, proposed: Tree, i: nat)
    requires i + 1 < |base.content| && i + 1 < |proposed.content|
  {
    && base.content[i] == proposed.content[i]
    && (if base.content[i].shell.value == "models" then MetadataModels(base.content[i + 1], proposed.content[i + 1])
        else base.content[i + 1] == proposed.content[i + 1])
  }

  ghost predicate MetadataEntries(b: Tree, p: Tree, n: nat) {
    && n <= |b.content| == |p.content|
    && (forall k {:trigger MetadataEntry(b, p, k)} :: 0 <= k < n - 1 && k % 2 == 0 ==> MetadataEntry(b, p, k))
  }

  ghost predicate MetadataProvider(base: Tree, proposed: Tree) {
    && SameShell(base, proposed) && base.shell.kind == MappingNode && |base.content| == |proposed.content|
    && MetadataEntries(base, proposed, |base.content|)
  }

  ghost predicate MetadataProviders(base: Tree, proposed: Tree) {
    && SameShell(base, proposed) && base.shell.kind == SequenceNode && |base.content| == |proposed.content|
    && (forall i :: 0 <= i < |base.content| ==> MetadataProvider(base.content[i], proposed.content[i]))
  }

  ghost predicate MetadataRootEntry(base: Tree, proposed: Tree, i: nat)
    requires i + 1 < |base.content| && i + 1 < |proposed.content|
  {
    && base.content[i] == proposed.content[i]
    && (if base.content[i].shell.value == OPENAI || base.content[i].shell.value == CLAUDE
        then MetadataProviders(base.content[i + 1], proposed.content[i + 1])
        else base.content[i + 1] == proposed.content[i + 1])
  }

  ghost predicate MetadataRootEntries(b: Tree, p: Tree, n: nat) {
    && n <= |b.content| == |p.content|
    && (forall k {:trigger MetadataRootEntry(b, p, k)} :: 0 <= k < n - 1 && k % 2 == 0 ==> MetadataRootEntry(b, p, k))
  }

  ghost predicate MetadataRoot(base: Tree, proposed: Tree) {
    SameShell(base, proposed) && |base.content| == |proposed.content| && MetadataRootEntries(base, proposed, |base.content|)
  }

  /** The owned keys among the first n entries and their nodes. */
  ghost predicate OwnedUpTo(g: Graph, trees: seq<Tree>, n: nat, owned: map<string, NodeId>)
    requires n <= |trees|
  {
    && (forall name :: name in owned ==> KeyNode(trees, name).Some? && KeyIndex(trees, name) < n)
    && (forall name :: name in owned ==> Represents(g, owned[name], KeyNode(trees, name).value))
    && (forall k :: 0 <= k < n && k % 2 == 0 && OwnedKey(trees[k]) ==> trees[k].shell.value in owned)
  }

  /** What the split of a model's fields returns. */
  ghost predicate Splits(g: Graph, trees: seq<Tree>, unowned: seq<Option<NodeId>>, owned: map<string, NodeId>, order: seq<string>) {
    && RepresentAll(g, unowned, Unowned(trees)) && order == Order(trees)
    && OwnedUpTo(g, trees, |trees|, owned) && owned.Keys == OwnedNames(trees)
  }

  lemma OwnedGrows(g: Graph, ids: seq<Option<NodeId>>, trees: seq<Tree>, i: nat, owned: map<string, NodeId>)
    requires RepresentAll(g, ids, trees) && FineEntries(trees) && i % 2 == 0 && i + 1 < |trees|
    requires OwnedUpTo(g, trees, i, owned)
    ensures !OwnedKey(trees[i]) ==> OwnedUpTo(g, trees, i + 2, owned)
    ensures OwnedKey(trees[i]) ==> OwnedUpTo(g, trees, i + 2, owned[trees[i].shell.value := ids[i].value])
  {
    hide Represents, FineTree, KeyIndex;
    if OwnedKey(trees[i]) {
      KeyIndexUnique(trees, trees[i].shell.value, i);
    }
  }

  lemma OwnedComplete(g: Graph, trees: seq<Tree>, owned: map<string, NodeId>)
    requires OwnedUpTo(g, trees, |trees|, owned)
    ensures owned.Keys == OwnedNames(trees)
  {
    hide Represents, KeyIndex;
    forall name | name in owned ensures name in OwnedNames(trees) {
      assert KeyNode(trees, name).Some?;
    }
    forall name | name in OwnedNames(trees) ensures name in owned {
      assert OwnedKey(trees[KeyIndex(trees, name)]);
    }
  }

  /** The split up to entry n; `others` are the trees of `unowned`. */
  ghost predicate SplitUpTo(g: Graph, trees: seq<Tree>, n: nat, unowned: seq<Option<NodeId>>, others: seq<Tree>,
    owned: map<string, NodeId>, order: seq<string>)
  {
    && n <= |trees| && RepresentAll(g, unowned, others)
    && others + Unowned(trees[n..]) == Unowned(trees)
    && order + Order(trees[n..]) == Order(trees)
    && OwnedUpTo(g, trees, n, owned)
  }

  lemma SplitOwned(g: Graph, ids: seq<Option<NodeId>>, trees: seq<Tree>, i: nat,
    unowned: seq<Option<NodeId>>, others: seq<Tree>, owned: map<string, NodeId>, order: seq<string>)
    requires RepresentAll(g, ids, trees) && FineEntries(trees) && i % 2 == 0 && i + 1 < |trees|
    requires SplitUpTo(g, trees, i, unowned, others, owned, order) && OwnedKey(trees[i])
    ensures SplitUpTo(g, trees, i + 2, unowned, others, owned[trees[i].shell.value := ids[i].value], order + [trees[i].shell.value])
  {
    OwnedGrows(g, ids, trees, i, owned);
    hide RepresentAll, OwnedUpTo, FineEntries, OwnedKey;
    assert trees[i..][2..] == trees[i + 2..];
    assert order + Order(trees[i..]) == order + [trees[i].shell.value] + Order(trees[i + 2..]);
  }

  lemma SplitOther(g: Graph, ids: seq<Option<NodeId>>, trees: seq<Tree>, i: nat,
    unowned: seq<Option<NodeId>>, others: seq<Tree>, owned: map<string, NodeId>, order: seq<string>)
    requires RepresentAll(g, ids, trees) && FineEntries(trees) && i % 2 == 0 && i + 1 < |trees|
    requires SplitUpTo(g, trees, i, unowned, others, owned, order) && !OwnedKey(trees[i])
    ensures SplitUpTo(g, trees, i + 2, unowned + [ids[i], ids[i + 1]], others + [trees[i], trees[i + 1]], owned, order)
  {
    hide Represents, FineTree;
    OwnedGrows(g, ids, trees, i, owned);
    hide OwnedUpTo, FineEntries, OwnedKey;
    assert trees[i..][2..] == trees[i + 2..];
    assert others + Unowned(trees[i..]) == others + [trees[i], trees[i + 1]] + Unowned(trees[i + 2..]);
  }

  lemma SplitNone(g: Graph, trees: seq<Tree>)
    ensures SplitUpTo(g, trees, 0, [], [], map[], [])
  {
    assert trees[0..] == trees;
    assert [] + Unowned(trees) == Unowned(trees) && [] + Order(trees) == Order(trees);
  }

  lemma SplitAll(g: Graph, trees: seq<Tree>, unowned: seq<Option<NodeId>>, others: seq<Tree>, owned: map<string, NodeId>, order: seq<string>)
    requires SplitUpTo(g, trees, |trees|, unowned, others, owned, order)
    ensures Splits(g, trees, unowned, owned, order)
  {
    OwnedComplete(g, trees, owned);
    assert trees[|trees|..] == [] && others == Unowned(trees) && order == Order(trees);
  }

  method SplitMetadataFields(g: Graph, ids: seq<Option<NodeId>>, ghost trees: seq<Tree>)
    returns (unowned: seq<Option<NodeId>>, owned: map<string, NodeId>, order: seq<string>)
    requires RepresentAll(g, ids, trees) && FineEntries(trees)
    ensures Splits(g, trees, unowned, owned, order)
  {
    hide Represents, FineTree, SplitUpTo, Splits;
    unowned, owned, order := [], map[], [];
    ghost var others: seq<Tree> := [];
    SplitNone(g, trees);
    var i := 0;
    while i < |ids|
      invariant i % 2 == 0 && i <= |ids|
      invariant SplitUpTo(g, trees, i, unowned, others, owned, order)
    {
      KeyText(g, ids, trees, i);
      var key := g[ids[i].value].shell;
      if key.kind == ScalarNode && key.tag == "!!str" && key.value in METADATA_KEYS {
        SplitOwned(g, ids, trees, i, unowned, others, owned, order);
        owned := owned[key.value := ids[i].value];
        order := order + [key.value];
      } else {
        SplitOther(g, ids, trees, i, unowned, others, owned, order);
        unowned := unowned + [ids[i], ids[i + 1]];
        others := others + [trees[i], trees[i + 1]];
      }
      i := i + 2;
    }
    SplitAll(g, trees, unowned, others, owned, order);
  }

  method CanonicalMetadataKey(g: Graph, id: NodeId, ghost tree: Tree) returns (canonical: bool)
    requires Represents(g, id, tree)
    ensures canonical <==> OwnedKey(tree) && Undecorated(tree)
  {
    var node := g[id];
    return node.shell.kind == ScalarNode && node.shell.tag == "!!str" && node.shell.value in METADATA_KEYS && Bare(node);
  }

  /** The two loops over the maps of owned keys, in arbitrary order. */
  method CompareOwnedKeys(g: Graph, base: map<string, NodeId>, proposed: map<string, NodeId>, ghost bs: seq<Tree>, ghost ps: seq<Tree>)
    returns (ok: bool)
    requires Closed(g) && OwnedUpTo(g, bs, |bs|, base) && OwnedUpTo(g, ps, |ps|, proposed)
    requires base.Keys == OwnedNames(bs) && proposed.Keys == OwnedNames(ps)
    ensures ok <==> KeysKept(bs, ps)
  {
    hide Represents, KeyIndex, OwnedNames;
    var todo := base.Keys;
    while todo != {}
      invariant todo <= base.Keys
      invariant forall name :: name in base && name !in todo && name in proposed ==> KeyNode(bs, name) == KeyNode(ps, name)
    {
      var name :| name in todo;
      if name in proposed {
        var same := SameNodes(g, base[name], proposed[name], KeyNode(bs, name).value, KeyNode(ps, name).value);
        if !same {
          return false;
        }
      }
      todo := todo - {name};
    }
    todo := proposed.Keys;
    while todo != {}
      invariant todo <= proposed.Keys
      invariant forall name :: name in proposed && name !in todo && name !in base ==> Undecorated(KeyNode(ps, name).value)
    {
      var name :| name in todo;
      if name !in base {
        var canonical := CanonicalMetadataKey(g, proposed[name], KeyNode(ps, name).value);
        if !canonical {
          return false;
        }
      }
      todo := todo - {name};
    }
    return true;
  }

  method RetainedIn(order: seq<string>, other: map<string, NodeId>) returns (retained: seq<string>)
    ensures retained == Retained(order, other.Keys)
  {
    retained := [];
    var i := 0;
    while i < |order|
      invariant i <= |order| && retained + Retained(order[i..], other.Keys) == Retained(order, other.Keys)
    {
      assert order[i..][0] == order[i] && order[i..][1..] == order[i + 1..];
      if order[i] in other {
        retained := retained + [order[i]];
      }
      i := i + 1;
    }
  }

  method SameRetainedMetadataOrder(baseOrder: seq<string>, proposedOrder: seq<string>, base: map<string, NodeId>, proposed: map<string, NodeId>)
    returns (same: bool)
    ensures same <==> Retained(baseOrder, proposed.Keys) == Retained(proposedOrder, base.Keys)
  {
    var baseRetained := RetainedIn(baseOrder, proposed);
    var proposedRetained := RetainedIn(proposedOrder, base);
    if |baseRetained| != |proposedRetained| {
      return false;
    }
    var i := 0;
    while i < |baseRetained|
      invariant i <= |baseRetained| && forall k :: 0 <= k < i ==> baseRetained[k] == proposedRetained[k]
    {
      if baseRetained[i] != proposedRetained[i] {
        return false;
      }
      i := i + 1;
    }
    return true;
  }

  method SameUnowned(g: Graph, base: seq<Option<NodeId>>, proposed: seq<Option<NodeId>>, ghost bs: seq<Tree>, ghost ps: seq<Tree>)
    returns (same: bool)
    requires Closed(g) && RepresentAll(g, base, bs) && RepresentAll(g, proposed, ps)
    ensures same <==> bs == ps
  {
    hide Represents, FineTree;
    if |base| != |proposed| {
      return false;
    }
    var i := 0;
    while i < |base|
      invariant i <= |base| && SameBefore(bs, ps, i)
    {
      same := SameNodes(g, base[i].value, proposed[i].value, bs[i], ps[i]);
      if !same {
        return false;
      }
      i := i + 1;
    }
    return true;
  }

  method CompareMetadataModel(g: Graph, base: NodeId, proposed: NodeId, ghost b: Tree, ghost p: Tree) returns (changed: Option<bool>)
    requires Both(g, base, proposed, b, p)
    ensures changed.Some? <==> MetadataModel(b, p)
    ensures changed.Some? ==> (changed.value <==> b != p)
  {
    var shell := SameNodeShell(g, base, proposed, b, p);
    if !shell || g[base].shell.kind != MappingNode {
      return None;
    }
    Children(g, base, b);
    Children(g, proposed, p);
    var baseName := ModelName(g, base, b);
    if baseName.None? {
      return None;
    }
    var proposedName := ModelName(g, proposed, p);
    if proposedName.None? || proposedName != baseName {
      return None;
    }
    var baseUnowned, baseOwned, baseOrder := SplitMetadataFields(g, g[base].content, b.content);
    var proposedUnowned, proposedOwned, proposedOrder := SplitMetadataFields(g, g[proposed].content, p.content);
    var same := SameUnowned(g, baseUnowned, proposedUnowned, Unowned(b.content), Unowned(p.content));
    if !same {
      return None;
    }
    same := CompareOwnedKeys(g, baseOwned, proposedOwned, b.content, p.content);
    if !same {
      return None;
    }
    same := SameRetainedMetadataOrder(baseOrder, proposedOrder, baseOwned, proposedOwned);
    if !same {
      return None;
    }
    same := SameNodes(g, base, proposed, b, p);
    return Some(!same);
  }

  method CompareEachModel(g: Graph, before: seq<Option<NodeId>>, after: seq<Option<NodeId>>, ghost bs: seq<Tree>, ghost ps: seq<Tree>)
    returns (changed: Option<bool>)
    requires Closed(g) && RepresentAll(g, before, bs) && RepresentAll(g, after, ps) && |bs| == |ps|
    ensures changed.Some? <==> forall k :: 0 <= k < |bs| ==> MetadataModel(bs[k], ps[k])
    ensures changed.Some? ==> (changed.value <==> bs != ps)
  {
    hide Represents, FineTree, MetadataModel;
    var ownedChanged := false;
    var i := 0;
    while i < |before|
      invariant i <= |before|
      invariant forall k :: 0 <= k < i ==> MetadataModel(bs[k], ps[k])
      invariant ownedChanged <==> !SameBefore(bs, ps, i)
    {
      var model := CompareMetadataModel(g, before[i].value, after[i].value, bs[i], ps[i]);
      if model.None? {
        return None;
      }
      ownedChanged := ownedChanged || model.value;
      i := i + 1;
    }
    return Some(ownedChanged);
  }

  method CompareMetadataModels(g: Graph, base: NodeId, proposed: NodeId, ghost b: Tree, ghost p: Tree) returns (changed: Option<bool>)
    requires Both(g, base, proposed, b, p)
    ensures changed.Some? <==> MetadataModels(b, p)
    ensures changed.Some? ==> (changed.value <==> b != p)
  {
    var shell := SameNodeShell(g, base, proposed, b, p);
    if !shell || g[base].shell.kind != SequenceNode || |g[base].content| != |g[proposed].content| {
      return None;
    }
    Children(g, base, b);
    Children(g, proposed, p);
    hide Represents, FineTree, MetadataModel;
    changed := CompareEachModel(g, g[base].content, g[proposed].content, b.content, p.content);
  }

  method CompareMetadataEntry(g: Graph, before: seq<Option<NodeId>>, after: seq<Option<NodeId>>, i: nat, ghost b: Tree, ghost p: Tree)
    returns (changed: Option<bool>)
    requires Closed(g) && RepresentAll(g, before, b.content) && RepresentAll(g, after, p.content)
    requires i + 1 < |b.content| && i + 1 < |p.content|
    ensures changed.Some? <==> MetadataEntry(b, p, i)
    ensures changed.Some? ==> (changed.value <==> b.content[i + 1] != p.content[i + 1])
  {
    hide Represents, FineTree, MetadataModels;
    var same := SameNodes(g, before[i].value, after[i].value, b.content[i], p.content[i]);
    if !same {
      return None;
    }
    KeyText(g, before, b.content, i);
    if g[before[i].value].shell.value != "models" {
      same := SameNodes(g, before[i + 1].value, after[i + 1].value, b.content[i + 1], p.content[i + 1]);
      return if same then Some(false) else None;
    }
    changed := CompareMetadataModels(g, before[i + 1].value, after[i + 1].value, b.content[i + 1], p.content[i + 1]);
  }

  lemma MetadataEntryKeeps(b: Tree, p: Tree, i: nat)
    requires MetadataEntries(b, p, i) && i + 1 < |b.content| && i % 2 == 0 && MetadataEntry(b, p, i)
    ensures MetadataEntries(b, p, i + 2)
    ensures SameBefore(b.content, p.content, i + 2) <==>
      SameBefore(b.content, p.content, i) && b.content[i + 1] == p.content[i + 1]
  {
    hide MetadataModels;
  }

  method CompareMetadataProvider(g: Graph, base: NodeId, proposed: NodeId, ghost b: Tree, ghost p: Tree) returns (changed: Option<bool>)
    requires Both(g, base, proposed, b, p)
    ensures changed.Some? <==> MetadataProvider(b, p)
    ensures changed.Some? ==> (changed.value <==> b != p)
  {
    var shell := SameNodeShell(g, base, proposed, b, p);
    var before, after := g[base].content, g[proposed].content;
    if !shell || g[base].shell.kind != MappingNode || |before| != |after| {
      return None;
    }
    Children(g, base, b);
    Children(g, proposed, p);
    hide Represents, FineTree, MetadataEntry;
    var ownedChanged := false;
    var i := 0;
    while i < |before|
      invariant i % 2 == 0 && i <= |before| && MetadataEntries(b, p, i)
      invariant ownedChanged <==> !SameBefore(b.content, p.content, i)
    {
      var entry := CompareMetadataEntry(g, before, after, i, b, p);
      if entry.None? {
        return None;
      }
      MetadataEntryKeeps(b, p, i);
      ownedChanged := ownedChanged || entry.value;
      i := i + 2;
    }
    assert b.content == p.content <==> SameBefore(b.content, p.content, i);
    return Some(ownedChanged);
  }

  method CompareMetadataProviders(g: Graph, base: NodeId, proposed: NodeId, ghost b: Tree, ghost p: Tree) returns (changed: Option<bool>)
    requires Both(g, base, proposed, b, p)
    ensures changed.Some? <==> MetadataProviders(b, p)
    ensures changed.Some? ==> (changed.value <==> b != p)
  {
    var shell := SameNodeShell(g, base, proposed, b, p);
    var before, after := g[base].content, g[proposed].content;
    if !shell || g[base].shell.kind != SequenceNode || |before| != |after| {
      return None;
    }
    Children(g, base, b);
    Children(g, proposed, p);
    hide Represents, FineTree, MetadataProvider;
    var ownedChanged := false;
    var i := 0;
    while i < |before|
      invariant i <= |before|
      invariant forall k :: 0 <= k < i ==> MetadataProvider(b.content[k], p.content[k])
      invariant ownedChanged <==> !SameBefore(b.content, p.content, i)
    {
      var provider := CompareMetadataProvider(g, before[i].value, after[i].value, b.content[i], p.content[i]);
      if provider.None? {
        return None;
      }
      ownedChanged := ownedChanged || provider.value;
      i := i + 1;
    }
    assert b.content == p.content <==> SameBefore(b.content, p.content, i);
    return Some(ownedChanged);
  }

  method CompareMetadataRootEntry(g: Graph, before: seq<Option<NodeId>>, after: seq<Option<NodeId>>, i: nat, ghost b: Tree, ghost p: Tree)
    returns (changed: Option<bool>)
    requires Closed(g) && RepresentAll(g, before, b.content) && RepresentAll(g, after, p.content)
    requires i + 1 < |b.content| && i + 1 < |p.content|
    ensures changed.Some? <==> MetadataRootEntry(b, p, i)
    ensures changed.Some? ==> (changed.value <==> b.content[i + 1] != p.content[i + 1])
  {
    hide Represents, FineTree, MetadataProviders;
    var same := SameNodes(g, before[i].value, after[i].value, b.content[i], p.content[i]);
    if !same {
      return None;
    }
    KeyText(g, before, b.content, i);
    var key := g[before[i].value].shell.value;
    if key != OPENAI && key != CLAUDE {
      same := SameNodes(g, before[i + 1].value, after[i + 1].value, b.content[i + 1], p.content[i + 1]);
      return if same then Some(false) else None;
    }
    changed := CompareMetadataProviders(g, before[i + 1].value, after[i + 1].value, b.content[i + 1], p.content[i + 1]);
  }

  lemma MetadataRootEntryKeeps(b: Tree, p: Tree, i: nat)
    requires MetadataRootEntries(b, p, i) && i + 1 < |b.content| && i % 2 == 0 && MetadataRootEntry(b, p, i)
    ensures MetadataRootEntries(b, p, i + 2)
    ensures SameBefore(b.content, p.content, i + 2) <==>
      SameBefore(b.content, p.content, i) && b.content[i + 1] == p.content[i + 1]
  {
    hide MetadataProviders;
  }

  method CompareMetadataRoot(g: Graph, base: NodeId, proposed: NodeId, ghost b: Tree, ghost p: Tree) returns (changed: Option<bool>)
    requires Both(g, base, proposed, b, p) && b.shell.kind == MappingNode
    ensures changed.Some? <==> MetadataRoot(b, p)
    ensures changed.Some? ==> (changed.value <==> b != p)
  {
    var shell := SameNodeShell(g, base, proposed, b, p);
    var before, after := g[base].content, g[proposed].content;
    if !shell || |before| != |after| {
      return None;
    }
    Children(g, base, b);
    Children(g, proposed, p);
    hide Represents, FineTree, MetadataRootEntry;
    var ownedChanged := false;
    var i := 0;
    while i < |before|
      invariant i % 2 == 0 && i <= |before| && MetadataRootEntries(b, p, i)
      invariant ownedChanged <==> !SameBefore(b.content, p.content, i)
    {
      var entry := CompareMetadataRootEntry(g, before, after, i, b, p);
      if entry.None? {
        return None;
      }
      MetadataRootEntryKeeps(b, p, i);
      ownedChanged := ownedChanged || entry.value;
      i := i + 2;
    }
    assert b.content == p.content <==> SameBefore(b.content, p.content, i);
    return Some(ownedChanged);
  }
}
