/** What it means to pass the ownership check, without the walk: two configurations are the same once the
    owned parts are blanked out, and each owned part obeys its own rule. */
module OwnershipMeaning {
  import opened Options
  import opened YamlGraph
  import opened YamlTree
  import opened Ownership
  import opened MetadataOwnership

  // ---------- blanking out ----------

  /** The value of the entry that starts at i - 1, with the content of an owned sequence taken out. */
  function Blanked(content: seq<Tree>, i: nat, owned: Tree -> bool, blank: Tree -> Tree): Tree
    requires i < |content|
  {
    if i % 2 == 1 && owned(content[i - 1]) then blank(content[i]) else content[i]
  }

  function BlankEntries(tree: Tree, owned: Tree -> bool, blank: Tree -> Tree): (r: Tree)
    ensures r.shell == tree.shell && r.alias == tree.alias && |r.content| == |tree.content|
    ensures forall i :: 0 <= i < |tree.content| ==> r.content[i] == Blanked(tree.content, i, owned, blank)
  {
    tree.(content := seq(|tree.content|, i requires 0 <= i < |tree.content| => Blanked(tree.content, i, owned, blank)))
  }

  function BlankEach(tree: Tree, blank: Tree -> Tree): (r: Tree)
    ensures r.shell == tree.shell && r.alias == tree.alias && |r.content| == |tree.content|
    ensures forall i :: 0 <= i < |tree.content| ==> r.content[i] == blank(tree.content[i])
  {
    tree.(content := seq(|tree.content|, i requires 0 <= i < |tree.content| => blank(tree.content[i])))
  }

  predicate IsModelsKey(key: Tree) {
    key.shell.value == "models"
  }

  predicate IsOpenAiKey(key: Tree) {
    key.shell.value == OPENAI
  }

  predicate IsProviderKey(key: Tree) {
    key.shell.value == OPENAI || key.shell.value == CLAUDE
  }

  function Emptied(models: Tree): Tree {
    models.(content := [])
  }

  function WithoutModels(provider: Tree): Tree {
    BlankEntries(provider, IsModelsKey, Emptied)
  }

  function ProvidersWithoutModels(providers: Tree): Tree {
    BlankEach(providers, WithoutModels)
  }

  /** The configuration with every provider's model list emptied. */
  function OutsideModels(root: Tree): Tree {
    BlankEntries(root, IsOpenAiKey, ProvidersWithoutModels)
  }

  lemma BlankedKey(b: Tree, p: Tree, owned: Tree -> bool, blank: Tree -> Tree, i: nat)
    requires BlankEntries(b, owned, blank) == BlankEntries(p, owned, blank) && i + 1 < |b.content| && i % 2 == 0
    ensures |b.content| == |p.content| && b.content[i] == p.content[i]
    ensures if owned(b.content[i]) then blank(b.content[i + 1]) == blank(p.content[i + 1]) else b.content[i + 1] == p.content[i + 1]
  {
    var one, two := BlankEntries(b, owned, blank), BlankEntries(p, owned, blank);
    assert |one.content| == |two.content| && one.content[i] == two.content[i] && one.content[i + 1] == two.content[i + 1];
  }

  lemma BlankedSame(b: Tree, p: Tree, owned: Tree -> bool, blank: Tree -> Tree)
    requires SameShell(b, p) && |b.content| == |p.content| && |b.content| % 2 == 0
    requires forall i :: 0 <= i < |b.content| - 1 && i % 2 == 0 ==>
      && b.content[i] == p.content[i]
      && (if owned(b.content[i]) then blank(b.content[i + 1]) == blank(p.content[i + 1]) else b.content[i + 1] == p.content[i + 1])
    ensures BlankEntries(b, owned, blank) == BlankEntries(p, owned, blank)
  {
    var one, two := BlankEntries(b, owned, blank), BlankEntries(p, owned, blank);
    forall i | 0 <= i < |b.content| ensures one.content[i] == two.content[i] {
      assert b.content[i - i % 2] == p.content[i - i % 2];
    }
    assert one.content == two.content;
  }

  lemma EachSame(b: Tree, p: Tree, blank: Tree -> Tree)
    ensures BlankEach(b, blank) == BlankEach(p, blank) <==>
      SameShell(b, p) && |b.content| == |p.content| && forall i :: 0 <= i < |b.content| ==> blank(b.content[i]) == blank(p.content[i])
  {
    var one, two := BlankEach(b, blank), BlankEach(p, blank);
    if one == two {
      assert |one.content| == |two.content|;
      forall i | 0 <= i < |b.content| ensures blank(b.content[i]) == blank(p.content[i]) {
        assert one.content[i] == two.content[i];
      }
    }
    if SameShell(b, p) && |b.content| == |p.content| && forall i :: 0 <= i < |b.content| ==> blank(b.content[i]) == blank(p.content[i]) {
      assert one.content == two.content;
    }
  }

  // ---------- membership ----------

  /** Sequences of uniquely named models, where a proposed one is either a base model or new and minimal. */
  ghost predicate ModelsAllowed(base: Tree, proposed: Tree) {
    && base.shell.kind == SequenceNode && Named(base.content) && Named(proposed.content)
    && (forall j :: 0 <= j < |proposed.content| ==> AllowedModel(base.content, proposed.content[j]))
  }

  ghost predicate ProviderAllowed(base: Tree, proposed: Tree) {
    && base.shell.kind == MappingNode && |base.content| == |proposed.content|
    && (forall i :: 0 <= i < |base.content| - 1 && i % 2 == 0 && IsModelsKey(base.content[i]) ==>
         ModelsAllowed(base.content[i + 1], proposed.content[i + 1]))
  }

  ghost predicate ProvidersAllowed(base: Tree, proposed: Tree) {
    && base.shell.kind == SequenceNode && |base.content| == |proposed.content|
    && (forall i :: 0 <= i < |base.content| ==> ProviderAllowed(base.content[i], proposed.content[i]))
  }

  ghost predicate RootAllowed(base: Tree, proposed: Tree) {
    && |base.content| == |proposed.content|
    && (forall i :: 0 <= i < |base.content| - 1 && i % 2 == 0 && IsOpenAiKey(base.content[i]) ==>
         ProvidersAllowed(base.content[i + 1], proposed.content[i + 1]))
  }

  lemma ModelsMeaning(b: Tree, p: Tree)
    ensures MembershipModels(b, p) <==> Emptied(b) == Emptied(p) && ModelsAllowed(b, p)
  {
  }

  lemma ProviderMeaning(b: Tree, p: Tree)
    requires FineTree(b)
    ensures MembershipProvider(b, p) <==> WithoutModels(b) == WithoutModels(p) && ProviderAllowed(b, p)
  {
    hide FineTree, MembershipModels, ModelsAllowed, Emptied;
    if MembershipProvider(b, p) {
      forall i | 0 <= i < |b.content| - 1 && i % 2 == 0
        ensures b.content[i] == p.content[i]
        ensures if IsModelsKey(b.content[i]) then Emptied(b.content[i + 1]) == Emptied(p.content[i + 1]) && ModelsAllowed(b.content[i + 1], p.content[i + 1])
          else b.content[i + 1] == p.content[i + 1]
      {
        assert MembershipEntry(b, p, i);
        ModelsMeaning(b.content[i + 1], p.content[i + 1]);
      }
      FineMappingEven(b);
      BlankedSame(b, p, IsModelsKey, Emptied);
    }
    if WithoutModels(b) == WithoutModels(p) && ProviderAllowed(b, p) {
      assert SameShell(b, p);
      forall i | 0 <= i < |b.content| - 1 && i % 2 == 0 ensures MembershipEntry(b, p, i) {
        BlankedKey(b, p, IsModelsKey, Emptied, i);
        ModelsMeaning(b.content[i + 1], p.content[i + 1]);
      }
    }
  }

  lemma FineMappingEven(b: Tree)
    requires FineTree(b) && b.shell.kind == MappingNode
    ensures |b.content| % 2 == 0
  {
  }

  lemma ProvidersMeaning(b: Tree, p: Tree)
    requires FineTree(b)
    ensures MembershipProviders(b, p) <==> ProvidersWithoutModels(b) == ProvidersWithoutModels(p) && ProvidersAllowed(b, p)
  {
    EachSame(b, p, WithoutModels);
    if |b.content| == |p.content| {
      forall i | 0 <= i < |b.content|
        ensures MembershipProvider(b.content[i], p.content[i]) <==>
          WithoutModels(b.content[i]) == WithoutModels(p.content[i]) && ProviderAllowed(b.content[i], p.content[i])
      {
        ProviderMeaning(b.content[i], p.content[i]);
      }
    }
    hide FineTree, MembershipProvider, WithoutModels, ProviderAllowed;
  }

  /** A membership change is accepted exactly when the configurations are the same but for the models of
      the providers, and there every model is kept as it was or new with nothing but a name. */
  lemma MembershipMeaning(b: Tree, p: Tree)
    requires FineTree(b) && b.shell.kind == MappingNode
    ensures MembershipRoot(b, p) <==> OutsideModels(b) == OutsideModels(p) && RootAllowed(b, p)
  {
    FineMappingEven(b);
    forall i | 0 <= i < |b.content| ensures FineTree(b.content[i]) {
    }
    hide FineTree, MembershipProviders, ProvidersWithoutModels, ProvidersAllowed;
    if MembershipRoot(b, p) {
      forall i | 0 <= i < |b.content| - 1 && i % 2 == 0
        ensures b.content[i] == p.content[i]
        ensures if IsOpenAiKey(b.content[i])
          then ProvidersWithoutModels(b.content[i + 1]) == ProvidersWithoutModels(p.content[i + 1]) && ProvidersAllowed(b.content[i + 1], p.content[i + 1])
          else b.content[i + 1] == p.content[i + 1]
      {
        assert MembershipRootEntry(b, p, i);
        ProvidersMeaning(b.content[i + 1], p.content[i + 1]);
      }
      BlankedSame(b, p, IsOpenAiKey, ProvidersWithoutModels);
    }
    if OutsideModels(b) == OutsideModels(p) && RootAllowed(b, p) {
      forall i | 0 <= i < |b.content| - 1 && i % 2 == 0 ensures MembershipRootEntry(b, p, i) {
        BlankedKey(b, p, IsOpenAiKey, ProvidersWithoutModels, i);
        ProvidersMeaning(b.content[i + 1], p.content[i + 1]);
      }
    }
  }

  // ---------- metadata ----------

  /** A model without its owned entries. */
  function Erased(model: Tree): Tree {
    model.(content := Unowned(model.content))
  }

  function ErasedModels(models: Tree): Tree {
    BlankEach(models, Erased)
  }

  function WithoutMetadata(provider: Tree): Tree {
    BlankEntries(provider, IsModelsKey, ErasedModels)
  }

  function ProvidersWithoutMetadata(providers: Tree): Tree {
    BlankEach(providers, WithoutMetadata)
  }

  /** The configuration with the six owned keys erased from every model of every provider. */
  function OutsideMetadata(root: Tree): Tree {
    BlankEntries(root, IsProviderKey, ProvidersWithoutMetadata)
  }

  /** A named model keeps its name, the nodes of the owned keys it keeps and their order; added keys are undecorated. */
  ghost predicate ModelAllowed(base: Tree, proposed: Tree) {
    && base.shell.kind == MappingNode && NameOf(base).Some? && NameOf(proposed) == NameOf(base)
    && KeysKept(base.content, proposed.content)
    && Retained(Order(base.content), OwnedNames(proposed.content)) == Retained(Order(proposed.content), OwnedNames(base.content))
  }

  ghost predicate MetadataAllowed(base: Tree, proposed: Tree) {
    && base.shell.kind == SequenceNode && |base.content| == |proposed.content|
    && (forall i :: 0 <= i < |base.content| ==> ModelAllowed(base.content[i], proposed.content[i]))
  }

  ghost predicate ProviderMetadataAllowed(base: Tree, proposed: Tree) {
    && base.shell.kind == MappingNode && |base.content| == |proposed.content|
    && (forall i :: 0 <= i < |base.content| - 1 && i % 2 == 0 && IsModelsKey(base.content[i]) ==>
         MetadataAllowed(base.content[i + 1], proposed.content[i + 1]))
  }

  ghost predicate ProvidersMetadataAllowed(base: Tree, proposed: Tree) {
    && base.shell.kind == SequenceNode && |base.content| == |proposed.content|
    && (forall i :: 0 <= i < |base.content| ==> ProviderMetadataAllowed(base.content[i], proposed.content[i]))
  }

  ghost predicate RootMetadataAllowed(base: Tree, proposed: Tree) {
    && |base.content| == |proposed.content|
    && (forall i :: 0 <= i < |base.content| - 1 && i % 2 == 0 && IsProviderKey(base.content[i]) ==>
         ProvidersMetadataAllowed(base.content[i + 1], proposed.content[i + 1]))
  }

  lemma MetadataModelsMeaning(b: Tree, p: Tree)
    ensures MetadataModels(b, p) <==> ErasedModels(b) == ErasedModels(p) && MetadataAllowed(b, p)
  {
    EachSame(b, p, Erased);
    if |b.content| == |p.content| {
      forall i | 0 <= i < |b.content|
        ensures MetadataModel(b.content[i], p.content[i]) <==>
          Erased(b.content[i]) == Erased(p.content[i]) && ModelAllowed(b.content[i], p.content[i])
      {
        ModelMeaning(b.content[i], p.content[i]);
      }
    }
    hide MetadataModel, Erased, ModelAllowed;
  }

  lemma ModelMeaning(b: Tree, p: Tree)
    ensures MetadataModel(b, p) <==> Erased(b) == Erased(p) && ModelAllowed(b, p)
  {
    hide Unowned, KeysKept, Order, OwnedNames, Retained, NameOf;
  }

  lemma MetadataProviderMeaning(b: Tree, p: Tree)
    requires FineTree(b)
    ensures MetadataProvider(b, p) <==> WithoutMetadata(b) == WithoutMetadata(p) && ProviderMetadataAllowed(b, p)
  {
    hide FineTree, MetadataModels, MetadataAllowed, ErasedModels;
    if MetadataProvider(b, p) {
      forall i | 0 <= i < |b.content| - 1 && i % 2 == 0
        ensures b.content[i] == p.content[i]
        ensures if IsModelsKey(b.content[i]) then ErasedModels(b.content[i + 1]) == ErasedModels(p.content[i + 1]) && MetadataAllowed(b.content[i + 1], p.content[i + 1])
          else b.content[i + 1] == p.content[i + 1]
      {
        assert MetadataEntry(b, p, i);
        MetadataModelsMeaning(b.content[i + 1], p.content[i + 1]);
      }
      FineMappingEven(b);
      BlankedSame(b, p, IsModelsKey, ErasedModels);
    }
    if WithoutMetadata(b) == WithoutMetadata(p) && ProviderMetadataAllowed(b, p) {
      assert SameShell(b, p);
      forall i | 0 <= i < |b.content| - 1 && i % 2 == 0 ensures MetadataEntry(b, p, i) {
        BlankedKey(b, p, IsModelsKey, ErasedModels, i);
        MetadataModelsMeaning(b.content[i + 1], p.content[i + 1]);
      }
    }
  }

  lemma MetadataProvidersMeaning(b: Tree, p: Tree)
    requires FineTree(b)
    ensures MetadataProviders(b, p) <==> ProvidersWithoutMetadata(b) == ProvidersWithoutMetadata(p) && ProvidersMetadataAllowed(b, p)
  {
    EachSame(b, p, WithoutMetadata);
    if |b.content| == |p.content| {
      forall i | 0 <= i < |b.content|
        ensures MetadataProvider(b.content[i], p.content[i]) <==>
          WithoutMetadata(b.content[i]) == WithoutMetadata(p.content[i]) && ProviderMetadataAllowed(b.content[i], p.content[i])
      {
        MetadataProviderMeaning(b.content[i], p.content[i]);
      }
    }
    hide FineTree, MetadataProvider, WithoutMetadata, ProviderMetadataAllowed;
  }

  /** A metadata change is accepted exactly when erasing the six owned keys everywhere leaves the same
      configuration, and every model keeps its name, its owned key nodes and their order. */
  lemma MetadataMeaning(b: Tree, p: Tree)
    requires FineTree(b) && b.shell.kind == MappingNode
    ensures MetadataRoot(b, p) <==> OutsideMetadata(b) == OutsideMetadata(p) && RootMetadataAllowed(b, p)
  {
    FineMappingEven(b);
    forall i | 0 <= i < |b.content| ensures FineTree(b.content[i]) {
    }
    hide FineTree, MetadataProviders, ProvidersWithoutMetadata, ProvidersMetadataAllowed;
    if MetadataRoot(b, p) {
      forall i | 0 <= i < |b.content| - 1 && i % 2 == 0
        ensures b.content[i] == p.content[i]
        ensures if IsProviderKey(b.content[i])
          then ProvidersWithoutMetadata(b.content[i + 1]) == ProvidersWithoutMetadata(p.content[i + 1]) && ProvidersMetadataAllowed(b.content[i + 1], p.content[i + 1])
          else b.content[i + 1] == p.content[i + 1]
      {
        assert MetadataRootEntry(b, p, i);
        MetadataProvidersMeaning(b.content[i + 1], p.content[i + 1]);
      }
      BlankedSame(b, p, IsProviderKey, ProvidersWithoutMetadata);
    }
    if OutsideMetadata(b) == OutsideMetadata(p) && RootMetadataAllowed(b, p) {
      forall i | 0 <= i < |b.content| - 1 && i % 2 == 0 ensures MetadataRootEntry(b, p, i) {
        BlankedKey(b, p, IsProviderKey, ProvidersWithoutMetadata, i);
        MetadataProvidersMeaning(b.content[i + 1], p.content[i + 1]);
      }
    }
  }
}
