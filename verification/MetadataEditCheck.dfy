/** Exactly which edits of a model the ownership check allows. */
module MetadataEditCheck {
  import opened Options
  import opened YamlGraph
  import opened YamlTree
  import opened YamlChannels
  import opened Ownership
  import opened MetadataOwnership
  import opened MetadataEdit

  /** Entries relate to a base like this when owned keys were only added at the end or given new values. */
  ghost predicate Kept(b: seq<Tree>, p: seq<Tree>) {
    && Unowned(p) == Unowned(b)
    && (forall name :: name in METADATA_KEYS && KeyNode(b, name).Some? ==> KeyNode(p, name) == KeyNode(b, name))
    && (forall name :: name in METADATA_KEYS && KeyNode(b, name).None? && KeyNode(p, name).Some? ==> Undecorated(KeyNode(p, name).value))
    && Retained(Order(p), OwnedNames(b)) == Order(b)
  }

  lemma {:induction false} OrderIsOwned(content: seq<Tree>, whole: seq<Tree>, start: nat)
    requires FineEntries(whole) && start <= |whole| && start % 2 == 0 && content == whole[start..]
    ensures forall name :: name in Order(content) ==> name in OwnedNames(whole)
    decreases |content|
  {
    if |content| >= 2 {
      OrderIsOwned(content[2..], whole, start + 2);
      if OwnedKey(content[0]) {
        KeyIndexUnique(whole, content[0].shell.value, start);
      }
    }
  }

  lemma {:induction false} RetainAll(order: seq<string>, names: set<string>)
    requires forall name :: name in order ==> name in names
    ensures Retained(order, names) == order
  {
    if order != [] {
      RetainAll(order[1..], names);
    }
  }

  lemma KeptSelf(b: seq<Tree>)
    requires FineEntries(b)
    ensures Kept(b, b)
  {
    assert b == b[0..];
    OrderIsOwned(b, b, 0);
    RetainAll(Order(b), OwnedNames(b));
  }

  lemma KeptAllowed(b: Tree, p: Tree)
    requires FineEntries(b.content) && Kept(b.content, p.content)
    requires SameShell(b, p) && b.shell.kind == MappingNode && NameOf(b).Some? && NameOf(p) == NameOf(b)
    ensures MetadataModel(b, p)
  {
    hide KeyIndex, Unowned, Undecorated, Retained, Order, NameOf;
    assert b.content == b.content[0..];
    OrderIsOwned(b.content, b.content, 0);
    forall name | name in OwnedNames(b.content) ensures name in OwnedNames(p.content) {
      assert KeyNode(p.content, name) == KeyNode(b.content, name);
    }
    RetainAll(Order(b.content), OwnedNames(p.content));
  }

  lemma {:induction false} OwnedValueIrrelevant(content: seq<Tree>, i: nat, value: Tree)
    requires i < |content| && i % 2 == 1 && OwnedKey(content[i - 1])
    ensures Unowned(content[i := value]) == Unowned(content) && Order(content[i := value]) == Order(content)
    decreases |content|
  {
    var next := content[i := value];
    if i == 1 {
      assert next[2..] == content[2..];
    } else {
      assert next[2..] == content[2..][i - 2 := value];
      OwnedValueIrrelevant(content[2..], i - 2, value);
    }
  }

  lemma {:induction false} OwnedKeyAppended(content: seq<Tree>, key: Tree, value: Tree)
    requires |content| % 2 == 0 && OwnedKey(key)
    ensures Unowned(content + [key, value]) == Unowned(content)
    ensures Order(content + [key, value]) == Order(content) + [key.shell.value]
    decreases |content|
  {
    if content == [] {
      assert content + [key, value] == [key, value] && [key, value][2..] == [];
    } else {
      assert (content + [key, value])[2..] == content[2..] + [key, value];
      OwnedKeyAppended(content[2..], key, value);
    }
  }

  lemma {:induction false} RetainedAppend(order: seq<string>, name: string, names: set<string>)
    requires name !in names
    ensures Retained(order + [name], names) == Retained(order, names)
  {
    if order == [] {
      assert order + [name] == [name];
    } else {
      assert (order + [name])[1..] == order[1..] + [name];
      RetainedAppend(order[1..], name, names);
    }
  }

  lemma KeyNodeSet(content: seq<Tree>, i: nat, value: Tree, name: string)
    requires i < |content| && i % 2 == 1
    ensures KeyNode(content[i := value], name) == KeyNode(content, name)
  {
    KeyIndexIgnoresValues(content, i, value, name);
  }

  lemma KeyNodeAppend(content: seq<Tree>, name: string, value: Tree, other: string)
    requires |content| % 2 == 0 && name in METADATA_KEYS && KeyIndex(content, name) == |content|
    ensures KeyNode(content + [Scalar(name), value], other) == if other == name then Some(Scalar(name)) else KeyNode(content, other)
  {
    KeyIndexAppend(content, Scalar(name), value, other);
    hide KeyIndex;
  }

  lemma KeptSet(b: seq<Tree>, p: seq<Tree>, i: nat, value: Tree)
    requires Kept(b, p) && i < |p| && i % 2 == 1 && OwnedKey(p[i - 1])
    ensures Kept(b, p[i := value])
  {
    OwnedValueIrrelevant(p, i, value);
    hide KeyNode, Unowned, Order, Retained, OwnedKey;
    forall name {
      KeyNodeSet(p, i, value, name);
    }
  }

  lemma KeptAppend(b: seq<Tree>, p: seq<Tree>, name: string, value: Tree)
    requires Kept(b, p) && FineEntries(p) && name in METADATA_KEYS && KeyIndex(p, name) == |p|
    ensures Kept(b, p + [Scalar(name), value])
  {
    assert KeyNode(p, name).None?;
    assert name !in OwnedNames(b);
    OwnedKeyAppended(p, Scalar(name), value);
    RetainedAppend(Order(p), name, OwnedNames(b));
    var longer := p + [Scalar(name), value];
    forall other
      ensures KeyNode(longer, other) == if other == name then Some(Scalar(name)) else KeyNode(p, other)
    {
      KeyNodeAppend(p, name, value, other);
    }
    assert OwnedKey(Scalar(name)) && Undecorated(Scalar(name));
    hide KeyNode, KeyIndex, FineEntries, Unowned, Order, Retained, OwnedKey, OwnedNames, Undecorated, Scalar;
    KeptWith(b, p, longer, name);
  }

  lemma KeptWith(b: seq<Tree>, p: seq<Tree>, longer: seq<Tree>, name: string)
    requires Kept(b, p) && name in METADATA_KEYS && KeyNode(p, name).None? && Undecorated(Scalar(name))
    requires forall other :: KeyNode(longer, other) == if other == name then Some(Scalar(name)) else KeyNode(p, other)
    requires Unowned(longer) == Unowned(p) && Retained(Order(longer), OwnedNames(b)) == Retained(Order(p), OwnedNames(b))
    ensures Kept(b, longer)
  {
    hide KeyNode, Unowned, Order, Retained, OwnedNames, Undecorated, Scalar;
  }

  /** If the key is there, it is tagged as a plain string, as the check expects of an owned key. */
  predicate PlainKey(content: seq<Tree>, key: string) {
    KeyAt(content, key).None? || OwnedKey(KeyAt(content, key).value)
  }

  lemma KeptPut(b: seq<Tree>, model: Tree, name: string, value: Tree)
    requires Kept(b, model.content) && model.shell.kind == MappingNode && FineEntries(model.content)
    requires name in METADATA_KEYS && PlainKey(model.content, name)
    ensures Kept(b, Put(model, name, value).content)
  {
    hide Kept, Essence;
    match ValueOf(model, name)
    case None => KeptAppend(b, model.content, name, value);
    case Some(current) =>
      var i := KeyIndex(model.content, name);
      KeptSet(b, model.content, i + 1, PreservePresentation(value, current));
  }

  lemma KeptEdit(b: seq<Tree>, model: Tree, field: Field, value: FieldValue)
    requires Kept(b, model.content) && model.shell.kind == MappingNode && FineEntries(model.content)
    requires PlainKey(model.content, FieldKey(field)) && EditField(model, field, value).Some?
    ensures Kept(b, EditField(model, field, value).value.content)
  {
    hide Kept, Put;
    var node := MetadataValueNode(field, value).value;
    if field == ThinkingLevels && ValueOf(model, "thinking").Some? {
      var i := KeyIndex(model.content, "thinking");
      KeptSet(b, model.content, i + 1, Put(ValueOf(model, "thinking").value, "levels", node.content[1]));
    } else {
      KeptPut(b, model, FieldKey(field), node);
    }
  }

  // ---------- which edits the ownership check allows ----------

  /** The edit would leave the model alone, or its key is one the check takes for owned. */
  predicate FieldAllowed(model: Tree, field: Field, value: FieldValue) {
    PlainKey(model.content, FieldKey(field)) || EditField(model, field, value) == Some(model)
  }

  predicate PatchAllowed(model: Tree, patch: Patch) {
    forall field :: field in patch ==> FieldAllowed(model, field, patch[field])
  }

  /** Whether an edit changes anything depends only on what is under its key. */
  lemma UnchangedUnder(one: Tree, two: Tree, field: Field, value: FieldValue)
    requires SameUnder(one, two, FieldKey(field)) && EditField(one, field, value) == Some(one)
    requires one.shell.kind == MappingNode && FineEntries(one.content)
    ensures EditField(two, field, value) == Some(two)
  {
    hide KeyIndex, Essence;
    var node := MetadataValueNode(field, value).value;
    if field == ThinkingLevels && ValueOf(one, "thinking").Some? {
      LevelsNode(value);
      var current := ValueOf(one, "thinking").value;
      SetValueReads(one, "thinking", Put(current, "levels", node.content[1]), "thinking");
      SetSameValue(two, "thinking");
    } else if ValueOf(one, FieldKey(field)).Some? {
      var current := ValueOf(one, FieldKey(field)).value;
      SetValueReads(one, FieldKey(field), PreservePresentation(node, current), FieldKey(field));
      PreservedEssence(node, current);
    }
  }

  lemma {:induction false} EditModelKept(model: Tree, patch: Patch, n: nat)
    requires Editable(model) && PatchAllowed(model, patch) && n <= |FIELDS| && EditModel(model, patch, n).Some?
    ensures Kept(model.content, EditModel(model, patch, n).value.content)
  {
    hide KeyIndex, EditField, Clean, Kept, PlainKey, ValueOf, KeyAt;
    CleanEntries(model);
    if n == 0 {
      KeptSelf(model.content);
    } else {
      EditModelKept(model, patch, n - 1);
      EditModelKeeps(model, patch, n - 1);
      var before := EditModel(model, patch, n - 1).value;
      var field := FIELDS[n - 1];
      if field in patch {
        assert FieldAllowed(model, field, patch[field]);
        CleanEntries(before);
        PlainUnder(model, before, FieldKey(field));
        if PlainKey(model.content, FieldKey(field)) {
          KeptEdit(model.content, before, field, patch[field]);
        } else {
          UnchangedUnder(model, before, field, patch[field]);
        }
      }
    }
  }

  lemma PlainUnder(one: Tree, two: Tree, key: string)
    requires SameUnder(one, two, key) || SameUnder(two, one, key)
    ensures PlainKey(one.content, key) <==> PlainKey(two.content, key)
  {
    hide KeyAt;
  }

  /** The value under a key of a list of entries. */
  function EntryValue(content: seq<Tree>, key: string): Option<Tree> {
    var i := KeyIndex(content, key);
    if i + 1 < |content| then Some(content[i + 1]) else None
  }

  /** Erasing the owned entries does not hide what is under any other key. */
  lemma {:induction false} UnownedFinds(content: seq<Tree>, key: string)
    requires |content| % 2 == 0 && KeyAt(content, key).Some? && !OwnedKey(KeyAt(content, key).value)
    ensures EntryValue(Unowned(content), key) == EntryValue(content, key)
    decreases |content|
  {
    if content[0].shell.value == key {
      assert Unowned(content)[0] == content[0] && Unowned(content)[1] == content[1];
    } else {
      assert KeyAt(content[2..], key) == KeyAt(content, key) && EntryValue(content[2..], key) == EntryValue(content, key);
      UnownedFinds(content[2..], key);
      if !OwnedKey(content[0]) {
        assert Unowned(content)[2..] == Unowned(content[2..]);
      }
    }
  }

  /** Fields n to m leave what is under the other keys. */
  lemma {:induction false} LaterFields(model: Tree, patch: Patch, n: nat, m: nat, k: nat)
    requires Editable(model) && n <= m <= |FIELDS| && EditModel(model, patch, m).Some? && k < n
    ensures EditModel(model, patch, n).Some?
    ensures SameUnder(EditModel(model, patch, m).value, EditModel(model, patch, n).value, FieldKey(FIELDS[k]))
    decreases m
  {
    hide KeyIndex, EditField, Clean, ValueOf, KeyAt;
    if n < m {
      LaterFields(model, patch, n, m - 1, k);
      EditModelKeeps(model, patch, m - 1);
      var before := EditModel(model, patch, m - 1).value;
      if FIELDS[m - 1] in patch {
        CleanEntries(before);
        FieldKeysDiffer(FIELDS[k], FIELDS[m - 1]);
        EditFieldReads(before, FIELDS[m - 1], patch[FIELDS[m - 1]], FieldKey(FIELDS[k]));
      }
    }
  }

  /** A field that has to change reads differently in the end, under the same key node. */
  lemma FieldMoves(model: Tree, patch: Patch, n: nat)
    requires Editable(model) && EditModel(model, patch, |FIELDS|).Some? && n < |FIELDS|
    requires FIELDS[n] in patch && !FieldAllowed(model, FIELDS[n], patch[FIELDS[n]])
    ensures ValueOf(EditModel(model, patch, |FIELDS|).value, FieldKey(FIELDS[n])) != ValueOf(model, FieldKey(FIELDS[n]))
    ensures KeyAt(EditModel(model, patch, |FIELDS|).value.content, FieldKey(FIELDS[n])) == KeyAt(model.content, FieldKey(FIELDS[n]))
  {
    LaterFields(model, patch, n + 1, |FIELDS|, n);
    EditModelKeeps(model, patch, n);
    var before := EditModel(model, patch, n).value;
    CleanEntries(model);
    CleanEntries(before);
    hide Clean, Essence, KeyIndex, EditField, ValueOf, KeyAt;
    var field := FIELDS[n];
    assert EditModel(model, patch, n + 1) == EditField(before, field, patch[field]);
    if EditModel(model, patch, n + 1).value == before {
      UnchangedUnder(before, model, field, patch[field]);
    }
    EditDiffers(before, field, patch[field]);
    SameKeyAfterEdit(before, field, patch[field]);
  }

  /** An edit under a key that is there but not plainly tagged shows when the owned entries are erased. */
  lemma ChangeShows(model: Tree, patch: Patch, field: Field)
    requires Editable(model) && EditModel(model, patch, |FIELDS|).Some?
    requires field in patch && !FieldAllowed(model, field, patch[field])
    ensures Unowned(EditModel(model, patch, |FIELDS|).value.content) != Unowned(model.content)
  {
    var n := FieldHasPlace(field);
    FieldMoves(model, patch, n);
    EditModelKeeps(model, patch, |FIELDS|);
    hide KeyIndex, EditModel, EditField, Unowned;
    var final := EditModel(model, patch, |FIELDS|).value;
    CleanEntries(model);
    CleanEntries(final);
    UnownedFinds(model.content, FieldKey(field));
    UnownedFinds(final.content, FieldKey(field));
  }

  lemma SameKeyAfterEdit(model: Tree, field: Field, value: FieldValue)
    requires model.shell.kind == MappingNode && FineEntries(model.content) && EditField(model, field, value).Some?
    requires KeyAt(model.content, FieldKey(field)).Some?
    ensures KeyAt(EditField(model, field, value).value.content, FieldKey(field)) == KeyAt(model.content, FieldKey(field))
  {
    hide Essence;
    var key, node := FieldKey(field), MetadataValueNode(field, value).value;
    var i := KeyIndex(model.content, key) + 1;
    hide KeyIndex;
    var current := model.content[i];
    KeyIndexIgnoresValues(model.content, i, PreservePresentation(node, current), key);
    if field == ThinkingLevels {
      LevelsNode(value);
      KeyIndexIgnoresValues(model.content, i, Put(current, "levels", node.content[1]), key);
    }
  }

  /** The ownership check allows the planner's edit of a named model exactly when every field that has to
      change is new or has its key plainly tagged. */
  lemma EditAllowedExactly(model: Tree, patch: Patch)
    requires Editable(model) && NameOf(model).Some? && EditModel(model, patch, |FIELDS|).Some?
    ensures MetadataModel(model, EditModel(model, patch, |FIELDS|).value) <==> PatchAllowed(model, patch)
  {
    hide KeyIndex, EditModel, EditField, Kept, KeysKept, Unowned, Order, Retained, OwnedNames, FieldAllowed;
    var next := EditModel(model, patch, |FIELDS|).value;
    CleanEntries(model);
    EditModelKeeps(model, patch, |FIELDS|);
    if PatchAllowed(model, patch) {
      EditModelKept(model, patch, |FIELDS|);
      KeptAllowed(model, next);
    } else {
      var field :| field in patch && !FieldAllowed(model, field, patch[field]);
      ChangeShows(model, patch, field);
    }
  }

  /** A key tagged as something else than a string is out of bounds: the planner would change its value,
      the check calls that a change of an unowned field. */
  lemma TaggedKeyRefused()
    ensures var odd := Scalar("max-input-tokens").(shell := Scalar("max-input-tokens").shell.(tag := "!!binary"));
      var model := Tree(Shell(MappingNode, "!!map", NO_TEXT, 0, NO_TEXT, NO_TEXT, NO_TEXT, NO_TEXT), None,
        [Scalar("name"), Scalar("m"), odd, Scalar("1")]);
      var edited := EditField(model, MaxInputTokens, FieldValue(Some(2), []));
      edited.Some? && edited.value != model && !MetadataModel(model, edited.value)
  {
    var odd := Scalar("max-input-tokens").(shell := Scalar("max-input-tokens").shell.(tag := "!!binary"));
    var model := Tree(Shell(MappingNode, "!!map", NO_TEXT, 0, NO_TEXT, NO_TEXT, NO_TEXT, NO_TEXT), None,
      [Scalar("name"), Scalar("m"), odd, Scalar("1")]);
    var node := MetadataValueNode(MaxInputTokens, FieldValue(Some(2), [])).value;
    assert model.content[2..] == [odd, Scalar("1")];
    assert KeyIndex(model.content, "max-input-tokens") == 2;
    assert Essence(Scalar("1")).shell.tag != Essence(node).shell.tag;
    var next := EditField(model, MaxInputTokens, FieldValue(Some(2), [])).value;
    assert next.content[3] != model.content[3] && next.content[..3] == model.content[..3];
    assert next.content[2..] == [odd, next.content[3]];
    assert Unowned(model.content[2..])[1] == Scalar("1") && Unowned(next.content[2..])[1] == next.content[3];
    assert Unowned(model.content)[3] == Scalar("1") && Unowned(next.content)[3] == next.content[3];
  }
}
