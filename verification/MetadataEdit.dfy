/** The metadata planner's edit of one model: how a planned field value becomes YAML, how it is put in
    place with as little change as possible, and how it is read back. */
module MetadataEdit {
  import opened Options
  import opened YamlGraph
  import opened YamlTree
  import opened YamlClone
  import opened YamlChannels
  import opened Ownership
  import opened MetadataOwnership

  datatype Field = ThinkingLevels | MaxContextLength | MaxInputTokens | MaxOutputTokens | InputModalities | OutputModalities

  const FIELDS: seq<Field> := [ThinkingLevels, MaxContextLength, MaxInputTokens, MaxOutputTokens, InputModalities, OutputModalities]

  lemma FieldHasPlace(field: Field) returns (n: nat)
    ensures n < |FIELDS| && FIELDS[n] == field
  {
    n := match field
      case ThinkingLevels => 0
      case MaxContextLength => 1
      case MaxInputTokens => 2
      case MaxOutputTokens => 3
      case InputModalities => 4
      case OutputModalities => 5;
  }

  function FieldKey(field: Field): string {
    match field
    case ThinkingLevels => "thinking"
    case MaxContextLength => "max-context-length"
    case MaxInputTokens => "max-input-tokens"
    case MaxOutputTokens => "max-output-tokens"
    case InputModalities => "input-modalities"
    case OutputModalities => "output-modalities"
  }

  predicate IsLimit(field: Field) {
    field == MaxContextLength || field == MaxInputTokens || field == MaxOutputTokens
  }

  datatype FieldValue = FieldValue(integer: Option<int>, strings: seq<string>)

  type Patch = map<Field, FieldValue>

  // ---------- values as nodes ----------

  const FLOW_STYLE: nat := 32

  function Decimal(n: nat): string {
    if n < 10 then [('0' as int + n) as char] else Decimal(n / 10) + [('0' as int + n % 10) as char]
  }

  function ListNode(values: seq<string>): (r: Tree)
    ensures r.shell.kind == SequenceNode && |r.content| == |values|
    ensures forall i :: 0 <= i < |values| ==> r.content[i] == Scalar(values[i])
  {
    Tree(Shell(SequenceNode, "!!seq", NO_TEXT, FLOW_STYLE, NO_TEXT, NO_TEXT, NO_TEXT, NO_TEXT), None,
      seq(|values|, i requires 0 <= i < |values| => Scalar(values[i])))
  }

  /** A limit is a positive integer, anything else a list that is not empty; never both. */
  predicate ValidValue(field: Field, value: FieldValue) {
    if IsLimit(field) then value.integer.Some? && value.integer.value > 0 && value.strings == []
    else value.integer.None? && value.strings != []
  }

  function MetadataValueNode(field: Field, value: FieldValue): Option<Tree> {
    if !ValidValue(field, value) then None
    else if field == ThinkingLevels then
      Some(Tree(Shell(MappingNode, "!!map", NO_TEXT, 0, NO_TEXT, NO_TEXT, NO_TEXT, NO_TEXT), None,
        [Scalar("levels"), ListNode(value.strings)]))
    else if IsLimit(field) then
      var scalar := Scalar(Decimal(value.integer.value));
      Some(scalar.(shell := scalar.shell.(tag := "!!int")))
    else Some(ListNode(value.strings))
  }

  /** What the planner compares before it replaces a value: kind, tag, text and content. */
  function Essence(tree: Tree): (r: Tree)
    ensures |r.content| == |tree.content|
  {
    Tree(Shell(tree.shell.kind, tree.shell.tag, tree.shell.value, 0, NO_TEXT, NO_TEXT, NO_TEXT, NO_TEXT), None,
      seq(|tree.content|, i requires 0 <= i < |tree.content| => Essence(tree.content[i])))
  }

  method YamlNodesEqual(left: Tree, right: Tree) returns (same: bool)
    ensures same <==> Essence(left) == Essence(right)
    decreases left
  {
    if left.shell.kind != right.shell.kind || left.shell.tag != right.shell.tag || left.shell.value != right.shell.value
       || |left.content| != |right.content| {
      return false;
    }
    var one, two := Essence(left), Essence(right);
    var i := 0;
    while i < |left.content|
      invariant i <= |left.content| && forall k :: 0 <= k < i ==> one.content[k] == two.content[k]
    {
      same := YamlNodesEqual(left.content[i], right.content[i]);
      if !same {
        assert one.content[i] != two.content[i];
        return false;
      }
      i := i + 1;
    }
    assert one.content == two.content;
    return true;
  }

  /** The new value takes over the comments of the old one, and its style where that makes sense. */
  function PreservePresentation(target: Tree, existing: Tree): Tree {
    target.(shell := target.shell.(
      style := if target.shell.kind == existing.shell.kind then existing.shell.style else target.shell.style,
      headComment := existing.shell.headComment, lineComment := existing.shell.lineComment, footComment := existing.shell.footComment))
  }

  lemma PreservedEssence(target: Tree, existing: Tree)
    ensures Essence(PreservePresentation(target, existing)) == Essence(target)
    ensures Essence(target) != Essence(existing) ==> PreservePresentation(target, existing) != existing
  {
    assert Essence(PreservePresentation(target, existing)).content == Essence(target).content;
  }

  // ---------- the edit of one field ----------

  function Append(mapping: Tree, key: string, value: Tree): Tree {
    mapping.(content := mapping.content + [Scalar(key), value])
  }

  /** Replaces the value under a key unless it is essentially the same, and appends it when there is none. */
  function Put(mapping: Tree, key: string, value: Tree): Tree {
    match ValueOf(mapping, key)
    case None => Append(mapping, key, value)
    case Some(current) =>
      if Essence(current) == Essence(value) then mapping else SetValue(mapping, key, PreservePresentation(value, current))
  }

  /** None is an error. Levels go inside an existing thinking mapping. */
  function EditField(model: Tree, field: Field, value: FieldValue): Option<Tree> {
    match MetadataValueNode(field, value)
    case None => None
    case Some(node) =>
      if field == ThinkingLevels && ValueOf(model, "thinking").Some? then
        var current := ValueOf(model, "thinking").value;
        if current.shell.kind != MappingNode then None
        else Some(SetValue(model, "thinking", Put(current, "levels", node.content[1])))
      else Some(Put(model, FieldKey(field), node))
  }

  lemma SetSameValue(mapping: Tree, key: string)
    requires ValueOf(mapping, key).Some?
    ensures SetValue(mapping, key, ValueOf(mapping, key).value) == mapping
  {
    var i := KeyIndex(mapping.content, key) + 1;
    assert mapping.content[i := mapping.content[i]] == mapping.content;
  }

  method ReplaceAt(mapping: Tree, key: string, value: Tree) returns (next: Tree)
    requires mapping.shell.kind == MappingNode && FineEntries(mapping.content) && ValueOf(mapping, key).Some?
    ensures next == SetValue(mapping, key, value)
  {
    next := mapping;
    var i := 0;
    while i < |mapping.content|
      invariant i % 2 == 0 && i <= |mapping.content| && next == mapping && KeyIndex(mapping.content, key) >= i
    {
      if mapping.content[i].shell.value == key {
        KeyIndexUnique(mapping.content, key, i);
        return mapping.(content := mapping.content[i + 1 := value]);
      }
      i := i + 2;
    }
    assert false;
  }

  method PutValue(mapping: Tree, key: string, value: Tree) returns (next: Tree, changed: bool)
    requires mapping.shell.kind == MappingNode && FineEntries(mapping.content)
    ensures next == Put(mapping, key, value) && (changed <==> next != mapping)
  {
    hide KeyIndex;
    var current := ValueOf(mapping, key);
    if current.None? {
      return Append(mapping, key, value), true;
    }
    var same := YamlNodesEqual(current.value, value);
    if same {
      return mapping, false;
    }
    PreservedEssence(value, current.value);
    SetValueReads(mapping, key, PreservePresentation(value, current.value), key);
    next := ReplaceAt(mapping, key, PreservePresentation(value, current.value));
    changed := true;
  }

  method ApplyMetadataField(model: Tree, field: Field, value: FieldValue) returns (next: Option<Tree>, changed: bool)
    requires model.shell.kind == MappingNode && FineTree(model)
    ensures next == EditField(model, field, value)
    ensures next.Some? ==> (changed <==> next.value != model)
  {
    hide KeyIndex, Put, MetadataValueNode;
    var node := MetadataValueNode(field, value);
    if node.None? {
      return None, false;
    }
    if field == ThinkingLevels {
      LevelsNode(value);
      var current := ValueOf(model, "thinking");
      if current.Some? {
        if current.value.shell.kind != MappingNode {
          return None, false;
        }
        CleanValue(model, "thinking");
        var thinking;
        thinking, changed := PutValue(current.value, "levels", node.value.content[1]);
        SetSameValue(model, "thinking");
        SetValueReads(model, "thinking", thinking, "thinking");
        return Some(SetValue(model, "thinking", thinking)), changed;
      }
    }
    var put;
    put, changed := PutValue(model, FieldKey(field), node.value);
    next := Some(put);
  }

  lemma LevelsNode(value: FieldValue)
    requires MetadataValueNode(ThinkingLevels, value).Some?
    ensures |MetadataValueNode(ThinkingLevels, value).value.content| == 2
    ensures MetadataValueNode(ThinkingLevels, value).value.content[1] == ListNode(value.strings)
  {
  }

  // ---------- what an edit leaves alone ----------

  lemma {:induction false} KeyIndexAppend(content: seq<Tree>, key: Tree, value: Tree, other: string)
    requires |content| % 2 == 0
    ensures KeyIndex(content + [key, value], other) ==
      if KeyIndex(content, other) < |content| then KeyIndex(content, other)
      else if key.shell.value == other then |content| else |content| + 2
    decreases |content|
  {
    if content == [] {
      assert content + [key, value] == [key, value] && [key, value][2..] == [];
    } else if content[0].shell.value != other {
      assert (content + [key, value])[2..] == content[2..] + [key, value];
      KeyIndexAppend(content[2..], key, value, other);
    }
  }

  function KeyAt(content: seq<Tree>, key: string): Option<Tree> {
    var i := KeyIndex(content, key);
    if i < |content| then Some(content[i]) else None
  }

  lemma AppendReads(mapping: Tree, key: string, value: Tree, other: string)
    requires mapping.shell.kind == MappingNode && FineEntries(mapping.content) && ValueOf(mapping, key).None?
    ensures ValueOf(Append(mapping, key, value), other) == if other == key then Some(value) else ValueOf(mapping, other)
  {
    KeyIndexAppend(mapping.content, Scalar(key), value, other);
    hide KeyIndex;
  }

  /** What Put leaves under the key. */
  function Settled(mapping: Tree, key: string, value: Tree): Tree {
    match ValueOf(mapping, key)
    case None => value
    case Some(current) => if Essence(current) == Essence(value) then current else PreservePresentation(value, current)
  }

  lemma PutReads(mapping: Tree, key: string, value: Tree, other: string)
    requires mapping.shell.kind == MappingNode && FineEntries(mapping.content)
    ensures ValueOf(Put(mapping, key, value), other) == if other == key then Some(Settled(mapping, key, value)) else ValueOf(mapping, other)
    ensures other != key ==> KeyAt(Put(mapping, key, value).content, other) == KeyAt(mapping.content, other)
    ensures Put(mapping, key, value).shell == mapping.shell && Put(mapping, key, value).alias == mapping.alias
  {
    hide KeyIndex, Essence;
    match ValueOf(mapping, key)
    case None =>
      AppendReads(mapping, key, value, other);
      KeyIndexAppend(mapping.content, Scalar(key), value, other);
    case Some(current) =>
      SetValueReads(mapping, key, PreservePresentation(value, current), other);
      KeyIndexIgnoresValues(mapping.content, KeyIndex(mapping.content, key) + 1, PreservePresentation(value, current), other);
  }

  /** An edit touches only its own key. */
  lemma EditFieldReads(model: Tree, field: Field, value: FieldValue, other: string)
    requires model.shell.kind == MappingNode && FineEntries(model.content)
    requires EditField(model, field, value).Some? && other != FieldKey(field)
    ensures var next := EditField(model, field, value).value;
      && ValueOf(next, other) == ValueOf(model, other) && SameShell(next, model)
      && KeyAt(next.content, other) == KeyAt(model.content, other)
  {
    hide KeyIndex, Put;
    var node := MetadataValueNode(field, value).value;
    if field == ThinkingLevels && ValueOf(model, "thinking").Some? {
      var thinking := Put(ValueOf(model, "thinking").value, "levels", node.content[1]);
      SetValueReads(model, "thinking", thinking, other);
      KeyIndexIgnoresValues(model.content, KeyIndex(model.content, "thinking") + 1, thinking, other);
    } else {
      PutReads(model, FieldKey(field), node, other);
    }
  }

  // ---------- the edit of one model ----------

  lemma ValueNodeClean(field: Field, value: FieldValue)
    requires MetadataValueNode(field, value).Some?
    ensures Clean(MetadataValueNode(field, value).value)
    ensures field == ThinkingLevels ==> |MetadataValueNode(field, value).value.content| == 2 && Clean(MetadataValueNode(field, value).value.content[1])
  {
    var list := ListNode(value.strings);
    assert forall i :: 0 <= i < |list.content| ==> FineTree(list.content[i]) && Unambiguous(list.content[i]);
    assert Clean(list);
    if field == ThinkingLevels {
      var node := MetadataValueNode(field, value).value;
      assert node.content[0] == Scalar("levels") && node.content[1] == list && FineTree(Scalar("levels")) && Unambiguous(Scalar("levels"));
    }
  }

  lemma PreservedClean(target: Tree, existing: Tree)
    requires Clean(target)
    ensures Clean(PreservePresentation(target, existing))
  {
  }

  lemma AppendClean(mapping: Tree, key: string, value: Tree)
    requires mapping.shell.kind == MappingNode && Clean(mapping) && Clean(value)
    requires ValueOf(mapping, key).None? && key != "" && key != "<<"
    ensures Clean(Append(mapping, key, value))
  {
    var next := Append(mapping, key, value);
    assert FineTree(Scalar(key)) && Unambiguous(Scalar(key));
    AppendFine(mapping.content, key, value);
    CleanChildren(mapping);
    hide KeyIndex;
    forall i | 0 <= i < |next.content| ensures FineTree(next.content[i]) && Unambiguous(next.content[i]) {
      assert i < |mapping.content| ==> Clean(mapping.content[i]);
    }
  }

  lemma AppendFine(content: seq<Tree>, key: string, value: Tree)
    requires FineEntries(content) && KeyIndex(content, key) == |content| && key != ""
    ensures FineEntries(content + [Scalar(key), value])
  {
    hide KeyIndex;
    var longer := content + [Scalar(key), value];
    assert longer[|content|] == Scalar(key);
    assert forall i :: 0 <= i < |content| ==> longer[i] == content[i];
    forall i | 0 <= i < |content| && i % 2 == 0 ensures longer[i].shell.value != longer[|content|].shell.value {
    }
  }

  lemma PutClean(mapping: Tree, key: string, value: Tree)
    requires mapping.shell.kind == MappingNode && Clean(mapping) && Clean(value) && key != "" && key != "<<"
    ensures Clean(Put(mapping, key, value))
  {
    hide Clean, KeyIndex, Essence;
    match ValueOf(mapping, key)
    case None => AppendClean(mapping, key, value);
    case Some(current) =>
      PreservedClean(value, current);
      CleanSetValue(mapping, key, PreservePresentation(value, current));
  }

  lemma CleanEntries(mapping: Tree)
    requires Clean(mapping) && mapping.shell.kind == MappingNode
    ensures FineEntries(mapping.content)
  {
  }

  lemma EditClean(model: Tree, field: Field, value: FieldValue)
    requires model.shell.kind == MappingNode && Clean(model) && EditField(model, field, value).Some?
    ensures Clean(EditField(model, field, value).value)
  {
    ValueNodeClean(field, value);
    hide Clean, KeyIndex, Put, MetadataValueNode;
    var node := MetadataValueNode(field, value).value;
    if field == ThinkingLevels && ValueOf(model, "thinking").Some? {
      CleanValue(model, "thinking");
      PutClean(ValueOf(model, "thinking").value, "levels", node.content[1]);
      CleanSetValue(model, "thinking", Put(ValueOf(model, "thinking").value, "levels", node.content[1]));
    } else {
      PutClean(model, FieldKey(field), node);
    }
  }

  /** An edit that changes a model changes what is under the field's key. */
  lemma EditDiffers(model: Tree, field: Field, value: FieldValue)
    requires model.shell.kind == MappingNode && FineEntries(model.content) && EditField(model, field, value).Some?
    requires EditField(model, field, value).value != model
    ensures ValueOf(EditField(model, field, value).value, FieldKey(field)) != ValueOf(model, FieldKey(field))
  {
    hide KeyIndex, Essence, MetadataValueNode;
    var node := MetadataValueNode(field, value).value;
    if field == ThinkingLevels && ValueOf(model, "thinking").Some? {
      LevelsNode(value);
      var current := ValueOf(model, "thinking").value;
      SetSameValue(model, "thinking");
      SetValueReads(model, "thinking", Put(current, "levels", node.content[1]), "thinking");
    } else {
      PutReads(model, FieldKey(field), node, FieldKey(field));
      if ValueOf(model, FieldKey(field)).Some? {
        PreservedEssence(node, ValueOf(model, FieldKey(field)).value);
      }
    }
  }

  /** The first n fields of a patch, in the fixed order of the fields. */
  function EditModel(model: Tree, patch: Patch, n: nat): Option<Tree>
    requires n <= |FIELDS|
  {
    if n == 0 then Some(model)
    else
      match EditModel(model, patch, n - 1)
      case None => None
      case Some(m) => if FIELDS[n - 1] in patch then EditField(m, FIELDS[n - 1], patch[FIELDS[n - 1]]) else Some(m)
  }

  /** What the planner makes sure of before it edits a model. */
  ghost predicate Editable(model: Tree) {
    model.shell.kind == MappingNode && Clean(model)
  }

  lemma FieldKeysDiffer(field: Field, other: Field)
    requires field != other
    ensures FieldKey(field) != FieldKey(other)
  {
  }

  /** Both read the same under this key. */
  predicate SameUnder(one: Tree, two: Tree, key: string) {
    ValueOf(one, key) == ValueOf(two, key) && KeyAt(one.content, key) == KeyAt(two.content, key)
  }

  lemma {:induction false} EditModelKeeps(model: Tree, patch: Patch, n: nat)
    requires Editable(model) && n <= |FIELDS| && EditModel(model, patch, n).Some?
    ensures Editable(EditModel(model, patch, n).value) && SameShell(EditModel(model, patch, n).value, model)
    ensures SameUnder(EditModel(model, patch, n).value, model, "name")
    ensures forall k :: n <= k < |FIELDS| ==> SameUnder(EditModel(model, patch, n).value, model, FieldKey(FIELDS[k]))
  {
    hide KeyIndex, EditField, Clean, ValueOf, KeyAt;
    if n > 0 {
      EditModelKeeps(model, patch, n - 1);
      var before := EditModel(model, patch, n - 1).value;
      var field := FIELDS[n - 1];
      if field in patch {
        CleanEntries(before);
        EditClean(before, field, patch[field]);
        EditFieldReads(before, field, patch[field], "name");
        forall k | n <= k < |FIELDS|
          ensures SameUnder(EditModel(model, patch, n).value, model, FieldKey(FIELDS[k]))
        {
          FieldKeysDiffer(FIELDS[k], field);
          EditFieldReads(before, field, patch[field], FieldKey(FIELDS[k]));
        }
      }
    }
  }

  // ---------- everything else stays where it is ----------

  /** `now` has the entries of `model` in their places, with new values under touched keys only, and after
      them new entries under touched keys. */
  ghost predicate EditedInPlace(model: Tree, now: Tree, touched: set<string>) {
    && SameShell(now, model) && |model.content| <= |now.content|
    && (forall i :: 0 <= i < |model.content| && i % 2 == 0 ==> now.content[i] == model.content[i])
    && (forall i {:trigger now.content[i]} :: 0 <= i < |model.content| && i % 2 == 1 && model.content[i - 1].shell.value !in touched ==>
         now.content[i] == model.content[i])
    && (forall i :: |model.content| <= i < |now.content| && i % 2 == 0 ==> now.content[i].shell.value in touched)
  }

  /** The keys of the patched ones among the first n fields. */
  function TouchedKeys(patch: Patch, n: nat): set<string>
    requires n <= |FIELDS|
  {
    set k | 0 <= k < n && FIELDS[k] in patch :: FieldKey(FIELDS[k])
  }

  lemma InPlaceAgain(one: Tree, two: Tree, three: Tree, first: set<string>, second: set<string>)
    requires EditedInPlace(one, two, first) && EditedInPlace(two, three, second)
    ensures EditedInPlace(one, three, first + second)
  {
    forall i {:trigger three.content[i]} | 0 <= i < |one.content| && i % 2 == 1 && one.content[i - 1].shell.value !in first + second
      ensures three.content[i] == one.content[i]
    {
      assert two.content[i - 1] == one.content[i - 1];
      assert two.content[i] == one.content[i];
    }
    forall i | |one.content| <= i < |three.content| && i % 2 == 0 ensures three.content[i].shell.value in first + second {
      if i < |two.content| {
        assert three.content[i] == two.content[i];
      }
    }
  }

  lemma PutInPlace(mapping: Tree, key: string, value: Tree)
    requires mapping.shell.kind == MappingNode && FineEntries(mapping.content)
    ensures EditedInPlace(mapping, Put(mapping, key, value), {key})
  {
    hide Essence;
    match ValueOf(mapping, key)
    case None =>
      var next := Append(mapping, key, value);
      assert next.content[|mapping.content|] == Scalar(key);
      hide KeyIndex;
    case Some(current) => SetInPlace(mapping, key, PreservePresentation(value, current));
  }

  lemma SetInPlace(mapping: Tree, key: string, value: Tree)
    requires ValueOf(mapping, key).Some?
    ensures EditedInPlace(mapping, SetValue(mapping, key, value), {key})
  {
    hide KeyIndex;
  }

  lemma FieldInPlace(model: Tree, field: Field, value: FieldValue)
    requires model.shell.kind == MappingNode && FineEntries(model.content) && EditField(model, field, value).Some?
    ensures EditedInPlace(model, EditField(model, field, value).value, {FieldKey(field)})
  {
    var node := MetadataValueNode(field, value).value;
    if field == ThinkingLevels {
      LevelsNode(value);
    }
    hide Put, MetadataValueNode, EditedInPlace;
    if field == ThinkingLevels && ValueOf(model, "thinking").Some? {
      SetInPlace(model, "thinking", Put(ValueOf(model, "thinking").value, "levels", node.content[1]));
    } else {
      PutInPlace(model, FieldKey(field), node);
    }
  }

  /** A patch leaves every entry of the model in its place, and changes values under the keys of its fields only. */
  lemma {:induction false} EditModelInPlace(model: Tree, patch: Patch, n: nat)
    requires Editable(model) && n <= |FIELDS| && EditModel(model, patch, n).Some?
    ensures EditedInPlace(model, EditModel(model, patch, n).value, TouchedKeys(patch, n))
  {
    hide TouchedKeys, EditField, Clean, EditedInPlace, SameUnder, FieldKey;
    if n == 0 {
      UneditedInPlace(model, TouchedKeys(patch, 0));
    } else {
      EditModelInPlace(model, patch, n - 1);
      EditModelKeeps(model, patch, n - 1);
      var before, field := EditModel(model, patch, n - 1).value, FIELDS[n - 1];
      TouchedNext(patch, n - 1);
      if field in patch {
        CleanEntries(before);
        FieldInPlace(before, field, patch[field]);
        InPlaceAgain(model, before, EditModel(model, patch, n).value, TouchedKeys(patch, n - 1), {FieldKey(field)});
      }
    }
  }

  lemma UneditedInPlace(model: Tree, touched: set<string>)
    ensures EditedInPlace(model, model, touched)
  {
  }

  lemma TouchedNext(patch: Patch, n: nat)
    requires n < |FIELDS|
    ensures TouchedKeys(patch, n + 1) == if FIELDS[n] in patch then TouchedKeys(patch, n) + {FieldKey(FIELDS[n])} else TouchedKeys(patch, n)
  {
    hide FieldKey;
  }

  /** So any key but those of its fields reads as before. */
  lemma InPlaceReads(model: Tree, now: Tree, touched: set<string>, key: string)
    requires FineEntries(model.content) && FineEntries(now.content) && EditedInPlace(model, now, touched) && key !in touched
    ensures SameUnder(now, model, key)
  {
    hide KeyIndex;
    var i := KeyIndex(model.content, key);
    if i < |model.content| {
      assert now.content[i] == model.content[i];
      assert now.content[i + 1] == model.content[i + 1];
      KeyIndexUnique(now.content, key, i);
    }
  }

  // ---------- the loop over the fields ----------

  /** One of the first n fields reads differently. */
  ghost predicate FieldsDiffer(model: Tree, now: Tree, n: nat) {
    exists k :: 0 <= k < n <= |FIELDS| && ValueOf(now, FieldKey(FIELDS[k])) != ValueOf(model, FieldKey(FIELDS[k]))
  }

  lemma PatchStep(model: Tree, patch: Patch, i: nat, now: Tree, next: Tree)
    requires Editable(model) && i < |FIELDS| && EditModel(model, patch, i) == Some(now)
    requires FIELDS[i] in patch && EditField(now, FIELDS[i], patch[FIELDS[i]]) == Some(next)
    ensures FieldsDiffer(model, now, i) || next != now ==> FieldsDiffer(model, next, i + 1)
  {
    EditModelKeeps(model, patch, i);
    CleanEntries(now);
    hide KeyIndex, EditField, Clean, EditModel;
    if next != now {
      EditDiffers(now, FIELDS[i], patch[FIELDS[i]]);
    } else if FieldsDiffer(model, now, i) {
      var k :| 0 <= k < i && ValueOf(now, FieldKey(FIELDS[k])) != ValueOf(model, FieldKey(FIELDS[k]));
      FieldKeysDiffer(FIELDS[k], FIELDS[i]);
      EditFieldReads(now, FIELDS[i], patch[FIELDS[i]], FieldKey(FIELDS[k]));
    }
  }

  method ApplyPatch(model: Tree, patch: Patch) returns (next: Option<Tree>, changed: bool)
    requires Editable(model)
    ensures next == EditModel(model, patch, |FIELDS|)
    ensures next.Some? ==> (changed <==> next.value != model)
  {
    hide KeyIndex, EditField, Clean, FieldsDiffer, SameUnder;
    var now := model;
    changed := false;
    var i := 0;
    while i < |FIELDS|
      invariant i <= |FIELDS| && EditModel(model, patch, i) == Some(now)
      invariant !changed ==> now == model
      invariant changed ==> FieldsDiffer(model, now, i)
    {
      EditModelKeeps(model, patch, i);
      if FIELDS[i] in patch {
        CleanFine(now);
        var edited, fieldChanged := ApplyMetadataField(now, FIELDS[i], patch[FIELDS[i]]);
        if edited.None? {
          NoWayBack(model, patch, i + 1, |FIELDS|);
          return None, false;
        }
        PatchStep(model, patch, i, now, edited.value);
        now, changed := edited.value, changed || fieldChanged;
      } else {
        StillDiffer(model, now, i);
      }
      i := i + 1;
    }
    if changed {
      DifferentModel(model, now, i);
    }
    next := Some(now);
  }

  lemma StillDiffer(model: Tree, now: Tree, i: nat)
    requires i < |FIELDS|
    ensures FieldsDiffer(model, now, i) ==> FieldsDiffer(model, now, i + 1)
  {
    hide KeyIndex;
  }

  lemma DifferentModel(model: Tree, now: Tree, n: nat)
    requires FieldsDiffer(model, now, n)
    ensures now != model
  {
    hide KeyIndex;
  }

  lemma CleanFine(tree: Tree)
    requires Clean(tree)
    ensures FineTree(tree)
  {
  }

  lemma {:induction false} NoWayBack(model: Tree, patch: Patch, n: nat, m: nat)
    requires n <= m <= |FIELDS| && EditModel(model, patch, n).None?
    ensures EditModel(model, patch, m).None?
    decreases m
  {
    if n < m {
      NoWayBack(model, patch, n, m - 1);
    }
  }
}
