/** Reading metadata from a model, planning the patch from what was read to what resolution made of it,
    and reading the patched model back. */
module MetadataReadBack {
  import opened Options
  import opened YamlGraph
  import opened YamlTree
  import opened YamlClone
  import opened YamlChannels
  import opened MetadataEdit
  import opened MetadataEnrich
  import opened CatalogValues
  import MetadataPlanner

  // ---------- reading ----------

  /** YAML integers are read by the library; decimal digits are read as what they say. */
  type IntegerReader = string -> Option<int>

  ghost predicate ReadsDecimals(integer: IntegerReader) {
    forall n: nat :: n > 0 ==> integer(Decimal(n)) == Some(n)
  }

  /** Nothing there reads as zero. */
  function OptionalPositiveInt(integer: IntegerReader, value: Option<Tree>): Option<nat> {
    if value.None? then Some(0)
    else if value.value.shell.kind != ScalarNode || value.value.shell.tag != "!!int" then None
    else
      match integer(value.value.shell.value)
      case None => None
      case Some(n) => if n > 0 then Some(n) else None
  }

  predicate TextItem(item: Tree) {
    item.shell.kind == ScalarNode && item.shell.tag == "!!str" && CleanText(item.shell.value)
  }

  function ScalarStringSequence(value: Option<Tree>): Option<seq<string>> {
    if value.None? then Some([])
    else if value.value.shell.kind != SequenceNode then None
    else if exists i :: 0 <= i < |value.value.content| && !TextItem(value.value.content[i]) then None
    else Some(seq(|value.value.content|, i requires 0 <= i < |value.value.content| => value.value.content[i].shell.value))
  }

  ghost function ReadLevels(value: Option<Tree>): Option<seq<string>> {
    if value.None? then Some([])
    else if value.value.shell.kind != MappingNode || !Unambiguous(value.value) then None
    else ScalarStringSequence(ValueOf(value.value, "levels"))
  }

  /** What the value under a field's key reads as. */
  ghost function ReadValue(integer: IntegerReader, field: Field, value: Option<Tree>): Option<FieldValue> {
    if IsLimit(field) then
      match OptionalPositiveInt(integer, value)
      case None => None
      case Some(n) => Some(Limit(n))
    else
      match if field == ThinkingLevels then ReadLevels(value) else ScalarStringSequence(value)
      case None => None
      case Some(values) => Some(List(values))
  }

  ghost function ReadField(integer: IntegerReader, model: Tree, field: Field): Option<FieldValue> {
    ReadValue(integer, field, ValueOf(model, FieldKey(field)))
  }

  /** Every field of the model can be read, and reads as given. */
  ghost predicate Reads(integer: IntegerReader, model: Tree, ref: ModelRef) {
    && MetadataPlanner.ExactName(model) == Some(ref.name)
    && (forall field :: ReadField(integer, model, field) == Some(Get(ref, field)))
  }

  // ---------- planning the patch ----------

  /** A source other than the existing configuration supplied the field. */
  predicate Supplied(status: Status) {
    status == FromUpstream || status == Authoritative || status == Completed || status == Overridden
  }

  /** The fields to set: changed, and by a source. */
  function PatchOf(before: ModelRef, after: ModelRef, states: States): Patch {
    map field | field in FIELDS && Get(before, field) != Get(after, field) && Supplied(StateOf(states, field).status) :: Get(after, field)
  }

  /** The six additions for one model; None is the error for a value that cannot be written. */
  method PlannedFields(before: ModelRef, after: ModelRef, states: States) returns (fields: Option<Patch>)
    ensures fields.Some? <==> forall field :: field in PatchOf(before, after, states) ==> ValidValue(field, PatchOf(before, after, states)[field])
    ensures fields.Some? ==> fields.value == PatchOf(before, after, states)
  {
    hide Get, ValidValue;
    var result: Patch := map[];
    var i := 0;
    while i < |FIELDS|
      invariant i <= |FIELDS|
      invariant forall field :: field in result <==>
        exists k :: 0 <= k < i && FIELDS[k] == field && Get(before, field) != Get(after, field) && Supplied(StateOf(states, field).status)
      invariant forall field :: field in result ==> result[field] == Get(after, field) && ValidValue(field, result[field])
    {
      var field := FIELDS[i];
      if Get(before, field) != Get(after, field) && Supplied(StateOf(states, field).status) {
        if !ValidValue(field, Get(after, field)) {
          assert field in FIELDS && field in PatchOf(before, after, states);
          return None;
        }
        result := result[field := Get(after, field)];
      }
      i := i + 1;
    }
    assert result == PatchOf(before, after, states);
    return Some(result);
  }

  /** What resolution changes was supplied by a source and can be written. */
  lemma ChangesAreSupplied(model: ModelRef, sources: Sources, field: Field)
    requires Resolved(model, sources, field).value != Get(model, field)
    ensures Supplied(Resolved(model, sources, field).status)
    ensures ValidValue(field, Resolved(model, sources, field).value)
  {
    ResolvedFits(model, sources, field);
    ReadingsSupply(AfterUpstream(model, sources, field), sources.readings, field);
  }

  /** A state that readings leave unset or preserved is the state they were given. */
  lemma {:induction false} ReadingsSupply(state: FieldState, readings: seq<Reading>, field: Field)
    requires state.value == NO_VALUE <==> state.status == Skipped
    ensures var after := AfterReadings(state, readings, field);
      after == state || ((after.status == Authoritative || after.status == Completed) && after.value != NO_VALUE)
    decreases |readings|
  {
    if readings != [] {
      ReadingsSupply(state, readings[..|readings| - 1], field);
    }
  }

  /** The patch for an enriched model holds exactly the fields that changed, and planning it never fails. */
  lemma PatchIsTheDifference(model: ModelRef, sources: Sources, states: States)
    requires forall field :: StateOf(states, field) == Resolved(model, sources, field)
    ensures var patch := PatchOf(model, Enriched(model, sources), states);
      && (forall field :: field in patch <==> Get(Enriched(model, sources), field) != Get(model, field))
      && (forall field :: field in patch ==> patch[field] == Get(Enriched(model, sources), field) && ValidValue(field, patch[field]))
  {
    hide Resolved, Enriched, Get, ValidValue;
    forall field
      ensures Get(Enriched(model, sources), field) == Resolved(model, sources, field).value
      ensures field in FIELDS
      ensures Resolved(model, sources, field).value != Get(model, field) ==>
        Supplied(Resolved(model, sources, field).status) && ValidValue(field, Resolved(model, sources, field).value)
    {
      EnrichedReads(model, sources, field);
      var n := FieldHasPlace(field);
      if Resolved(model, sources, field).value != Get(model, field) {
        ChangesAreSupplied(model, sources, field);
      }
    }
  }

  // ---------- reading back ----------

  lemma EssenceShell(tree: Tree)
    ensures Essence(tree).shell.kind == tree.shell.kind && Essence(tree).shell.tag == tree.shell.tag
    ensures Essence(tree).shell.value == tree.shell.value
    ensures forall i :: 0 <= i < |tree.content| ==> Essence(tree).content[i] == Essence(tree.content[i])
  {
  }

  lemma ListItems(one: Tree, two: Tree, i: nat)
    requires Essence(one) == Essence(two) && i < |one.content| == |two.content|
    ensures one.content[i].shell.kind == two.content[i].shell.kind && one.content[i].shell.tag == two.content[i].shell.tag
    ensures one.content[i].shell.value == two.content[i].shell.value
  {
    hide Essence;
    EssenceShell(one);
    EssenceShell(two);
    EssenceShell(one.content[i]);
    EssenceShell(two.content[i]);
  }

  /** Reading a list looks no further than what the planner compares. */
  lemma EssenceReads(one: Tree, two: Tree)
    requires Essence(one) == Essence(two)
    ensures ScalarStringSequence(Some(one)) == ScalarStringSequence(Some(two))
  {
    assert |Essence(one).content| == |Essence(two).content|;
    forall i | 0 <= i < |one.content|
      ensures one.content[i].shell.value == two.content[i].shell.value && TextItem(one.content[i]) == TextItem(two.content[i])
    {
      ListItems(one, two, i);
    }
    assert Essence(one).shell.kind == Essence(two).shell.kind;
    var readable := one.shell.kind == SequenceNode && forall i :: 0 <= i < |one.content| ==> TextItem(one.content[i]);
    if readable {
      assert ScalarStringSequence(Some(one)).value == ScalarStringSequence(Some(two)).value;
    } else if one.shell.kind == SequenceNode {
      var i :| 0 <= i < |one.content| && !TextItem(one.content[i]);
      assert !TextItem(two.content[i]);
    }
  }

  lemma ListNodeReads(values: seq<string>)
    requires CleanTexts(values)
    ensures ScalarStringSequence(Some(ListNode(values))) == Some(values)
  {
    var node := ListNode(values);
    assert forall i :: 0 <= i < |values| ==> TextItem(node.content[i]);
    assert ScalarStringSequence(Some(node)).value == values;
  }

  /** Whatever stays of the old value, it is essentially the new one. */
  lemma SettledEssence(mapping: Tree, key: string, value: Tree)
    ensures Essence(Settled(mapping, key, value)) == Essence(value)
  {
    if ValueOf(mapping, key).Some? {
      PreservedEssence(value, ValueOf(mapping, key).value);
    }
  }

  predicate WritableStrings(value: FieldValue) {
    CleanTexts(value.strings)
  }

  lemma PutList(mapping: Tree, key: string, values: seq<string>)
    requires mapping.shell.kind == MappingNode && FineEntries(mapping.content)
    requires CleanTexts(values)
    ensures ScalarStringSequence(ValueOf(Put(mapping, key, ListNode(values)), key)) == Some(values)
  {
    PutReads(mapping, key, ListNode(values), key);
    SettledEssence(mapping, key, ListNode(values));
    EssenceReads(Settled(mapping, key, ListNode(values)), ListNode(values));
    ListNodeReads(values);
    hide KeyIndex, Essence;
  }

  lemma EditedLimitReads(integer: IntegerReader, model: Tree, field: Field, value: FieldValue)
    requires Editable(model) && IsLimit(field) && ValidValue(field, value) && ReadsDecimals(integer)
    ensures EditField(model, field, value).Some?
    ensures ReadField(integer, EditField(model, field, value).value, field) == Some(value)
  {
    CleanEntries(model);
    var node := MetadataValueNode(field, value).value;
    PutReads(model, FieldKey(field), node, FieldKey(field));
    SettledEssence(model, FieldKey(field), node);
    var settled := Settled(model, FieldKey(field), node);
    assert settled.shell.kind == ScalarNode && settled.shell.tag == "!!int" && settled.shell.value == Decimal(value.integer.value) by {
      assert Essence(settled).shell == Essence(node).shell;
    }
    hide KeyIndex, Essence, Put;
  }

  lemma EditedListReads(integer: IntegerReader, model: Tree, field: Field, value: FieldValue)
    requires Editable(model) && (field == InputModalities || field == OutputModalities) && ValidValue(field, value) && WritableStrings(value)
    ensures EditField(model, field, value).Some?
    ensures ReadField(integer, EditField(model, field, value).value, field) == Some(value)
  {
    CleanEntries(model);
    PutList(model, FieldKey(field), value.strings);
    hide KeyIndex, Put, ListNode;
  }

  lemma EditedThinkingReads(integer: IntegerReader, model: Tree, value: FieldValue)
    requires Editable(model) && ReadField(integer, model, ThinkingLevels).Some?
    requires ValidValue(ThinkingLevels, value) && WritableStrings(value)
    ensures EditField(model, ThinkingLevels, value).Some?
    ensures ReadField(integer, EditField(model, ThinkingLevels, value).value, ThinkingLevels) == Some(value)
  {
    LevelsNode(value);
    ValueNodeClean(ThinkingLevels, value);
    CleanEntries(model);
    var node := MetadataValueNode(ThinkingLevels, value).value;
    var list := ListNode(value.strings);
    if ValueOf(model, "thinking").Some? {
      var current := ValueOf(model, "thinking").value;
      CleanValue(model, "thinking");
      CleanEntries(current);
      PutList(current, "levels", value.strings);
      PutClean(current, "levels", list);
      PutReads(current, "levels", list, "levels");
      SetValueReads(model, "thinking", Put(current, "levels", list), "thinking");
      hide KeyIndex, Put, Settled;
    } else {
      ListNodeReads(value.strings);
      assert node.content[0] == Scalar("levels") && ValueOf(node, "levels") == Some(list);
      PutReads(model, "thinking", node, "thinking");
      hide KeyIndex;
    }
  }

  lemma EditedFieldReads(integer: IntegerReader, model: Tree, field: Field, value: FieldValue)
    requires Editable(model) && ReadField(integer, model, field).Some? && ReadsDecimals(integer)
    requires ValidValue(field, value) && WritableStrings(value)
    ensures EditField(model, field, value).Some?
    ensures ReadField(integer, EditField(model, field, value).value, field) == Some(value)
    ensures forall other :: other != field ==> ReadField(integer, EditField(model, field, value).value, other) == ReadField(integer, model, other)
  {
    hide ReadValue, EditField, ValidValue, WritableStrings;
    if IsLimit(field) {
      EditedLimitReads(integer, model, field, value);
    } else if field == ThinkingLevels {
      EditedThinkingReads(integer, model, value);
    } else {
      EditedListReads(integer, model, field, value);
    }
    CleanEntries(model);
    forall other | other != field
      ensures ReadField(integer, EditField(model, field, value).value, other) == ReadField(integer, model, other)
    {
      FieldKeysDiffer(field, other);
      EditFieldReads(model, field, value, FieldKey(other));
    }
  }

  /** After n fields the patched ones among them read as planned and all others as before. */
  lemma {:induction false} PatchReads(integer: IntegerReader, model: Tree, patch: Patch, n: nat)
    requires Editable(model) && ReadsDecimals(integer) && n <= |FIELDS|
    requires forall field :: ReadField(integer, model, field).Some?
    requires forall field :: field in patch ==> ValidValue(field, patch[field]) && WritableStrings(patch[field])
    ensures EditModel(model, patch, n).Some?
    ensures forall k :: 0 <= k < |FIELDS| ==>
      ReadField(integer, EditModel(model, patch, n).value, FIELDS[k]) ==
        if k < n && FIELDS[k] in patch then Some(patch[FIELDS[k]]) else ReadField(integer, model, FIELDS[k])
  {
    hide ReadField, EditField, ValidValue, WritableStrings, Clean, SameUnder, SameShell;
    if n > 0 {
      PatchReads(integer, model, patch, n - 1);
      EditModelKeeps(model, patch, n - 1);
      var before, field := EditModel(model, patch, n - 1).value, FIELDS[n - 1];
      if field in patch {
        assert ReadField(integer, before, field).Some?;
        EditedFieldReads(integer, before, field, patch[field]);
        forall k | 0 <= k < |FIELDS| && k != n - 1
          ensures ReadField(integer, EditModel(model, patch, n).value, FIELDS[k]) == ReadField(integer, before, FIELDS[k])
        {
          FieldsDiffer(k, n - 1);
        }
      }
    }
  }

  lemma FieldsDiffer(j: nat, k: nat)
    requires j < |FIELDS| && k < |FIELDS| && j != k
    ensures FIELDS[j] != FIELDS[k]
  {
  }

  lemma NameStays(model: Tree, patch: Patch)
    requires Editable(model) && EditModel(model, patch, |FIELDS|).Some?
    ensures MetadataPlanner.ExactName(EditModel(model, patch, |FIELDS|).value) == MetadataPlanner.ExactName(model)
  {
    EditModelKeeps(model, patch, |FIELDS|);
    hide EditModel, ValueOf, KeyAt, TrimSpace;
  }

  /** Lists that can be read can be written, and so can everything resolution makes of them. */
  lemma EnrichedIsWritable(integer: IntegerReader, tree: Tree, model: ModelRef, sources: Sources, field: Field)
    requires Reads(integer, tree, model)
    ensures WritableStrings(Get(Enriched(model, sources), field))
  {
    assert ReadField(integer, tree, field) == Some(Get(model, field));
    ReadIsClean(integer, field, ValueOf(tree, FieldKey(field)));
    hide Get, Enriched, ReadValue;
    EnrichedIsClean(model, sources, field);
  }

  lemma ReadIsClean(integer: IntegerReader, field: Field, value: Option<Tree>)
    requires ReadValue(integer, field, value).Some?
    ensures CleanTexts(ReadValue(integer, field, value).value.strings)
  {
    hide ValueOf, Unambiguous;
  }

  /** Patch read-back: a model is read, resolved, patched in place and read again, and what is read is
      exactly what resolution made of it. */
  lemma PatchReadsBack(integer: IntegerReader, tree: Tree, model: ModelRef, sources: Sources, states: States)
    requires Editable(tree) && Reads(integer, tree, model) && ReadsDecimals(integer)
    requires forall field :: StateOf(states, field) == Resolved(model, sources, field)
    ensures var after := Enriched(model, sources);
      var patched := EditModel(tree, PatchOf(model, after, states), |FIELDS|);
      patched.Some? && Reads(integer, patched.value, after)
  {
    hide Resolved, Enriched, Get, EditModel, ReadField, ValidValue, Editable, WritableStrings;
    var after := Enriched(model, sources);
    var patch := PatchOf(model, after, states);
    PatchIsTheDifference(model, sources, states);
    forall field | field in patch ensures WritableStrings(patch[field]) {
      EnrichedIsWritable(integer, tree, model, sources, field);
    }
    PatchReads(integer, tree, patch, |FIELDS|);
    NameStays(tree, patch);
    EnrichedReads(model, sources, ThinkingLevels);
    forall field ensures ReadField(integer, EditModel(tree, patch, |FIELDS|).value, field) == Some(Get(after, field)) {
      var k := FieldHasPlace(field);
      assert ReadField(integer, tree, field) == Some(Get(model, field));
    }
  }
}
