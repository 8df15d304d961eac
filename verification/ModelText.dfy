/** How a model and its channel stand in the document, key by key: what the planner reads under each of them,
    and what it writes there. */
module ModelText {
  import opened Options
  import opened YamlGraph
  import opened YamlTree
  import opened YamlClone
  import opened YamlChannels
  import opened CatalogValues
  import opened MetadataEdit
  import opened MetadataEnrich
  import opened MetadataPlanner
  import opened MetadataReadBack
  import opened MetadataSnapshot
  import opened OwnershipRules

  // ---------- what stands under a key ----------

  ghost predicate HasKey(mapping: Tree, key: string) {
    exists value :: Holds(mapping, key, value)
  }

  predicate IsText(node: Tree, text: string) {
    node.shell.kind == ScalarNode && node.shell.tag == "!!str" && node.shell.value == text
  }

  ghost predicate TextAt(mapping: Tree, key: string, text: string) {
    exists value :: Holds(mapping, key, value) && IsText(value, text)
  }

  predicate NoControl(text: string) {
    forall i :: 0 <= i < |text| ==> ' ' <= text[i] && text[i] != '\U{7F}'
  }

  predicate IsList(node: Tree, list: seq<string>) {
    && node.shell.kind == SequenceNode && |node.content| == |list|
    && (forall i :: 0 <= i < |list| ==> IsText(node.content[i], list[i]) && list[i] != "" && NoControl(list[i]))
  }

  ghost predicate ListAt(mapping: Tree, key: string, list: seq<string>) {
    if HasKey(mapping, key) then exists value :: Holds(mapping, key, value) && IsList(value, list) else list == []
  }

  predicate IsNumber(integer: IntegerReader, node: Tree, n: nat) {
    node.shell.kind == ScalarNode && node.shell.tag == "!!int" && integer(node.shell.value) == Some(n) && n > 0
  }

  ghost predicate NumberAt(integer: IntegerReader, mapping: Tree, key: string, n: nat) {
    if HasKey(mapping, key) then exists value :: Holds(mapping, key, value) && IsNumber(integer, value, n) else n == 0
  }

  ghost predicate LevelsIn(node: Tree, list: seq<string>) {
    node.shell.kind == MappingNode && NoIndirection(node) && ListAt(node, "levels", list)
  }

  ghost predicate LevelsAt(mapping: Tree, list: seq<string>) {
    if HasKey(mapping, "thinking") then exists value :: Holds(mapping, "thinking", value) && LevelsIn(value, list) else list == []
  }

  /** The node is this model. */
  ghost predicate IsModel(integer: IntegerReader, node: Tree, model: ModelRef) {
    && TextAt(node, "name", model.name)
    && model.name != "" && TrimSpace(model.name) == model.name && ByteLength(model.name) <= 1024 && NoControl(model.name)
    && LevelsAt(node, model.thinking)
    && NumberAt(integer, node, "max-context-length", model.maxContext)
    && NumberAt(integer, node, "max-input-tokens", model.maxInput)
    && NumberAt(integer, node, "max-output-tokens", model.maxOutput)
    && ListAt(node, "input-modalities", model.inputs)
    && ListAt(node, "output-modalities", model.outputs)
  }

  // ---------- reading ----------

  lemma ControlIs(text: string)
    ensures HasControl(text) <==> !NoControl(text)
  {
  }

  lemma HasKeyIs(mapping: Tree, key: string)
    requires mapping.shell.kind == MappingNode ==> FineEntries(mapping.content)
    ensures HasKey(mapping, key) <==> ValueOf(mapping, key).Some?
    ensures forall value :: Holds(mapping, key, value) <==> ValueOf(mapping, key) == Some(value)
  {
    HoldsIs(mapping, key);
    hide Holds;
    if ValueOf(mapping, key).Some? {
      assert Holds(mapping, key, ValueOf(mapping, key).value);
    }
  }

  lemma TextReads(mapping: Tree, key: string, text: string)
    requires mapping.shell.kind == MappingNode ==> FineEntries(mapping.content)
    ensures TextAt(mapping, key, text) <==> Text(mapping, key) == Some(text)
  {
    HasKeyIs(mapping, key);
    hide Holds, HasKey;
  }

  lemma NumberReads(integer: IntegerReader, mapping: Tree, key: string, n: nat)
    requires mapping.shell.kind == MappingNode ==> FineEntries(mapping.content)
    ensures NumberAt(integer, mapping, key, n) <==> OptionalPositiveInt(integer, ValueOf(mapping, key)) == Some(n)
  {
    HasKeyIs(mapping, key);
    hide Holds, HasKey;
  }

  lemma IsListReads(node: Tree, list: seq<string>)
    ensures IsList(node, list) <==> ScalarStringSequence(Some(node)) == Some(list)
  {
    forall text {
      ControlIs(text);
    }
    hide HasControl, NoControl;
    if ScalarStringSequence(Some(node)) == Some(list) {
      forall i | 0 <= i < |list| ensures IsText(node.content[i], list[i]) && list[i] != "" && NoControl(list[i]) {
        assert TextItem(node.content[i]);
      }
    }
    if IsList(node, list) {
      assert ScalarStringSequence(Some(node)).value == list;
    }
  }

  lemma ListReads(mapping: Tree, key: string, list: seq<string>)
    requires mapping.shell.kind == MappingNode ==> FineEntries(mapping.content)
    ensures ListAt(mapping, key, list) <==> ScalarStringSequence(ValueOf(mapping, key)) == Some(list)
  {
    HasKeyIs(mapping, key);
    if ValueOf(mapping, key).Some? {
      IsListReads(ValueOf(mapping, key).value, list);
      hide IsList, ScalarStringSequence, Holds, HasKey;
    }
  }

  lemma LevelsRead(mapping: Tree, list: seq<string>)
    requires FineTree(mapping)
    ensures LevelsAt(mapping, list) <==> ReadLevels(ValueOf(mapping, "thinking")) == Some(list)
  {
    HasKeyIs(mapping, "thinking");
    var thinking := ValueOf(mapping, "thinking");
    if thinking.Some? {
      ValueFine(mapping, "thinking");
      ListReads(thinking.value, "levels", list);
      IndirectionIs(thinking.value);
      hide ListAt, ScalarStringSequence, Holds, HasKey, FineTree, Unambiguous, NoIndirection;
    }
  }

  /** A model is read from exactly the nodes that are it. */
  lemma ReadsExactly(integer: IntegerReader, node: Tree, model: ModelRef)
    requires FineTree(node)
    ensures ReadModel(integer, node) == Some(model) <==> IsModel(integer, node, model)
  {
    ReadModelReads(integer, node, model);
    NameReads(node, model.name);
    ExactlySix(integer, node, model);
    forall field {
      FieldReads(integer, node, model, field);
    }
    hide ReadModel, FineTree, TextAt, LevelsAt, NumberAt, ListAt, ReadField, Get, TrimSpace, NoControl, ByteLength, ExactName;
    assert FieldStands(integer, node, model, ThinkingLevels) <==> ReadField(integer, node, ThinkingLevels) == Some(Get(model, ThinkingLevels));
  }

  ghost predicate FieldStands(integer: IntegerReader, node: Tree, model: ModelRef, field: Field) {
    match field
    case ThinkingLevels => LevelsAt(node, model.thinking)
    case MaxContextLength => NumberAt(integer, node, "max-context-length", model.maxContext)
    case MaxInputTokens => NumberAt(integer, node, "max-input-tokens", model.maxInput)
    case MaxOutputTokens => NumberAt(integer, node, "max-output-tokens", model.maxOutput)
    case InputModalities => ListAt(node, "input-modalities", model.inputs)
    case OutputModalities => ListAt(node, "output-modalities", model.outputs)
  }

  lemma FieldReads(integer: IntegerReader, node: Tree, model: ModelRef, field: Field)
    requires FineTree(node)
    ensures FieldStands(integer, node, model, field) <==> ReadField(integer, node, field) == Some(Get(model, field))
  {
    hide LevelsAt, NumberAt, ListAt, ReadLevels, OptionalPositiveInt, ScalarStringSequence, ValueOf;
    match field {
      case ThinkingLevels => LevelsRead(node, model.thinking);
      case MaxContextLength => NumberReads(integer, node, "max-context-length", model.maxContext);
      case MaxInputTokens => NumberReads(integer, node, "max-input-tokens", model.maxInput);
      case MaxOutputTokens => NumberReads(integer, node, "max-output-tokens", model.maxOutput);
      case InputModalities => ListReads(node, "input-modalities", model.inputs);
      case OutputModalities => ListReads(node, "output-modalities", model.outputs);
    }
  }

  lemma NameReads(node: Tree, name: string)
    requires FineTree(node)
    ensures ExactName(node) == Some(name) <==>
      TextAt(node, "name", name) && name != "" && TrimSpace(name) == name && ByteLength(name) <= 1024 && NoControl(name)
  {
    ControlIs(name);
    TextReads(node, "name", name);
    hide TextAt, Text, TrimSpace, ByteLength, HasControl, NoControl, FineTree;
  }

  lemma ExactlySix(integer: IntegerReader, node: Tree, model: ModelRef)
    ensures (forall field :: ReadField(integer, node, field) == Some(Get(model, field))) <==>
      && ReadField(integer, node, ThinkingLevels) == Some(Get(model, ThinkingLevels))
      && ReadField(integer, node, MaxContextLength) == Some(Get(model, MaxContextLength))
      && ReadField(integer, node, MaxInputTokens) == Some(Get(model, MaxInputTokens))
      && ReadField(integer, node, MaxOutputTokens) == Some(Get(model, MaxOutputTokens))
      && ReadField(integer, node, InputModalities) == Some(Get(model, InputModalities))
      && ReadField(integer, node, OutputModalities) == Some(Get(model, OutputModalities))
  {
    hide ReadField, Get;
    if ReadField(integer, node, ThinkingLevels) == Some(Get(model, ThinkingLevels))
       && ReadField(integer, node, MaxContextLength) == Some(Get(model, MaxContextLength))
       && ReadField(integer, node, MaxInputTokens) == Some(Get(model, MaxInputTokens))
       && ReadField(integer, node, MaxOutputTokens) == Some(Get(model, MaxOutputTokens))
       && ReadField(integer, node, InputModalities) == Some(Get(model, InputModalities))
       && ReadField(integer, node, OutputModalities) == Some(Get(model, OutputModalities))
    {
      forall field ensures ReadField(integer, node, field) == Some(Get(model, field)) {
        match field {
          case ThinkingLevels =>
          case MaxContextLength =>
          case MaxInputTokens =>
          case MaxOutputTokens =>
          case InputModalities =>
          case OutputModalities =>
        }
      }
    }
  }

  // ---------- writing ----------

  /** What a written field is, under its key. */
  ghost predicate Written(integer: IntegerReader, node: Tree, field: Field, value: FieldValue) {
    match field
    case ThinkingLevels => LevelsAt(node, value.strings)
    case MaxContextLength => value.integer.Some? && value.integer.value > 0 && NumberAt(integer, node, "max-context-length", value.integer.value)
    case MaxInputTokens => value.integer.Some? && value.integer.value > 0 && NumberAt(integer, node, "max-input-tokens", value.integer.value)
    case MaxOutputTokens => value.integer.Some? && value.integer.value > 0 && NumberAt(integer, node, "max-output-tokens", value.integer.value)
    case InputModalities => ListAt(node, "input-modalities", value.strings)
    case OutputModalities => ListAt(node, "output-modalities", value.strings)
  }

  /** An edit puts the value under the key of its field. */
  lemma WritesUnderItsKey(integer: IntegerReader, node: Tree, field: Field, value: FieldValue)
    requires Editable(node) && ReadField(integer, node, field).Some? && ReadsDecimals(integer)
    requires ValidValue(field, value) && WritableStrings(value)
    ensures EditField(node, field, value).Some? && Written(integer, EditField(node, field, value).value, field, value)
  {
    EditedFieldReads(integer, node, field, value);
    var next := EditField(node, field, value).value;
    EditedStaysFine(node, field, value);
    hide EditField, Editable, WritableStrings;
    ReadIsWritten(integer, next, field, value);
  }

  lemma EditedStaysFine(node: Tree, field: Field, value: FieldValue)
    requires Editable(node) && EditField(node, field, value).Some?
    ensures FineTree(EditField(node, field, value).value)
  {
    EditClean(node, field, value);
  }

  lemma ReadIsWritten(integer: IntegerReader, node: Tree, field: Field, value: FieldValue)
    requires FineTree(node) && ReadField(integer, node, field) == Some(value) && ValidValue(field, value)
    ensures Written(integer, node, field, value)
  {
    hide LevelsAt, NumberAt, ListAt, ReadLevels, OptionalPositiveInt, ScalarStringSequence, ValueOf;
    match field {
      case ThinkingLevels => LevelsRead(node, value.strings);
      case MaxContextLength => NumberReads(integer, node, "max-context-length", value.integer.value);
      case MaxInputTokens => NumberReads(integer, node, "max-input-tokens", value.integer.value);
      case MaxOutputTokens => NumberReads(integer, node, "max-output-tokens", value.integer.value);
      case InputModalities => ListReads(node, "input-modalities", value.strings);
      case OutputModalities => ListReads(node, "output-modalities", value.strings);
    }
  }

  // ---------- presentation ----------

  /** What a person has written around a value. */
  predicate SameComments(before: Tree, after: Tree) {
    && after.shell.headComment == before.shell.headComment && after.shell.lineComment == before.shell.lineComment
    && after.shell.footComment == before.shell.footComment
  }

  predicate Bare(node: Tree) {
    && node.shell.headComment == "" && node.shell.lineComment == "" && node.shell.footComment == "" && node.shell.anchor == ""
    && node.shell.style == if node.shell.kind == SequenceNode then 32 else 0
  }

  /** A value that is replaced leaves its comments, and its style if the new value is of the same kind; one that is
      added comes without comments, a list in flow style. */
  lemma PresentationStays(node: Tree, field: Field, value: FieldValue)
    requires Editable(node) && EditField(node, field, value).Some?
    ensures var key, next := FieldKey(field), EditField(node, field, value).value;
      && ValueOf(next, key).Some?
      && (ValueOf(node, key).Some? ==>
           var before, after := ValueOf(node, key).value, ValueOf(next, key).value;
           SameComments(before, after) && (after.shell.kind == before.shell.kind ==> after.shell.style == before.shell.style))
      && (ValueOf(node, key).None? ==> Bare(ValueOf(next, key).value))
  {
    CleanEntries(node);
    var made := MetadataValueNode(field, value).value;
    if field == ThinkingLevels && ValueOf(node, "thinking").Some? {
      LevelsNode(value);
      var current := ValueOf(node, "thinking").value;
      CleanValue(node, "thinking");
      CleanEntries(current);
      PutReads(current, "levels", made.content[1], "levels");
      hide KeyIndex, Put, Essence;
      SetValueReads(node, "thinking", Put(current, "levels", made.content[1]), "thinking");
    } else {
      PutReads(node, FieldKey(field), made, FieldKey(field));
      hide KeyIndex, Put, Essence;
      MadeIsBare(field, value);
    }
  }

  lemma MadeIsBare(field: Field, value: FieldValue)
    requires MetadataValueNode(field, value).Some?
    ensures Bare(MetadataValueNode(field, value).value)
  {
  }

  // ---------- numbers ----------

  predicate IsDigits(text: string) {
    text != "" && (forall i :: 0 <= i < |text| ==> '0' <= text[i] <= '9') && (|text| > 1 ==> text[0] != '0')
  }

  function NumberOf(text: string): nat
    requires forall i :: 0 <= i < |text| ==> '0' <= text[i] <= '9'
  {
    if text == "" then 0 else 10 * NumberOf(text[..|text| - 1]) + (text[|text| - 1] as int - '0' as int)
  }

  /** A number is written in decimal digits, without leading zeros. */
  lemma {:induction false} WrittenInDigits(n: nat)
    ensures IsDigits(Decimal(n)) && NumberOf(Decimal(n)) == n
  {
    var digit := ('0' as int + n % 10) as char;
    if n < 10 {
      assert Decimal(n) == [digit] && [digit][..0] == [];
    } else {
      WrittenInDigits(n / 10);
      var front := Decimal(n / 10);
      assert Decimal(n) == front + [digit] && (front + [digit])[..|front|] == front;
      NotZero(n / 10);
    }
  }

  lemma NotZero(n: nat)
    requires n > 0
    ensures Decimal(n) != "0"
  {
  }

  /** So there is a reader for every number that is written. */
  lemma DigitsCanBeRead()
    ensures ReadsDecimals((text: string) => if IsDigits(text) then Some(NumberOf(text)) else None)
  {
    forall n: nat {
      WrittenInDigits(n);
    }
    hide IsDigits, NumberOf, Decimal;
  }
}
