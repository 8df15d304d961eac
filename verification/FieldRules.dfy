/** Where each field of a model comes from, said with the entries of its sources: which number or list of the
    override, of the upstream catalog, of the configuration and of the public sources it is, and in what order
    they are asked. */
module FieldRules {
  import opened Options
  import opened YamlTree
  import opened CatalogValues
  import opened MetadataEdit
  import opened MetadataEnrich
  import opened MetadataStability

  // ---------- the rules ----------

  predicate Lists(values: seq<string>, word: string) {
    exists i :: 0 <= i < |values| && Lower(TrimSpace(values[i])) == word
  }

  /** Of a list of modalities only text and image are used, in this order. */
  function TextAndImage(values: seq<string>): seq<string> {
    (if Lists(values, "text") then ["text"] else []) + (if Lists(values, "image") then ["image"] else [])
  }

  /** The first number that is not zero, or else this one. */
  ghost predicate FirstNumber(numbers: seq<nat>, otherwise: nat, n: nat) {
    || (exists i :: 0 <= i < |numbers| && numbers[i] == n > 0 && forall k :: 0 <= k < i ==> numbers[k] == 0)
    || (n == otherwise && forall k :: 0 <= k < |numbers| ==> numbers[k] == 0)
  }

  ghost predicate FirstList(lists: seq<seq<string>>, otherwise: seq<string>, list: seq<string>) {
    || (exists i :: 0 <= i < |lists| && lists[i] == list != [] && forall k :: 0 <= k < i ==> lists[k] == [])
    || (list == otherwise && forall k :: 0 <= k < |lists| ==> lists[k] == [])
  }

  predicate UsesModelsdev(readings: seq<Reading>) {
    exists i :: 0 <= i < |readings| && readings[i].Modelsdev?
  }

  ghost predicate ContextFollows(before: nat, after: nat, sources: Sources) {
    if sources.override.maxContext > 0 then after == sources.override.maxContext
    else if before > 0 then after == before
    else if (sources.upstreamMeta || UsesModelsdev(sources.readings)) && sources.upstream.context > 0 then after == sources.upstream.context
    else
      FirstNumber(
        seq(|sources.readings|, i requires 0 <= i < |sources.readings| =>
          if sources.readings[i].Modelsdev? then sources.readings[i].context else 0), 0, after)
  }

  ghost predicate InputLimitFollows(before: nat, after: nat, sources: Sources) {
    if sources.override.maxInput > 0 then after == sources.override.maxInput
    else if before > 0 then after == before
    else if sources.upstreamMeta then after == sources.upstream.claudeMaxInput
    else after == 0
  }

  /** Only models.dev is not asked when the limit is configured. */
  ghost predicate OutputLimitFollows(before: nat, after: nat, sources: Sources) {
    if sources.override.maxOutput > 0 then after == sources.override.maxOutput
    else if before > 0 then
      FirstNumber(
        seq(|sources.readings|, i requires 0 <= i < |sources.readings| =>
          if sources.readings[i].Modelparams? then sources.readings[i].maxOutput else 0), before, after)
    else if (sources.upstreamMeta || UsesModelsdev(sources.readings)) && sources.upstream.maxTokens > 0 then after == sources.upstream.maxTokens
    else
      FirstNumber(seq(|sources.readings|, i requires 0 <= i < |sources.readings| => sources.readings[i].maxOutput), 0, after)
  }

  ghost predicate ThinkingFollows(before: seq<string>, after: seq<string>, sources: Sources) {
    if sources.override.thinking != [] then after == sources.override.thinking
    else if sources.upstreamMeta && sources.upstream.efforts != [] then after == sources.upstream.efforts
    else
      FirstList(
        seq(|sources.readings|, i requires 0 <= i < |sources.readings| =>
          if sources.readings[i].Modelparams? then sources.readings[i].levels else []), before, after)
  }

  ghost predicate InputsFollow(before: seq<string>, after: seq<string>, sources: Sources) {
    if sources.override.inputs != [] then after == sources.override.inputs
    else if sources.upstreamMeta && sources.upstream.inputs.Some? && TextAndImage(sources.upstream.inputs.value) != [] then
      after == TextAndImage(sources.upstream.inputs.value)
    else if before != [] then after == before
    else
      FirstList(
        seq(|sources.readings|, i requires 0 <= i < |sources.readings| =>
          if sources.readings[i].Modelsdev? then TextAndImage(sources.readings[i].inputs) else []), [], after)
  }

  ghost predicate OutputsFollow(before: seq<string>, after: seq<string>, sources: Sources) {
    if sources.override.outputs != [] then after == sources.override.outputs
    else if sources.upstreamMeta && sources.upstream.outputs.Some? && TextAndImage(sources.upstream.outputs.value) != [] then
      after == TextAndImage(sources.upstream.outputs.value)
    else if before != [] then after == before
    else
      FirstList(
        seq(|sources.readings|, i requires 0 <= i < |sources.readings| =>
          if sources.readings[i].Modelsdev? then TextAndImage(sources.readings[i].outputs) else []), [], after)
  }

  ghost predicate Follows(before: ModelRef, after: ModelRef, sources: Sources) {
    && after.name == before.name
    && ThinkingFollows(before.thinking, after.thinking, sources)
    && ContextFollows(before.maxContext, after.maxContext, sources)
    && InputLimitFollows(before.maxInput, after.maxInput, sources)
    && OutputLimitFollows(before.maxOutput, after.maxOutput, sources)
    && InputsFollow(before.inputs, after.inputs, sources)
    && OutputsFollow(before.outputs, after.outputs, sources)
  }

  // ---------- one field ----------

  /** What the reading supplies for a field that holds nothing, or only an existing value. */
  function Supply(reading: Reading, field: Field, gap: bool): FieldValue {
    if Authoritatively(reading, field) != NO_VALUE then Authoritatively(reading, field)
    else if gap then Secondarily(reading, field) else NO_VALUE
  }

  ghost predicate Silent(readings: seq<Reading>, field: Field, gap: bool) {
    forall k :: 0 <= k < |readings| ==> Supply(readings[k], field, gap) == NO_VALUE
  }

  ghost predicate FirstSupply(readings: seq<Reading>, field: Field, gap: bool, value: FieldValue) {
    exists i :: 0 <= i < |readings| && Supply(readings[i], field, gap) == value && value != NO_VALUE
      && forall k :: 0 <= k < i ==> Supply(readings[k], field, gap) == NO_VALUE
  }

  lemma {:induction false} ReadingsSupply(state: FieldState, readings: seq<Reading>, field: Field)
    requires Open(state.status)
    ensures var gap, after := state.status == Skipped, AfterReadings(state, readings, field);
      if Open(after.status) then after == state && Silent(readings, field, gap) else FirstSupply(readings, field, gap, after.value)
    decreases |readings|
  {
    if readings != [] {
      var n := |readings| - 1;
      ReadingsSupply(state, readings[..n], field);
      var before, after := AfterReadings(state, readings[..n], field), AfterReadings(state, readings, field);
      assert after == AfterReading(before, readings[n], field);
      OneSupplies(before, readings[n], field);
      SupplyNext(readings, field, state.status == Skipped, before.value);
      hide AfterReadings, AfterReading, Supply, Silent, FirstSupply;
    }
  }

  lemma SupplyNext(readings: seq<Reading>, field: Field, gap: bool, value: FieldValue)
    requires readings != []
    ensures var before, supply := readings[..|readings| - 1], Supply(readings[|readings| - 1], field, gap);
      && (Silent(before, field, gap) ==> if supply == NO_VALUE then Silent(readings, field, gap) else FirstSupply(readings, field, gap, supply))
      && (FirstSupply(before, field, gap, value) ==> FirstSupply(readings, field, gap, value))
  {
    hide Supply;
    var n := |readings| - 1;
    assert forall k :: 0 <= k < n ==> readings[..n][k] == readings[k];
    if FirstSupply(readings[..n], field, gap, value) {
      var i :| 0 <= i < n && Supply(readings[..n][i], field, gap) == value && value != NO_VALUE
        && forall k :: 0 <= k < i ==> Supply(readings[..n][k], field, gap) == NO_VALUE;
      assert Supply(readings[i], field, gap) == value;
    }
  }

  lemma OneSupplies(before: FieldState, reading: Reading, field: Field)
    ensures var after := AfterReading(before, reading, field);
      if Open(before.status) then
        var value := Supply(reading, field, before.status == Skipped);
        if value == NO_VALUE then after == before else after.value == value && !Open(after.status)
      else after == before
  {
    hide Authoritatively, Secondarily;
  }

  // ---------- the six fields ----------

  lemma NumberSupplied(readings: seq<Reading>, field: Field, gap: bool, state: FieldState, numbers: seq<nat>)
    requires IsLimit(field) && Open(state.status) && gap == (state.status == Skipped) && |numbers| == |readings|
    requires forall k :: 0 <= k < |readings| ==> Supply(readings[k], field, gap) == Limit(numbers[k])
    ensures FirstNumber(numbers, Amount(state.value), Amount(AfterReadings(state, readings, field).value))
  {
    hide Supply, AfterReadings;
    ReadingsSupply(state, readings, field);
  }

  lemma ListSupplied(readings: seq<Reading>, field: Field, gap: bool, state: FieldState, lists: seq<seq<string>>)
    requires !IsLimit(field) && Open(state.status) && gap == (state.status == Skipped) && |lists| == |readings|
    requires forall k :: 0 <= k < |readings| ==> Supply(readings[k], field, gap) == List(lists[k])
    ensures FirstList(lists, state.value.strings, AfterReadings(state, readings, field).value.strings)
  {
    hide Supply, AfterReadings;
    ReadingsSupply(state, readings, field);
  }

  lemma CanonicalIs(values: seq<string>)
    ensures CanonicalModalities(values) == TextAndImage(values)
  {
    hide TrimSpace;
    assert forall word :: Mentions(values, word) <==> Lists(values, word) by {
      hide Lower;
    }
  }

  lemma ContextIs(model: ModelRef, sources: Sources)
    ensures ContextFollows(model.maxContext, Enriched(model, sources).maxContext, sources)
  {
    hide AfterReadings, FirstNumber;
    var state := AfterUpstream(model, sources, MaxContextLength);
    if state.status == Skipped {
      NumberSupplied(sources.readings, MaxContextLength, true, state,
        seq(|sources.readings|, i requires 0 <= i < |sources.readings| => if sources.readings[i].Modelsdev? then sources.readings[i].context else 0));
    } else {
      Unmoved(sources.readings, MaxContextLength, state);
    }
  }

  lemma InputLimitIs(model: ModelRef, sources: Sources)
    ensures InputLimitFollows(model.maxInput, Enriched(model, sources).maxInput, sources)
  {
    hide AfterReadings;
    Unmoved(sources.readings, MaxInputTokens, AfterUpstream(model, sources, MaxInputTokens));
  }

  lemma OutputLimitIs(model: ModelRef, sources: Sources)
    ensures OutputLimitFollows(model.maxOutput, Enriched(model, sources).maxOutput, sources)
  {
    hide AfterReadings, FirstNumber;
    var state := AfterUpstream(model, sources, MaxOutputTokens);
    if state.status == Skipped {
      NumberSupplied(sources.readings, MaxOutputTokens, true, state,
        seq(|sources.readings|, i requires 0 <= i < |sources.readings| => sources.readings[i].maxOutput));
    } else if state.status == Preserved {
      NumberSupplied(sources.readings, MaxOutputTokens, false, state,
        seq(|sources.readings|, i requires 0 <= i < |sources.readings| => if sources.readings[i].Modelparams? then sources.readings[i].maxOutput else 0));
    } else {
      ClosedStays(state, sources.readings, MaxOutputTokens);
    }
  }

  lemma ThinkingIs(model: ModelRef, sources: Sources)
    ensures ThinkingFollows(model.thinking, Enriched(model, sources).thinking, sources)
  {
    hide AfterReadings, FirstList;
    var state := AfterUpstream(model, sources, ThinkingLevels);
    if Open(state.status) {
      ListSupplied(sources.readings, ThinkingLevels, state.status == Skipped, state,
        seq(|sources.readings|, i requires 0 <= i < |sources.readings| => if sources.readings[i].Modelparams? then sources.readings[i].levels else []));
    } else {
      ClosedStays(state, sources.readings, ThinkingLevels);
    }
  }

  lemma InputsAre(model: ModelRef, sources: Sources)
    ensures InputsFollow(model.inputs, Enriched(model, sources).inputs, sources)
  {
    forall values {
      CanonicalIs(values);
    }
    assert TextAndImage([]) == [];
    hide AfterReadings, FirstList, CanonicalModalities, TextAndImage;
    var state := AfterUpstream(model, sources, InputModalities);
    if state.status == Skipped {
      ListSupplied(sources.readings, InputModalities, true, state,
        seq(|sources.readings|, i requires 0 <= i < |sources.readings| =>
          if sources.readings[i].Modelsdev? then TextAndImage(sources.readings[i].inputs) else []));
    } else {
      Unmoved(sources.readings, InputModalities, state);
    }
  }

  lemma OutputsAre(model: ModelRef, sources: Sources)
    ensures OutputsFollow(model.outputs, Enriched(model, sources).outputs, sources)
  {
    forall values {
      CanonicalIs(values);
    }
    assert TextAndImage([]) == [];
    hide AfterReadings, FirstList, CanonicalModalities, TextAndImage;
    var state := AfterUpstream(model, sources, OutputModalities);
    if state.status == Skipped {
      ListSupplied(sources.readings, OutputModalities, true, state,
        seq(|sources.readings|, i requires 0 <= i < |sources.readings| =>
          if sources.readings[i].Modelsdev? then TextAndImage(sources.readings[i].outputs) else []));
    } else {
      Unmoved(sources.readings, OutputModalities, state);
    }
  }

  /** No reading supplies this field when it has a value, nor the input limit at all. */
  lemma Unmoved(readings: seq<Reading>, field: Field, state: FieldState)
    requires field != ThinkingLevels && field != MaxOutputTokens
    requires field == MaxInputTokens || state.status != Skipped
    ensures AfterReadings(state, readings, field).value == state.value
  {
    if Open(state.status) {
      ReadingsSupply(state, readings, field);
    } else {
      ClosedStays(state, readings, field);
    }
  }

  /** Resolution follows the rules. */
  lemma ResolutionFollows(model: ModelRef, sources: Sources)
    ensures Follows(model, Enriched(model, sources), sources)
  {
    ThinkingIs(model, sources);
    ContextIs(model, sources);
    InputLimitIs(model, sources);
    OutputLimitIs(model, sources);
    InputsAre(model, sources);
    OutputsAre(model, sources);
    hide Resolved, ThinkingFollows, ContextFollows, InputLimitFollows, OutputLimitFollows, InputsFollow, OutputsFollow;
  }

  lemma FirstNumberIs(numbers: seq<nat>, otherwise: nat, one: nat, two: nat)
    requires FirstNumber(numbers, otherwise, one) && FirstNumber(numbers, otherwise, two)
    ensures one == two
  {
  }

  lemma FirstListIs(lists: seq<seq<string>>, otherwise: seq<string>, one: seq<string>, two: seq<string>)
    requires FirstList(lists, otherwise, one) && FirstList(lists, otherwise, two)
    ensures one == two
  {
  }

  /** The rules leave nothing open. */
  lemma FollowsIsExact(before: ModelRef, one: ModelRef, two: ModelRef, sources: Sources)
    requires Follows(before, one, sources) && Follows(before, two, sources)
    ensures one == two
  {
    forall numbers, otherwise, a, b | FirstNumber(numbers, otherwise, a) && FirstNumber(numbers, otherwise, b) ensures a == b {
      FirstNumberIs(numbers, otherwise, a, b);
    }
    forall lists, otherwise, a, b | FirstList(lists, otherwise, a) && FirstList(lists, otherwise, b) ensures a == b {
      FirstListIs(lists, otherwise, a, b);
    }
    hide FirstNumber, FirstList, TextAndImage;
  }

  // ---------- provenance ----------

  predicate FromReading(readings: seq<Reading>, source: string, authoritative: bool) {
    exists i :: 0 <= i < |readings| && readings[i].id == source && readings[i].Modelparams? == authoritative
  }

  /** What is reported about a field: where its value is said to come from is where it comes from. */
  ghost predicate Reported(model: ModelRef, sources: Sources, field: Field, state: FieldState) {
    match state.status
    case Overridden => state.source == "manual override" && state.value == Get(sources.override, field)
    case FromUpstream => state.source == "upstream /models"
    case Preserved => state.source == "existing config" && state.value == Get(model, field)
    case Authoritative => FromReading(sources.readings, state.source, true)
    case Completed => FromReading(sources.readings, state.source, false)
    case Skipped => state.source == "" && state.value == NO_VALUE
  }

  lemma {:induction false} ReportedAfter(start: FieldState, readings: seq<Reading>, field: Field)
    ensures var after := AfterReadings(start, readings, field);
      || after == start || (after.status == Authoritative && FromReading(readings, after.source, true))
      || (after.status == Completed && FromReading(readings, after.source, false))
    decreases |readings|
  {
    if readings != [] {
      var n := |readings| - 1;
      ReportedAfter(start, readings[..n], field);
      forall source, authoritative {
        StillFrom(readings, source, authoritative);
      }
      OneReports(AfterReadings(start, readings[..n], field), readings[n], field);
      hide FromReading, AfterReading;
    }
  }

  lemma StillFrom(readings: seq<Reading>, source: string, authoritative: bool)
    requires readings != []
    ensures var n := |readings| - 1;
      && (FromReading(readings[..n], source, authoritative) ==> FromReading(readings, source, authoritative))
      && (readings[n].id == source && readings[n].Modelparams? == authoritative ==> FromReading(readings, source, authoritative))
  {
    assert forall i :: 0 <= i < |readings| - 1 ==> readings[..|readings| - 1][i] == readings[i];
  }

  lemma OneReports(before: FieldState, reading: Reading, field: Field)
    ensures var after := AfterReading(before, reading, field);
      || after == before || (after.status == Authoritative && after.source == reading.id && reading.Modelparams?)
      || (after.status == Completed && after.source == reading.id && !reading.Modelparams?)
  {
  }

  lemma ProvenanceExactly(model: ModelRef, sources: Sources, field: Field)
    ensures Reported(model, sources, field, Resolved(model, sources, field))
    ensures Resolved(model, sources, field).status == Skipped <==> Resolved(model, sources, field).value == NO_VALUE
  {
    var start := AfterUpstream(model, sources, field);
    ReportedAfter(start, sources.readings, field);
    if Open(start.status) {
      ReadingsSupply(start, sources.readings, field);
    } else {
      ClosedStays(start, sources.readings, field);
    }
    hide AfterReadings, Get, Offered, FromReading, FirstSupply, Silent;
  }
}
