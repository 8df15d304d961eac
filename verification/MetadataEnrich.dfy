/** Metadata resolution: which of the override, the upstream catalog, the existing value and the ordered
    public sources supplies each field of a model. The source works field states and the model in place,
    source by source; the rule below says for each field where its value comes from. */
module MetadataEnrich {
  import opened Options
  import opened MetadataEdit
  import opened CatalogValues

  datatype ModelRef = ModelRef(
    name: string, thinking: seq<string>, maxContext: nat, maxInput: nat, maxOutput: nat,
    inputs: seq<string>, outputs: seq<string>)

  const NO_VALUE := FieldValue(None, [])

  function Limit(n: nat): FieldValue {
    if n > 0 then FieldValue(Some(n), []) else NO_VALUE
  }

  function List(values: seq<string>): FieldValue {
    FieldValue(None, values)
  }

  function Get(model: ModelRef, field: Field): FieldValue {
    match field
    case ThinkingLevels => List(model.thinking)
    case MaxContextLength => Limit(model.maxContext)
    case MaxInputTokens => Limit(model.maxInput)
    case MaxOutputTokens => Limit(model.maxOutput)
    case InputModalities => List(model.inputs)
    case OutputModalities => List(model.outputs)
  }

  /** What the upstream catalog says about a model; zero or empty where it says nothing. Modalities are kept
      as the catalog has them, None where it has no list, and normalised when they are used. */
  datatype Upstream = Upstream(
    efforts: Efforts, context: nat, maxTokens: nat, claudeMaxInput: nat,
    inputs: Option<seq<string>>, outputs: Option<seq<string>>)

  function Values(list: Option<seq<string>>): seq<string> {
    if list.Some? then list.value else []
  }

  /** What a configured public source says about a model; empty where it says nothing. */
  datatype Reading =
    | Modelparams(id: string, levels: Levels, maxOutput: nat)
    | Modelsdev(id: string, context: nat, maxOutput: nat, inputs: seq<string>, outputs: seq<string>)

  /** Lists of an override are normalised when the configuration is read. */
  predicate CompiledLists(model: ModelRef) {
    && AreLevels(model.thinking) && InOrder(model.thinking)
    && AreModalities(model.inputs) && AreModalities(model.outputs)
  }

  type Override = model: ModelRef | CompiledLists(model) witness ModelRef("", [], 0, 0, 0, [], [])

  /** What is configured and known for one model. */
  datatype Sources = Sources(upstreamMeta: bool, upstream: Upstream, readings: seq<Reading>, override: Override)

  datatype Status = Skipped | Preserved | FromUpstream | Authoritative | Completed | Overridden

  datatype FieldState = FieldState(value: FieldValue, source: string, status: Status)

  const UNSET := FieldState(NO_VALUE, "", Skipped)
  const EXISTING := "existing config"
  const UPSTREAM := "upstream /models"
  const MANUAL := "manual override"

  type States = map<Field, FieldState>

  // ---------- the rule ----------

  predicate HasModelsdev(readings: seq<Reading>) {
    exists i :: 0 <= i < |readings| && readings[i].Modelsdev?
  }

  function Authoritatively(reading: Reading, field: Field): FieldValue {
    if !reading.Modelparams? then NO_VALUE
    else if field == ThinkingLevels then List(reading.levels)
    else if field == MaxOutputTokens then Limit(reading.maxOutput)
    else NO_VALUE
  }

  function Secondarily(reading: Reading, field: Field): FieldValue {
    if !reading.Modelsdev? then NO_VALUE
    else
      match field
      case MaxContextLength => Limit(reading.context)
      case MaxOutputTokens => Limit(reading.maxOutput)
      case InputModalities => List(CanonicalModalities(reading.inputs))
      case OutputModalities => List(CanonicalModalities(reading.outputs))
      case _ => NO_VALUE
  }

  /** The state of a field after the public sources, given its state before them. An authoritative source
      may replace an existing value but nothing that any source supplied; a secondary one only fills a gap. */
  function AfterReadings(state: FieldState, readings: seq<Reading>, field: Field): FieldState
    decreases |readings|
  {
    if readings == [] then state
    else AfterReading(AfterReadings(state, readings[..|readings| - 1], field), readings[|readings| - 1], field)
  }

  function AfterReading(state: FieldState, reading: Reading, field: Field): FieldState {
    if (state.status == Skipped || state.status == Preserved) && Authoritatively(reading, field) != NO_VALUE then
      FieldState(Authoritatively(reading, field), reading.id, Authoritative)
    else if state.status == Skipped && Secondarily(reading, field) != NO_VALUE then
      FieldState(Secondarily(reading, field), reading.id, Completed)
    else state
  }

  function Existing(model: ModelRef, field: Field): FieldState {
    if Get(model, field) != NO_VALUE then FieldState(Get(model, field), EXISTING, Preserved) else UNSET
  }

  /** What the upstream catalog may set: with upstream metadata enabled everything, otherwise the two limits
      that a models.dev source would fill. */
  function Offered(sources: Sources, field: Field): FieldValue {
    var upstream := sources.upstream;
    if sources.upstreamMeta then
      match field
      case ThinkingLevels => List(upstream.efforts)
      case MaxContextLength => Limit(upstream.context)
      case MaxInputTokens => Limit(upstream.claudeMaxInput)
      case MaxOutputTokens => Limit(upstream.maxTokens)
      case InputModalities => List(CanonicalModalities(Values(upstream.inputs)))
      case OutputModalities => List(CanonicalModalities(Values(upstream.outputs)))
    else if HasModelsdev(sources.readings) then
      match field
      case MaxContextLength => Limit(upstream.context)
      case MaxOutputTokens => Limit(upstream.maxTokens)
      case _ => NO_VALUE
    else NO_VALUE
  }

  /** Upstream lists replace existing ones, upstream limits only fill gaps. */
  function AfterUpstream(model: ModelRef, sources: Sources, field: Field): FieldState {
    if Offered(sources, field) != NO_VALUE && (!IsLimit(field) || Get(model, field) == NO_VALUE) then
      FieldState(Offered(sources, field), UPSTREAM, FromUpstream)
    else Existing(model, field)
  }

  function Resolved(model: ModelRef, sources: Sources, field: Field): FieldState {
    if Get(sources.override, field) != NO_VALUE then FieldState(Get(sources.override, field), MANUAL, Overridden)
    else AfterReadings(AfterUpstream(model, sources, field), sources.readings, field)
  }

  // ---------- the algorithm ----------

  /** A value of the kind the field holds. */
  predicate Fits(field: Field, value: FieldValue) {
    if IsLimit(field) then value.strings == [] && (value.integer.Some? ==> value.integer.value > 0) else value.integer.None?
  }

  function With(model: ModelRef, field: Field, value: FieldValue): ModelRef
    requires Fits(field, value)
  {
    var limit := if value.integer.Some? then value.integer.value else 0;
    match field
    case ThinkingLevels => model.(thinking := value.strings)
    case MaxContextLength => model.(maxContext := limit)
    case MaxInputTokens => model.(maxInput := limit)
    case MaxOutputTokens => model.(maxOutput := limit)
    case InputModalities => model.(inputs := value.strings)
    case OutputModalities => model.(outputs := value.strings)
  }

  lemma GetWith(model: ModelRef, field: Field, value: FieldValue, other: Field)
    requires Fits(field, value)
    ensures Get(With(model, field, value), other) == if other == field then value else Get(model, other)
    ensures With(model, field, value).name == model.name
  {
  }

  lemma GetFits(model: ModelRef, field: Field)
    ensures Fits(field, Get(model, field))
  {
  }

  function StateOf(states: States, field: Field): FieldState {
    if field in states then states[field] else UNSET
  }

  /** A field is set exactly when the model has a value for it, and then both hold the same one. */
  ghost predicate Consistent(model: ModelRef, states: States) {
    forall field :: StateAgrees(model, states, field)
  }

  predicate StateAgrees(model: ModelRef, states: States, field: Field) {
    && field in states && states[field].value == Get(model, field)
    && (states[field].status == Skipped <==> Get(model, field) == NO_VALUE)
  }

  /** The first n fields are in the state the rule gives them, the others as they were. */
  ghost predicate Stage(rule: Field -> FieldState, before: States, after: States, n: nat) {
    && n <= |FIELDS|
    && (forall k :: 0 <= k < |FIELDS| ==> StateOf(after, FIELDS[k]) == if k < n then rule(FIELDS[k]) else StateOf(before, FIELDS[k]))
  }

  lemma StageNext(rule: Field -> FieldState, before: States, after: States, n: nat, next: States)
    requires Stage(rule, before, after, n) && n < |FIELDS|
    requires next == after || next == after[FIELDS[n] := rule(FIELDS[n])]
    requires StateOf(next, FIELDS[n]) == rule(FIELDS[n])
    ensures Stage(rule, before, next, n + 1)
  {
  }

  lemma StageAll(rule: Field -> FieldState, before: States, after: States, field: Field)
    requires Stage(rule, before, after, |FIELDS|)
    ensures StateOf(after, field) == rule(field)
  {
    var n := FieldHasPlace(field);
  }

  /** The model and the states of its fields, updated in place. */
  class Resolution {
    var model: ModelRef
    var states: States

    ghost predicate Valid()
      reads this
    {
      Consistent(model, states)
    }

    constructor (model: ModelRef)
      ensures Valid() && this.model == model
      ensures forall field :: StateOf(states, field) == Existing(model, field)
    {
      this.model, states := model, map[];
      new;
      var i := 0;
      while i < |FIELDS|
        invariant i <= |FIELDS| && this.model == model
        invariant forall k :: 0 <= k < i ==> FIELDS[k] in states && states[FIELDS[k]] == Existing(model, FIELDS[k])
      {
        states := states[FIELDS[i] := if Get(model, FIELDS[i]) != NO_VALUE then FieldState(Get(model, FIELDS[i]), EXISTING, Preserved) else UNSET];
        i := i + 1;
      }
      forall field ensures field in states && states[field] == Existing(model, field) {
        var n := FieldHasPlace(field);
      }
    }

    /** Gives a field a value together with its provenance. */
    method SetField(field: Field, value: FieldValue, source: string, status: Status)
      requires Valid() && Fits(field, value) && value != NO_VALUE && status != Skipped
      modifies this
      ensures Valid() && model.name == old(model.name)
      ensures states == old(states)[field := FieldState(value, source, status)]
    {
      ghost var before, states0 := model, states;
      model := With(model, field, value);
      states := states[field := FieldState(value, source, status)];
      forall other ensures StateAgrees(model, states, other) {
        assert StateAgrees(before, states0, other);
        GetWith(before, field, value, other);
      }
    }

    /** One offer of the upstream catalog: a list replaces what is there, a limit only fills a gap. */
    method Offer(field: Field, value: FieldValue)
      requires Valid() && Fits(field, value)
      modifies this
      ensures Valid() && model.name == old(model.name)
      ensures states == if value != NO_VALUE && (!IsLimit(field) || Get(old(model), field) == NO_VALUE)
        then old(states)[field := FieldState(value, UPSTREAM, FromUpstream)] else old(states)
    {
      if value != NO_VALUE && (!IsLimit(field) || Get(model, field) == NO_VALUE) {
        SetField(field, value, UPSTREAM, FromUpstream);
      }
    }

    /** The k-th offer, with the fields before it settled and the others still as they were in `original`. */
    method OfferNext(ghost k: nat, field: Field, value: FieldValue, ghost original: ModelRef, ghost sources: Sources, ghost start: States)
      requires Valid() && k < |FIELDS| && FIELDS[k] == field && value == Offered(sources, field)
      requires forall f :: StateOf(start, f) == Existing(original, f)
      requires Stage(f => AfterUpstream(original, sources, f), start, states, k)
      modifies this
      ensures Valid() && model.name == old(model.name)
      ensures Stage(f => AfterUpstream(original, sources, f), start, states, k + 1)
    {
      ghost var was := states;
      assert StateAgrees(model, states, field) && StateOf(states, field) == Existing(original, field);
      OfferedFits(sources, field);
      Offer(field, value);
      StageNext(f => AfterUpstream(original, sources, f), start, was, k, states);
    }

    method ApplyUpstreamFields(upstream: Upstream, ghost original: ModelRef, ghost sources: Sources)
      requires Valid() && sources.upstreamMeta && sources.upstream == upstream
      requires forall field :: StateOf(states, field) == Existing(original, field)
      modifies this
      ensures Valid() && model.name == old(model.name)
      ensures forall field :: StateOf(states, field) == AfterUpstream(original, sources, field)
    {
      hide Stage, Get, Existing, AfterUpstream, Consistent;
      ghost var start := states;
      StageNone(f => AfterUpstream(original, sources, f), start);
      OfferNext(0, ThinkingLevels, List(upstream.efforts), original, sources, start);
      OfferNext(1, MaxContextLength, Limit(upstream.context), original, sources, start);
      OfferNext(2, MaxInputTokens, Limit(upstream.claudeMaxInput), original, sources, start);
      OfferNext(3, MaxOutputTokens, Limit(upstream.maxTokens), original, sources, start);
      var inputs := CpaModalities(Values(upstream.inputs));
      OfferNext(4, InputModalities, List(inputs), original, sources, start);
      var outputs := CpaModalities(Values(upstream.outputs));
      OfferNext(5, OutputModalities, List(outputs), original, sources, start);
      forall field {
        StageAll(f => AfterUpstream(original, sources, f), start, states, field);
      }
    }

    method ApplyUpstreamLimits(upstream: Upstream, ghost original: ModelRef, ghost sources: Sources)
      requires Valid() && !sources.upstreamMeta && HasModelsdev(sources.readings) && sources.upstream == upstream
      requires forall field :: StateOf(states, field) == Existing(original, field)
      modifies this
      ensures Valid() && model.name == old(model.name)
      ensures forall field :: StateOf(states, field) == AfterUpstream(original, sources, field)
    {
      assert StateAgrees(model, states, MaxContextLength) && StateOf(states, MaxContextLength) == Existing(original, MaxContextLength);
      Offer(MaxContextLength, Limit(upstream.context));
      assert StateAgrees(model, states, MaxOutputTokens) && StateOf(states, MaxOutputTokens) == Existing(original, MaxOutputTokens);
      Offer(MaxOutputTokens, Limit(upstream.maxTokens));
    }

    /** One public source. */
    method ApplyReading(reading: Reading)
      requires Valid()
      modifies this
      ensures Valid() && model.name == old(model.name)
      ensures forall field :: StateOf(states, field) == AfterReading(StateOf(old(states), field), reading, field)
    {
      match reading {
        case Modelparams(_, _, _) => ApplyModelparams(reading);
        case Modelsdev(_, _, _, _, _) => ApplyModelsdev(reading);
      }
    }

    /** What is open is decided before the source is consulted. */
    method ApplyModelparams(reading: Reading)
      requires Valid() && reading.Modelparams?
      modifies this
      ensures Valid() && model.name == old(model.name)
      ensures forall field :: StateOf(states, field) == AfterReading(StateOf(old(states), field), reading, field)
    {
      assert StateAgrees(model, states, ThinkingLevels) && StateAgrees(model, states, MaxOutputTokens);
      hide With, Get, Consistent, StateAgrees;
      var thinkingOpen := states[ThinkingLevels].status == Skipped || states[ThinkingLevels].status == Preserved;
      var outputOpen := states[MaxOutputTokens].status == Skipped || states[MaxOutputTokens].status == Preserved;
      if thinkingOpen && reading.levels != [] {
        SetField(ThinkingLevels, List(reading.levels), reading.id, Authoritative);
      }
      if outputOpen && reading.maxOutput > 0 {
        SetField(MaxOutputTokens, Limit(reading.maxOutput), reading.id, Authoritative);
      }
    }

    method ApplyModelsdev(reading: Reading)
      requires Valid() && reading.Modelsdev?
      modifies this
      ensures Valid() && model.name == old(model.name)
      ensures forall field :: StateOf(states, field) == AfterReading(StateOf(old(states), field), reading, field)
    {
      hide Stage, Get, Consistent, AfterReading;
      ghost var start := states;
      StageNone(f => AfterReading(StateOf(start, f), reading, f), start);
      NothingToFill(0, reading, states, start);
      FillNext(1, MaxContextLength, Limit(reading.context), reading, start);
      NothingToFill(2, reading, states, start);
      FillNext(3, MaxOutputTokens, Limit(reading.maxOutput), reading, start);
      var inputs := CpaModalities(reading.inputs);
      FillNext(4, InputModalities, List(inputs), reading, start);
      var outputs := CpaModalities(reading.outputs);
      FillNext(5, OutputModalities, List(outputs), reading, start);
      forall field {
        StageAll(f => AfterReading(StateOf(start, f), reading, f), start, states, field);
      }
    }

    method FillNext(ghost k: nat, field: Field, value: FieldValue, reading: Reading, ghost start: States)
      requires Valid() && reading.Modelsdev? && k < |FIELDS| && FIELDS[k] == field && value == Secondarily(reading, field)
      requires Stage(f => AfterReading(StateOf(start, f), reading, f), start, states, k)
      modifies this
      ensures Valid() && model.name == old(model.name)
      ensures Stage(f => AfterReading(StateOf(start, f), reading, f), start, states, k + 1)
    {
      ghost var was := states;
      Fill(field, value, reading.id);
      StageNext(f => AfterReading(StateOf(start, f), reading, f), start, was, k, states);
    }

    method Fill(field: Field, value: FieldValue, source: string)
      requires Valid() && Fits(field, value)
      modifies this
      ensures Valid() && model.name == old(model.name)
      ensures states == if value != NO_VALUE && StateOf(old(states), field).status == Skipped
        then old(states)[field := FieldState(value, source, Completed)] else old(states)
    {
      assert StateAgrees(model, states, field);
      if value == NO_VALUE || states[field].status != Skipped {
        return;
      }
      SetField(field, value, source, Completed);
    }

    method Override(field: Field, value: FieldValue)
      requires Valid() && Fits(field, value)
      modifies this
      ensures Valid() && model.name == old(model.name)
      ensures states == if value != NO_VALUE then old(states)[field := FieldState(value, MANUAL, Overridden)] else old(states)
    {
      if value != NO_VALUE {
        SetField(field, value, MANUAL, Overridden);
      }
    }

    method OverrideNext(ghost k: nat, field: Field, value: FieldValue, ghost override: ModelRef, ghost start: States)
      requires Valid() && k < |FIELDS| && FIELDS[k] == field && value == Get(override, field)
      requires Stage(f => AfterOverride(override, start, f), start, states, k)
      modifies this
      ensures Valid() && model.name == old(model.name)
      ensures Stage(f => AfterOverride(override, start, f), start, states, k + 1)
    {
      ghost var was := states;
      GetFits(override, field);
      Override(field, value);
      StageNext(f => AfterOverride(override, start, f), start, was, k, states);
    }

    method ApplyOverrides(override: ModelRef)
      requires Valid()
      modifies this
      ensures Valid() && model.name == old(model.name)
      ensures forall field :: StateOf(states, field) == AfterOverride(override, old(states), field)
    {
      hide Stage, Consistent, AfterOverride;
      ghost var start := states;
      StageNone(f => AfterOverride(override, start, f), start);
      OverrideNext(0, ThinkingLevels, List(override.thinking), override, start);
      OverrideNext(1, MaxContextLength, Limit(override.maxContext), override, start);
      OverrideNext(2, MaxInputTokens, Limit(override.maxInput), override, start);
      OverrideNext(3, MaxOutputTokens, Limit(override.maxOutput), override, start);
      OverrideNext(4, InputModalities, List(override.inputs), override, start);
      OverrideNext(5, OutputModalities, List(override.outputs), override, start);
      forall field {
        StageAll(f => AfterOverride(override, start, f), start, states, field);
      }
    }

    /** The whole resolution of one model, whatever the order of its sources. */
    method Resolve(sources: Sources)
      requires Valid() && forall field :: StateOf(states, field) == Existing(model, field)
      modifies this
      ensures Valid() && model.name == old(model.name)
      ensures forall field :: StateOf(states, field) == Resolved(old(model), sources, field)
    {
      hide Get, Consistent, Offered, AfterReading, HasModelsdev;
      ghost var original := model;
      if sources.upstreamMeta {
        ApplyUpstreamFields(sources.upstream, original, sources);
      } else {
        var secondary := AnyModelsdev(sources.readings);
        if secondary {
          ApplyUpstreamLimits(sources.upstream, original, sources);
        } else {
          NothingOffered(original, sources);
        }
      }
      var i := 0;
      while i < |sources.readings|
        invariant i <= |sources.readings| && Valid() && model.name == original.name
        invariant forall field :: StateOf(states, field) == AfterReadings(AfterUpstream(original, sources, field), sources.readings[..i], field)
      {
        ghost var was := states;
        ApplyReading(sources.readings[i]);
        assert sources.readings[..i + 1][..i] == sources.readings[..i];
        i := i + 1;
      }
      assert sources.readings[..i] == sources.readings;
      ApplyOverrides(sources.override);
    }

    method AnyModelsdev(readings: seq<Reading>) returns (any: bool)
      ensures any <==> HasModelsdev(readings)
    {
      any := false;
      var i := 0;
      while i < |readings|
        invariant i <= |readings| && (any <==> exists k :: 0 <= k < i && readings[k].Modelsdev?)
      {
        if readings[i].Modelsdev? {
          any := true;
        }
        i := i + 1;
      }
    }
  }

  lemma NothingToFill(k: nat, reading: Reading, states: States, start: States)
    requires reading.Modelsdev? && (k == 0 || k == 2) && Stage(f => AfterReading(StateOf(start, f), reading, f), start, states, k)
    ensures Stage(f => AfterReading(StateOf(start, f), reading, f), start, states, k + 1)
  {
    StageNext(f => AfterReading(StateOf(start, f), reading, f), start, states, k, states);
  }

  function AfterOverride(override: ModelRef, states: States, field: Field): FieldState {
    if Get(override, field) != NO_VALUE then FieldState(Get(override, field), MANUAL, Overridden) else StateOf(states, field)
  }

  lemma OfferedFits(sources: Sources, field: Field)
    ensures Fits(field, Offered(sources, field))
  {
  }

  lemma NothingOffered(model: ModelRef, sources: Sources)
    requires !sources.upstreamMeta && !HasModelsdev(sources.readings)
    ensures forall field :: AfterUpstream(model, sources, field) == Existing(model, field)
  {
  }

  lemma StageNone(rule: Field -> FieldState, states: States)
    ensures Stage(rule, states, states, 0)
  {
  }

  // ---------- all models ----------

  function Enriched(model: ModelRef, sources: Sources): ModelRef
  {
    var value := (field: Field) => Resolved(model, sources, field).value;
    ModelRef(model.name, value(ThinkingLevels).strings, Amount(value(MaxContextLength)), Amount(value(MaxInputTokens)),
      Amount(value(MaxOutputTokens)), value(InputModalities).strings, value(OutputModalities).strings)
  }

  function Amount(value: FieldValue): nat {
    if value.integer.Some? && value.integer.value > 0 then value.integer.value else 0
  }

  /** A model is what its fields read. */
  lemma SameFields(one: ModelRef, two: ModelRef)
    requires one.name == two.name && forall field :: Get(one, field) == Get(two, field)
    ensures one == two
  {
    assert Get(one, ThinkingLevels) == Get(two, ThinkingLevels) && Get(one, MaxContextLength) == Get(two, MaxContextLength);
    assert Get(one, MaxInputTokens) == Get(two, MaxInputTokens) && Get(one, MaxOutputTokens) == Get(two, MaxOutputTokens);
    assert Get(one, InputModalities) == Get(two, InputModalities) && Get(one, OutputModalities) == Get(two, OutputModalities);
  }

  lemma ResolvedFits(model: ModelRef, sources: Sources, field: Field)
    ensures Fits(field, Resolved(model, sources, field).value)
  {
    GetFits(sources.override, field);
    GetFits(model, field);
    OfferedFits(sources, field);
    ReadingsFit(AfterUpstream(model, sources, field), sources.readings, field);
  }

  lemma {:induction false} ReadingsFit(state: FieldState, readings: seq<Reading>, field: Field)
    requires Fits(field, state.value)
    ensures Fits(field, AfterReadings(state, readings, field).value)
    decreases |readings|
  {
    if readings != [] {
      ReadingsFit(state, readings[..|readings| - 1], field);
    }
  }

  lemma EnrichedReads(model: ModelRef, sources: Sources, field: Field)
    ensures Get(Enriched(model, sources), field) == Resolved(model, sources, field).value
    ensures Enriched(model, sources).name == model.name
  {
    ResolvedFits(model, sources, field);
    hide Resolved;
  }

  /** The report on one model. */
  datatype Report = Report(model: string, states: States)

  /** Updates the models in place and reports where every field came from. */
  method EnrichModels(models: array<ModelRef>, known: string -> Sources) returns (reports: seq<Report>)
    modifies models
    ensures forall i :: 0 <= i < models.Length ==> models[i] == Enriched(old(models[i]), known(old(models[i]).name))
    ensures |reports| == models.Length
    ensures forall i :: 0 <= i < models.Length ==> reports[i].model == models[i].name
    ensures forall i, field :: 0 <= i < models.Length ==>
      StateOf(reports[i].states, field) == Resolved(old(models[i]), known(old(models[i]).name), field)
  {
    hide Resolved, Enriched, Get;
    reports := [];
    var i := 0;
    while i < models.Length
      invariant i == |reports| <= models.Length
      invariant forall k :: i <= k < models.Length ==> models[k] == old(models[k])
      invariant forall k :: 0 <= k < i ==> models[k] == Enriched(old(models[k]), known(old(models[k]).name))
      invariant forall k :: 0 <= k < i ==> reports[k].model == models[k].name
      invariant forall k, field :: 0 <= k < i ==>
        StateOf(reports[k].states, field) == Resolved(old(models[k]), known(old(models[k]).name), field)
    {
      var resolution := new Resolution(models[i]);
      resolution.Resolve(known(models[i].name));
      ResolutionEnriches(resolution.model, resolution.states, models[i], known(models[i].name));
      models[i] := resolution.model;
      reports := reports + [Report(models[i].name, resolution.states)];
      i := i + 1;
    }
  }

  lemma ResolutionEnriches(after: ModelRef, states: States, before: ModelRef, sources: Sources)
    requires Consistent(after, states) && after.name == before.name
    requires forall field :: StateOf(states, field) == Resolved(before, sources, field)
    ensures after == Enriched(before, sources)
  {
    hide Resolved, Get, Enriched;
    forall field ensures Get(after, field) == Get(Enriched(before, sources), field) {
      assert StateAgrees(after, states, field);
      EnrichedReads(before, sources, field);
    }
    EnrichedReads(before, sources, ThinkingLevels);
    SameFields(after, Enriched(before, sources));
  }

  // ---------- what resolution may leave in a list ----------

  /** Every list a source other than the existing configuration supplies is made of known words. */
  lemma SuppliedListsAreClean(model: ModelRef, sources: Sources, field: Field)
    ensures CleanTexts(Offered(sources, field).strings) && CleanTexts(Get(sources.override, field).strings)
    ensures forall i :: 0 <= i < |sources.readings| ==>
      CleanTexts(Authoritatively(sources.readings[i], field).strings) && CleanTexts(Secondarily(sources.readings[i], field).strings)
  {
    LevelsAreClean(sources.upstream.efforts);
    ModalitiesAreClean(CanonicalModalities(Values(sources.upstream.inputs)));
    ModalitiesAreClean(CanonicalModalities(Values(sources.upstream.outputs)));
    LevelsAreClean(sources.override.thinking);
    ModalitiesAreClean(sources.override.inputs);
    ModalitiesAreClean(sources.override.outputs);
    hide CleanTexts, AreLevels, InOrder, AreModalities;
    NothingIsClean();
    forall i | 0 <= i < |sources.readings|
      ensures CleanTexts(Authoritatively(sources.readings[i], field).strings) && CleanTexts(Secondarily(sources.readings[i], field).strings)
    {
      ReadingIsClean(sources.readings[i], field);
    }
  }

  lemma NothingIsClean()
    ensures CleanTexts([])
  {
  }

  lemma ReadingIsClean(reading: Reading, field: Field)
    ensures CleanTexts(Authoritatively(reading, field).strings) && CleanTexts(Secondarily(reading, field).strings)
  {
    NothingIsClean();
    match reading {
      case Modelparams(_, levels, _) =>
        LevelsAreClean(levels);
      case Modelsdev(_, _, _, inputs, outputs) =>
        ModalitiesAreClean(CanonicalModalities(inputs));
        ModalitiesAreClean(CanonicalModalities(outputs));
    }
    hide CleanTexts, CanonicalModalities;
  }

  lemma {:induction false} ReadingsLeaveClean(state: FieldState, readings: seq<Reading>, field: Field)
    requires CleanTexts(state.value.strings)
    ensures CleanTexts(AfterReadings(state, readings, field).value.strings)
    decreases |readings|
  {
    hide CleanTexts, Authoritatively, Secondarily;
    if readings != [] {
      ReadingsLeaveClean(state, readings[..|readings| - 1], field);
      ReadingIsClean(readings[|readings| - 1], field);
    }
  }

  /** Resolution turns clean models into clean models, whatever the catalogs say. */
  lemma EnrichedIsClean(model: ModelRef, sources: Sources, field: Field)
    requires CleanTexts(Get(model, field).strings)
    ensures CleanTexts(Get(Enriched(model, sources), field).strings)
  {
    SuppliedListsAreClean(model, sources, field);
    EnrichedReads(model, sources, field);
    NothingIsClean();
    hide CleanTexts, Get, Offered, Enriched;
    ReadingsLeaveClean(AfterUpstream(model, sources, field), sources.readings, field);
  }

  // ---------- overrides as configured ----------

  predicate KnownModalities(values: seq<string>) {
    forall i :: 0 <= i < |values| ==> Folded(values[i]) in {"", "text", "image"}
  }

  /** An override as the configuration has it, and whether it gives a list of levels, be it an empty one. */
  datatype Configured = Configured(values: ModelRef, listed: bool)

  datatype Compiled = Compiled(values: Override, listed: bool)

  /** What may be configured: known levels with some depth, and no modalities but text and image. */
  ghost predicate Configurable(raw: ModelRef) {
    && (forall i :: 0 <= i < |raw.thinking| ==> Folded(raw.thinking[i]) in LEVELS)
    && (raw.thinking != [] ==> CanonicalEfforts(raw.thinking) != [])
    && KnownModalities(raw.inputs) && KnownModalities(raw.outputs)
  }

  method AllKnown(values: seq<string>, words: seq<string>) returns (known: bool)
    ensures known <==> forall i :: 0 <= i < |values| ==> Folded(values[i]) in words
  {
    hide Folded;
    var i := 0;
    while i < |values|
      invariant i <= |values| && forall k :: 0 <= k < i ==> Folded(values[k]) in words
    {
      if Folded(values[i]) !in words {
        return false;
      }
      i := i + 1;
    }
    return true;
  }

  /** None refuses the configuration; otherwise the lists are in normal form and all else is as configured. An
      empty list of levels stays an empty list. */
  method CompileOverride(configured: Configured) returns (compiled: Option<Compiled>)
    ensures compiled.Some? <==> Configurable(configured.values)
    ensures compiled.Some? ==> compiled.value.listed == configured.listed
    ensures compiled.Some? ==> compiled.value.values == configured.values.(
      thinking := CanonicalEfforts(configured.values.thinking),
      inputs := CanonicalModalities(configured.values.inputs), outputs := CanonicalModalities(configured.values.outputs))
  {
    hide Folded, AreLevels, InOrder, CanonicalModalities, CanonicalEfforts;
    var raw := configured.values;
    CanonicalAreEfforts(raw.thinking);
    NoLevels();
    var levels := AllKnown(raw.thinking, LEVELS);
    if !levels {
      return None;
    }
    var thinking := [];
    if |raw.thinking| > 0 {
      thinking := NormalizeEfforts(raw.thinking);
      if |thinking| == 0 {
        return None;
      }
    }
    var inputs := AllKnown(raw.inputs, ["", "text", "image"]);
    var outputs := AllKnown(raw.outputs, ["", "text", "image"]);
    if !inputs || !outputs {
      return None;
    }
    var ins := CpaModalities(raw.inputs);
    var outs := CpaModalities(raw.outputs);
    return Some(Compiled(raw.(thinking := thinking, inputs := ins, outputs := outs), configured.listed));
  }

  lemma NoLevels()
    ensures CanonicalEfforts([]) == []
  {
    MentionedNothing();
  }
}
