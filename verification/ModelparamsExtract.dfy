/** What a modelparams.dev entry says about a model: its reasoning levels and its output limit, taken from the
    parameters of the entry. */
module ModelparamsExtract {
  import opened Options
  import opened CatalogValues
  import opened MetadataEnrich

  /** Values as text; of a range only the upper end matters. */
  datatype Param = Param(path: string, group: string, kind: string, values: seq<string>, max: nat)

  const EFFORT_PATHS := ["reasoning.effort", "reasoning_effort", "output_config.effort", "generationConfig.thinkingConfig.thinkingLevel"]
  const OUTPUT_PATHS := ["max_output_tokens", "max_completion_tokens", "max_tokens", "generationConfig.maxOutputTokens", "inferenceConfig.maxTokens"]
  const SKIPPED_PATHS := [
    "thinking.type", "thinking.display", "reasoning.summary", "reasoning_format",
    "additionalModelRequestFields.thinking.type", "prompt_mode", "thinking.keep"]

  /** A parsed entry has no path twice. */
  ghost predicate PathsDiffer(params: seq<Param>) {
    forall i, j :: 0 <= i < j < |params| ==> params[i].path != params[j].path
  }

  function LevelsOf(param: Param): seq<string> {
    if param.kind == "enum" then EnumeratedLevels(param.values) else []
  }

  predicate OfReasoning(param: Param) {
    param.kind == "enum" && param.group == "reasoning" && param.path !in SKIPPED_PATHS
  }

  predicate LimitsOutput(param: Param) {
    param.group == "generation_length" && param.kind == "integer" && param.max > 0
  }

  /** The parameter with this path has levels, and they are these. */
  ghost predicate PathGives(params: seq<Param>, path: string, levels: seq<string>) {
    levels != [] && exists k :: 0 <= k < |params| && params[k].path == path && LevelsOf(params[k]) == levels
  }

  ghost predicate PathSilent(params: seq<Param>, path: string) {
    forall k :: 0 <= k < |params| && params[k].path == path ==> LevelsOf(params[k]) == []
  }

  predicate ParamGives(params: seq<Param>, k: nat, levels: seq<string>) {
    && k < |params| && OfReasoning(params[k]) && LevelsOf(params[k]) == levels != []
    && (forall j :: 0 <= j < k && OfReasoning(params[j]) ==> LevelsOf(params[j]) == [])
  }

  /** The n-th of the known paths is the first that has levels. */
  ghost predicate FirstGives(params: seq<Param>, n: nat, levels: seq<string>) {
    && n < |EFFORT_PATHS| && PathGives(params, EFFORT_PATHS[n], levels)
    && (forall m :: 0 <= m < n ==> PathSilent(params, EFFORT_PATHS[m]))
  }

  /** The first of the known paths that has levels decides; else the first other reasoning parameter that has. */
  ghost predicate Extracts(params: seq<Param>, levels: seq<string>) {
    || (exists n: nat :: FirstGives(params, n, levels))
    || ((forall m :: 0 <= m < |EFFORT_PATHS| ==> PathSilent(params, EFFORT_PATHS[m]))
        && ((exists k :: ParamGives(params, k, levels))
            || (levels == [] && forall k :: 0 <= k < |params| && OfReasoning(params[k]) ==> LevelsOf(params[k]) == [])))
  }

  method FindPath(params: seq<Param>, path: string) returns (found: Option<Param>)
    requires PathsDiffer(params)
    ensures found.Some? ==> found.value in params && found.value.path == path
    ensures found.None? ==> forall k :: 0 <= k < |params| ==> params[k].path != path
  {
    var i := 0;
    while i < |params|
      invariant i <= |params| && forall k :: 0 <= k < i ==> params[k].path != path
    {
      if params[i].path == path {
        return Some(params[i]);
      }
      i := i + 1;
    }
    return None;
  }

  method ExtractThinkingLevels(params: seq<Param>) returns (levels: Levels)
    requires PathsDiffer(params)
    ensures Extracts(params, levels)
  {
    hide EnumeratedLevels, AreLevels, OfReasoning;
    NoLevelsAtAll();
    var n := 0;
    while n < |EFFORT_PATHS|
      invariant n <= |EFFORT_PATHS| && forall m :: 0 <= m < n ==> PathSilent(params, EFFORT_PATHS[m])
    {
      var param := FindPath(params, EFFORT_PATHS[n]);
      if param.Some? {
        var found := EnumLevels(param.value.kind == "enum", param.value.values);
        if |found| > 0 {
          EnumeratedAreLevels(param.value.values);
          assert FirstGives(params, n, found);
          return found;
        }
      }
      n := n + 1;
    }
    var k := 0;
    while k < |params|
      invariant k <= |params| && forall j :: 0 <= j < k && OfReasoning(params[j]) ==> LevelsOf(params[j]) == []
    {
      if OfReasoning(params[k]) {
        var found := EnumLevels(params[k].kind == "enum", params[k].values);
        if |found| > 0 {
          EnumeratedAreLevels(params[k].values);
          assert ParamGives(params, k, found);
          return found;
        }
      }
      k := k + 1;
    }
    return [];
  }

  lemma NoLevelsAtAll()
    ensures AreLevels([])
  {
  }

  /** That settles the levels. */
  lemma LevelsDetermined(params: seq<Param>, one: seq<string>, two: seq<string>)
    requires PathsDiffer(params) && Extracts(params, one) && Extracts(params, two)
    ensures one == two
  {
    hide LevelsOf, OfReasoning;
    forall path, levels {
      GivingIsLoud(params, path, levels);
    }
    hide PathGives, PathSilent;
    if exists n: nat :: FirstGives(params, n, one) {
      var n: nat :| FirstGives(params, n, one);
      assert !PathSilent(params, EFFORT_PATHS[n]);
      var m: nat :| FirstGives(params, m, two);
      assert !PathSilent(params, EFFORT_PATHS[m]);
    }
  }

  lemma GivingIsLoud(params: seq<Param>, path: string, levels: seq<string>)
    requires PathsDiffer(params)
    ensures PathGives(params, path, levels) ==> !PathSilent(params, path)
    ensures forall other :: PathGives(params, path, levels) && PathGives(params, path, other) ==> other == levels
  {
    hide LevelsOf;
  }

  // ---------- the output limit ----------

  ghost predicate PathLimits(params: seq<Param>, path: string, limit: nat) {
    exists k :: 0 <= k < |params| && params[k].path == path && LimitsOutput(params[k]) && params[k].max == limit
  }

  ghost predicate LimitExtracted(params: seq<Param>, limit: nat) {
    || (exists n :: 0 <= n < |OUTPUT_PATHS| && PathLimits(params, OUTPUT_PATHS[n], limit)
          && forall m, other :: 0 <= m < n ==> !PathLimits(params, OUTPUT_PATHS[m], other))
    || (limit == 0 && forall m, other :: 0 <= m < |OUTPUT_PATHS| ==> !PathLimits(params, OUTPUT_PATHS[m], other))
  }

  method ExtractMaxOutputTokens(params: seq<Param>) returns (limit: nat)
    requires PathsDiffer(params)
    ensures LimitExtracted(params, limit)
  {
    var n := 0;
    while n < |OUTPUT_PATHS|
      invariant n <= |OUTPUT_PATHS| && forall m, other :: 0 <= m < n ==> !PathLimits(params, OUTPUT_PATHS[m], other)
    {
      var param := FindPath(params, OUTPUT_PATHS[n]);
      if param.Some? && LimitsOutput(param.value) {
        assert PathLimits(params, OUTPUT_PATHS[n], param.value.max);
        return param.value.max;
      }
      n := n + 1;
    }
    return 0;
  }

  lemma LimitDetermined(params: seq<Param>, one: nat, two: nat)
    requires PathsDiffer(params) && LimitExtracted(params, one) && LimitExtracted(params, two)
    ensures one == two
  {
    hide LimitsOutput;
  }

  /** What the source says about the model, as resolution takes it. */
  method ReadEntry(id: string, params: seq<Param>) returns (reading: Reading)
    requires PathsDiffer(params)
    ensures reading.Modelparams? && reading.id == id
    ensures Extracts(params, reading.levels) && LimitExtracted(params, reading.maxOutput)
  {
    var levels := ExtractThinkingLevels(params);
    var limit := ExtractMaxOutputTokens(params);
    return Reading.Modelparams(id, levels, limit);
  }
}
