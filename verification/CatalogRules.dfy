/** What is taken from the catalogs, with the words and paths that are looked for. */
module CatalogRules {
  import opened Options
  import opened YamlTree
  import opened CatalogValues
  import opened ModelparamsExtract
  import MetadataEnrich

  // ---------- levels ----------

  /** The list has the word, whatever its case and the space around it. */
  predicate Says(values: seq<string>, word: string) {
    exists i :: 0 <= i < |values| && Lower(TrimSpace(values[i])) == word
  }

  function If(said: bool, word: string): seq<string> {
    if said then [word] else []
  }

  /** The levels that are said, in the order of their depth. */
  function AllLevels(values: seq<string>): seq<string> {
    If(Says(values, "none"), "none") + If(Says(values, "minimal"), "minimal") + If(Says(values, "low"), "low")
    + If(Says(values, "medium"), "medium") + If(Says(values, "high"), "high") + If(Says(values, "xhigh"), "xhigh")
    + If(Says(values, "max"), "max") + If(Says(values, "ultra"), "ultra") + If(Says(values, "auto"), "auto")
  }

  /** One that is neither none nor auto. */
  predicate SaysDepth(values: seq<string>) {
    || Says(values, "minimal") || Says(values, "low") || Says(values, "medium") || Says(values, "high") || Says(values, "xhigh")
    || Says(values, "max") || Says(values, "ultra")
  }

  lemma SaysIs(values: seq<string>, word: string)
    ensures Says(values, word) <==> Mentions(values, word)
  {
    hide TrimSpace, Lower;
  }

  lemma FromNext(values: seq<string>, n: nat, word: string)
    requires n < |LEVELS| && LEVELS[n] == word
    ensures MentionedFrom(values, n) == If(Says(values, word), word) + MentionedFrom(values, n + 1)
  {
    SaysIs(values, word);
    MentionedStep(values, n);
    hide Mentions, Says, MentionedFrom;
  }

  lemma AllMentioned(values: seq<string>)
    ensures MentionedFrom(values, 0) == AllLevels(values)
  {
    assert LEVELS == ["none", "minimal", "low", "medium", "high", "xhigh", "max", "ultra", "auto"];
    FromNext(values, 0, "none");
    FromNext(values, 1, "minimal");
    FromNext(values, 2, "low");
    FromNext(values, 3, "medium");
    FromNext(values, 4, "high");
    FromNext(values, 5, "xhigh");
    FromNext(values, 6, "max");
    FromNext(values, 7, "ultra");
    FromNext(values, 8, "auto");
    MentionedEnd(values);
    hide MentionedFrom, Says, If;
    Nested(If(Says(values, "none"), "none"), If(Says(values, "minimal"), "minimal"), If(Says(values, "low"), "low"),
      If(Says(values, "medium"), "medium"), If(Says(values, "high"), "high"), If(Says(values, "xhigh"), "xhigh"),
      If(Says(values, "max"), "max"), If(Says(values, "ultra"), "ultra"), If(Says(values, "auto"), "auto"));
  }

  lemma Nested(a: seq<string>, b: seq<string>, c: seq<string>, d: seq<string>, e: seq<string>, f: seq<string>, g: seq<string>, h: seq<string>, i: seq<string>)
    ensures a + (b + (c + (d + (e + (f + (g + (h + (i + [])))))))) == a + b + c + d + e + f + g + h + i
  {
  }

  /** Normalising leaves the known levels in the order of their depth, or nothing if none has depth. */
  lemma EffortsExactly(values: seq<string>)
    ensures CanonicalEfforts(values) == if SaysDepth(values) then AllLevels(values) else []
  {
    AllMentioned(values);
    MentionedExactly(values, 0);
    forall word {
      SaysIs(values, word);
    }
    hide MentionedFrom, Mentions, Says, AllLevels;
    DepthIs(values);
  }

  lemma DepthIs(values: seq<string>)
    requires forall level :: level in MentionedFrom(values, 0) <==> exists k :: 0 <= k < |LEVELS| && LEVELS[k] == level && Mentions(values, level)
    requires forall word :: Says(values, word) <==> Mentions(values, word)
    ensures HasDepth(MentionedFrom(values, 0)) <==> SaysDepth(values)
  {
    hide MentionedFrom, Mentions, Says;
    var from := MentionedFrom(values, 0);
    forall k | 0 <= k < |LEVELS| && IsDepth(LEVELS[k]) && Mentions(values, LEVELS[k]) ensures HasDepth(from) && SaysDepth(values) {
      assert LEVELS[k] in from;
    }
    assert LEVELS == ["none", "minimal", "low", "medium", "high", "xhigh", "max", "ultra", "auto"];
    if SaysDepth(values) {
      var k := if Says(values, "minimal") then 1 else if Says(values, "low") then 2 else if Says(values, "medium") then 3
        else if Says(values, "high") then 4 else if Says(values, "xhigh") then 5 else if Says(values, "max") then 6 else 7;
      assert IsDepth(LEVELS[k]) && Mentions(values, LEVELS[k]);
    }
    if HasDepth(from) {
      var i :| 0 <= i < |from| && IsDepth(from[i]);
      assert from[i] in from;
    }
  }

  /** The places where a known level is said for the first time. */
  ghost predicate FirstSaid(values: seq<string>, places: seq<nat>) {
    && (forall i, j :: 0 <= i < j < |places| ==> places[i] < places[j])
    && (forall k :: k in places <==> 0 <= k < |values| && SaidFirstAt(values, k))
  }

  predicate IsLevel(word: string) {
    || word == "none" || word == "minimal" || word == "low" || word == "medium" || word == "high" || word == "xhigh"
    || word == "max" || word == "ultra" || word == "auto"
  }

  /** An earlier place says the word. */
  predicate SaidBy(values: seq<string>, k: nat, word: string) {
    exists i :: 0 <= i < k && i < |values| && Lower(TrimSpace(values[i])) == word
  }

  predicate SaidFirstAt(values: seq<string>, k: nat) {
    k < |values| && IsLevel(Lower(TrimSpace(values[k]))) && !SaidBy(values, k, Lower(TrimSpace(values[k])))
  }

  lemma LevelIs(word: string)
    ensures word in LEVELS <==> IsLevel(word)
  {
    assert LEVELS == ["none", "minimal", "low", "medium", "high", "xhigh", "max", "ultra", "auto"];
  }

  predicate WordsAt(values: seq<string>, places: seq<nat>, words: seq<string>) {
    |words| == |places| && forall i :: 0 <= i < |places| ==> places[i] < |values| && words[i] == Lower(TrimSpace(values[places[i]]))
  }

  /** Of an enumeration the known levels are kept, each where it is said first. */
  lemma {:induction false} KnownIsFirstSaid(values: seq<string>) returns (places: seq<nat>)
    ensures FirstSaid(values, places) && WordsAt(values, places, KnownLevels(values))
    decreases |values|
  {
    if values == [] {
      places := [];
    } else {
      var n := |values| - 1;
      places := KnownIsFirstSaid(values[..n]);
      LastSaid(values);
      MorePlaces(values, places);
      MoreWords(values, places, KnownLevels(values[..n]));
      hide Lower, TrimSpace, SaidFirstAt, KnownLevels, FirstSaid, WordsAt;
      if SaidFirstAt(values, n) {
        places := places + [n];
      }
    }
  }

  lemma MorePlaces(values: seq<string>, places: seq<nat>)
    requires values != [] && FirstSaid(values[..|values| - 1], places)
    ensures var n := |values| - 1; FirstSaid(values, if SaidFirstAt(values, n) then places + [n] else places)
  {
    var n := |values| - 1;
    forall k | 0 <= k < n ensures SaidFirstAt(values, k) <==> SaidFirstAt(values[..n], k) {
      SaidBefore(values, k);
    }
    hide SaidFirstAt;
    forall k | k in places ensures k < n {
    }
    if SaidFirstAt(values, n) {
      Increasing(places, n);
      forall k ensures k in places + [n] <==> 0 <= k < |values| && SaidFirstAt(values, k) {
        assert k in places + [n] <==> k in places || k == n;
      }
    }
  }

  lemma Increasing(places: seq<nat>, n: nat)
    requires (forall i, j :: 0 <= i < j < |places| ==> places[i] < places[j]) && forall k :: k in places ==> k < n
    ensures var longer := places + [n]; forall i, j :: 0 <= i < j < |longer| ==> longer[i] < longer[j]
  {
    assert forall i :: 0 <= i < |places| ==> places[i] in places;
  }

  lemma MoreWords(values: seq<string>, places: seq<nat>, words: seq<string>)
    requires values != [] && WordsAt(values[..|values| - 1], places, words)
    ensures var n := |values| - 1;
      WordsAt(values, places, words) && WordsAt(values, places + [n], words + [Lower(TrimSpace(values[n]))])
  {
    hide Lower, TrimSpace;
    assert forall i :: 0 <= i < |places| ==> values[..|values| - 1][places[i]] == values[places[i]];
  }

  lemma SaidBefore(values: seq<string>, k: nat)
    requires k < |values| - 1
    ensures SaidFirstAt(values, k) <==> SaidFirstAt(values[..|values| - 1], k)
  {
    SaidByPrefix(values, k, Lower(TrimSpace(values[k])));
    hide Lower, TrimSpace, IsLevel, SaidBy;
  }

  lemma SaidByPrefix(values: seq<string>, k: nat, word: string)
    requires k <= |values| - 1
    ensures SaidBy(values, k, word) <==> SaidBy(values[..|values| - 1], k, word)
  {
    hide Lower, TrimSpace;
    assert forall i :: 0 <= i < k ==> values[..|values| - 1][i] == values[i];
  }

  lemma LastSaid(values: seq<string>)
    requires values != []
    ensures var n := |values| - 1;
      KnownLevels(values) == KnownLevels(values[..n]) + if SaidFirstAt(values, n) then [Lower(TrimSpace(values[n]))] else []
  {
    var n := |values| - 1;
    var word := Lower(TrimSpace(values[n]));
    LevelIs(word);
    KnownMembers(values[..n], word);
    SaidByPrefix(values, n, word);
    KnownStep(values);
    hide Lower, TrimSpace, IsLevel, SaidBy, KnownLevels;
  }

  lemma KnownStep(values: seq<string>)
    requires values != []
    ensures var rest, word := KnownLevels(values[..|values| - 1]), Lower(TrimSpace(values[|values| - 1]));
      KnownLevels(values) == if word in LEVELS && word !in rest then rest + [word] else rest
  {
    hide Lower, TrimSpace;
  }

  lemma KnownMembers(values: seq<string>, word: string)
    ensures word in KnownLevels(values) <==> word in LEVELS && SaidBy(values, |values|, word)
  {
    KnownExactly(values);
    SaysIs(values, word);
    hide KnownLevels, Mentions, Lower, TrimSpace;
  }

  lemma EnumeratedExactly(values: seq<string>)
    ensures EnumeratedLevels(values) == if SaysDepth(values) then KnownLevels(values) else []
  {
    KnownExactly(values);
    MentionedExactly(values, 0);
    SameDepth(KnownLevels(values), MentionedFrom(values, 0));
    forall word {
      SaysIs(values, word);
    }
    hide KnownLevels, MentionedFrom, Mentions, Says;
    DepthIs(values);
  }

  // ---------- overrides ----------

  predicate OnlyModalities(values: seq<string>) {
    forall i :: 0 <= i < |values| ==>
      Lower(TrimSpace(values[i])) == "" || Lower(TrimSpace(values[i])) == "text" || Lower(TrimSpace(values[i])) == "image"
  }

  /** An override may be configured exactly with known levels, of which one has depth if there are any, and with no
      modalities but text and image. */
  lemma ConfigurableExactly(raw: MetadataEnrich.ModelRef)
    ensures MetadataEnrich.Configurable(raw) <==>
      && (forall i :: 0 <= i < |raw.thinking| ==> IsLevel(Lower(TrimSpace(raw.thinking[i]))))
      && (raw.thinking != [] ==> SaysDepth(raw.thinking)) && OnlyModalities(raw.inputs) && OnlyModalities(raw.outputs)
  {
    EffortsExactly(raw.thinking);
    forall word {
      LevelIs(word);
    }
    hide Lower, TrimSpace, IsLevel, CanonicalEfforts;
    DepthIsSaid(raw.thinking);
    hide SaysDepth, AllLevels;
  }

  lemma DepthIsSaid(values: seq<string>)
    ensures SaysDepth(values) ==> AllLevels(values) != []
  {
    hide Says;
  }

  // ---------- the parameters of an entry ----------

  predicate Enumerates(param: Param, levels: seq<string>) {
    param.kind == "enum" && EnumeratedLevels(param.values) == levels && levels != []
  }

  ghost predicate LevelsUnder(params: seq<Param>, path: string, levels: seq<string>) {
    exists k :: 0 <= k < |params| && params[k].path == path && Enumerates(params[k], levels)
  }

  ghost predicate AnyUnder(params: seq<Param>, path: string) {
    exists levels :: LevelsUnder(params, path, levels)
  }

  /** An enumeration of the group reasoning that is about depth. */
  predicate AboutDepth(param: Param) {
    && param.group == "reasoning" && param.kind == "enum"
    && param.path != "thinking.type" && param.path != "thinking.display" && param.path != "reasoning.summary" && param.path != "reasoning_format"
    && param.path != "additionalModelRequestFields.thinking.type" && param.path != "prompt_mode" && param.path != "thinking.keep"
  }

  ghost predicate FirstAboutDepth(params: seq<Param>, levels: seq<string>) {
    || (exists k :: 0 <= k < |params| && AboutDepth(params[k]) && Enumerates(params[k], levels)
          && forall j, other :: 0 <= j < k && AboutDepth(params[j]) ==> !Enumerates(params[j], other))
    || (levels == [] && forall j, other :: 0 <= j < |params| && AboutDepth(params[j]) ==> !Enumerates(params[j], other))
  }

  /** The first of four paths that has levels decides, and then the first parameter about depth that has. */
  ghost predicate TakesLevels(params: seq<Param>, levels: seq<string>) {
    if AnyUnder(params, "reasoning.effort") then LevelsUnder(params, "reasoning.effort", levels)
    else if AnyUnder(params, "reasoning_effort") then LevelsUnder(params, "reasoning_effort", levels)
    else if AnyUnder(params, "output_config.effort") then LevelsUnder(params, "output_config.effort", levels)
    else if AnyUnder(params, "generationConfig.thinkingConfig.thinkingLevel") then
      LevelsUnder(params, "generationConfig.thinkingConfig.thinkingLevel", levels)
    else FirstAboutDepth(params, levels)
  }

  lemma UnderIs(params: seq<Param>, path: string)
    ensures forall levels :: PathGives(params, path, levels) <==> LevelsUnder(params, path, levels)
    ensures PathSilent(params, path) <==> !AnyUnder(params, path)
  {
    hide EnumeratedLevels;
    if !PathSilent(params, path) {
      var k :| 0 <= k < |params| && params[k].path == path && LevelsOf(params[k]) != [];
      assert Enumerates(params[k], LevelsOf(params[k]));
      assert LevelsUnder(params, path, LevelsOf(params[k]));
    }
  }

  lemma DepthParamIs(param: Param)
    ensures OfReasoning(param) <==> AboutDepth(param)
    ensures OfReasoning(param) ==> forall levels :: Enumerates(param, levels) <==> LevelsOf(param) == levels && levels != []
  {
    assert SKIPPED_PATHS == ["thinking.type", "thinking.display", "reasoning.summary", "reasoning_format",
      "additionalModelRequestFields.thinking.type", "prompt_mode", "thinking.keep"];
    hide EnumeratedLevels;
  }

  lemma FirstIs(params: seq<Param>, levels: seq<string>)
    ensures FirstAboutDepth(params, levels) <==>
      || (exists k :: ParamGives(params, k, levels))
      || (levels == [] && forall k :: 0 <= k < |params| && OfReasoning(params[k]) ==> LevelsOf(params[k]) == [])
  {
    forall k | 0 <= k < |params|
      ensures OfReasoning(params[k]) <==> AboutDepth(params[k])
      ensures OfReasoning(params[k]) ==> forall other :: Enumerates(params[k], other) <==> LevelsOf(params[k]) == other && other != []
    {
      DepthParamIs(params[k]);
    }
    hide AboutDepth, OfReasoning, Enumerates, LevelsOf;
    forall k: nat ensures ParamGives(params, k, levels) <==>
      k < |params| && AboutDepth(params[k]) && Enumerates(params[k], levels)
      && forall j, other :: 0 <= j < k && AboutDepth(params[j]) ==> !Enumerates(params[j], other)
    {
      if k < |params| {
        forall j | 0 <= j < k && OfReasoning(params[j])
          ensures LevelsOf(params[j]) == [] <==> forall other :: !Enumerates(params[j], other)
        {
          assert LevelsOf(params[j]) != [] ==> Enumerates(params[j], LevelsOf(params[j]));
        }
      }
    }
    forall j | 0 <= j < |params| && OfReasoning(params[j])
      ensures LevelsOf(params[j]) == [] <==> forall other :: !Enumerates(params[j], other)
    {
      assert LevelsOf(params[j]) != [] ==> Enumerates(params[j], LevelsOf(params[j]));
    }
  }

  /** The levels of an entry are these. */
  lemma LevelsExactly(params: seq<Param>, levels: seq<string>)
    requires PathsDiffer(params)
    ensures Extracts(params, levels) <==> TakesLevels(params, levels)
  {
    assert EFFORT_PATHS == ["reasoning.effort", "reasoning_effort", "output_config.effort", "generationConfig.thinkingConfig.thinkingLevel"];
    UnderIs(params, "reasoning.effort");
    UnderIs(params, "reasoning_effort");
    UnderIs(params, "output_config.effort");
    UnderIs(params, "generationConfig.thinkingConfig.thinkingLevel");
    FirstIs(params, levels);
    forall path, one {
      GivingIsLoud(params, path, one);
    }
    hide PathGives, PathSilent, LevelsUnder, AnyUnder, FirstAboutDepth, ParamGives, OfReasoning, LevelsOf;
    Cascade(params, levels, "reasoning.effort", "reasoning_effort", "output_config.effort", "generationConfig.thinkingConfig.thinkingLevel");
  }

  lemma Cascade(params: seq<Param>, levels: seq<string>, one: string, two: string, three: string, four: string)
    requires EFFORT_PATHS == [one, two, three, four]
    requires forall path, list :: PathGives(params, path, list) ==> !PathSilent(params, path)
    ensures (exists n: nat :: FirstGives(params, n, levels)) <==>
      if !PathSilent(params, one) then PathGives(params, one, levels)
      else if !PathSilent(params, two) then PathGives(params, two, levels)
      else if !PathSilent(params, three) then PathGives(params, three, levels)
      else PathGives(params, four, levels)
    ensures (forall m :: 0 <= m < |EFFORT_PATHS| ==> PathSilent(params, EFFORT_PATHS[m])) <==>
      PathSilent(params, one) && PathSilent(params, two) && PathSilent(params, three) && PathSilent(params, four)
  {
    hide PathGives, PathSilent;
    var paths := [one, two, three, four];
    assert EFFORT_PATHS[0] == one && EFFORT_PATHS[1] == two && EFFORT_PATHS[2] == three && EFFORT_PATHS[3] == four by {
      assert EFFORT_PATHS[0] == paths[0] && EFFORT_PATHS[1] == paths[1] && EFFORT_PATHS[2] == paths[2] && EFFORT_PATHS[3] == paths[3];
    }
    var n: nat := if !PathSilent(params, one) then 0 else if !PathSilent(params, two) then 1 else if !PathSilent(params, three) then 2 else 3;
    if PathGives(params, EFFORT_PATHS[n], levels) {
      assert FirstGives(params, n, levels);
    }
  }

  ghost predicate LimitUnder(params: seq<Param>, path: string, limit: nat) {
    exists k :: 0 <= k < |params| && params[k].path == path && params[k].group == "generation_length" && params[k].kind == "integer"
      && params[k].max == limit && limit > 0
  }

  ghost predicate AnyLimit(params: seq<Param>, path: string) {
    exists limit :: LimitUnder(params, path, limit)
  }

  /** The first of five paths that has a limit decides, and there is none without. */
  ghost predicate TakesLimit(params: seq<Param>, limit: nat) {
    if AnyLimit(params, "max_output_tokens") then LimitUnder(params, "max_output_tokens", limit)
    else if AnyLimit(params, "max_completion_tokens") then LimitUnder(params, "max_completion_tokens", limit)
    else if AnyLimit(params, "max_tokens") then LimitUnder(params, "max_tokens", limit)
    else if AnyLimit(params, "generationConfig.maxOutputTokens") then LimitUnder(params, "generationConfig.maxOutputTokens", limit)
    else if AnyLimit(params, "inferenceConfig.maxTokens") then LimitUnder(params, "inferenceConfig.maxTokens", limit)
    else limit == 0
  }

  lemma LimitIs(params: seq<Param>, path: string)
    ensures forall limit :: PathLimits(params, path, limit) <==> LimitUnder(params, path, limit)
    ensures (exists limit :: PathLimits(params, path, limit)) <==> AnyLimit(params, path)
  {
    forall limit ensures PathLimits(params, path, limit) <==> LimitUnder(params, path, limit) {
    }
    hide PathLimits, LimitUnder;
  }

  /** The output limit of an entry is this. */
  lemma LimitExactly(params: seq<Param>, limit: nat)
    ensures LimitExtracted(params, limit) <==> TakesLimit(params, limit)
  {
    assert OUTPUT_PATHS == ["max_output_tokens", "max_completion_tokens", "max_tokens", "generationConfig.maxOutputTokens", "inferenceConfig.maxTokens"];
    LimitIs(params, "max_output_tokens");
    LimitIs(params, "max_completion_tokens");
    LimitIs(params, "max_tokens");
    LimitIs(params, "generationConfig.maxOutputTokens");
    LimitIs(params, "inferenceConfig.maxTokens");
    hide PathLimits, LimitUnder, AnyLimit;
    LimitCascade(params, limit, "max_output_tokens", "max_completion_tokens", "max_tokens", "generationConfig.maxOutputTokens", "inferenceConfig.maxTokens");
  }

  ghost predicate SomeLimit(params: seq<Param>, path: string) {
    exists limit :: PathLimits(params, path, limit)
  }

  lemma LimitCascade(params: seq<Param>, limit: nat, one: string, two: string, three: string, four: string, five: string)
    requires OUTPUT_PATHS == [one, two, three, four, five]
    ensures LimitExtracted(params, limit) <==>
      if SomeLimit(params, one) then PathLimits(params, one, limit)
      else if SomeLimit(params, two) then PathLimits(params, two, limit)
      else if SomeLimit(params, three) then PathLimits(params, three, limit)
      else if SomeLimit(params, four) then PathLimits(params, four, limit)
      else if SomeLimit(params, five) then PathLimits(params, five, limit)
      else limit == 0
  {
    hide PathLimits;
    var paths := [one, two, three, four, five];
    assert paths[0] == one && paths[1] == two && paths[2] == three && paths[3] == four && paths[4] == five;
    forall m | 0 <= m < 5 ensures OUTPUT_PATHS[m] == paths[m] {
    }
    var n := if SomeLimit(params, one) then 0 else if SomeLimit(params, two) then 1 else if SomeLimit(params, three) then 2
      else if SomeLimit(params, four) then 3 else 4;
    assert forall m :: 0 <= m < n ==> !SomeLimit(params, OUTPUT_PATHS[m]);
    if PathLimits(params, OUTPUT_PATHS[n], limit) {
      assert LimitExtracted(params, limit);
    }
  }

  // ---------- spelling ----------

  /** Case and surrounding space make no difference. */
  lemma SpelledAnyway()
    ensures Lower(TrimSpace(" XHigh\n")) == "xhigh" && Lower(TrimSpace("\tTEXT")) == "text"
    ensures Lower(TrimSpace("Ultra")) == "ultra" && Lower(TrimSpace("x high")) == "x high"
  {
    assert TrimSpace(" XHigh\n") == "XHigh" by {
      assert " XHigh\n"[1..] == "XHigh\n" && "XHigh\n"[..5] == "XHigh";
    }
    assert TrimSpace("\tTEXT") == "TEXT" by {
      assert "\tTEXT"[1..] == "TEXT";
    }
    assert Lower("XHigh") == "xhigh" && Lower("TEXT") == "text" && Lower("Ultra") == "ultra" && Lower("x high") == "x high";
  }
}
