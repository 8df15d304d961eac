/** The values that catalogs supply are normalised before they are used: reasoning levels to a known order,
    modalities to text and image. What comes out can always be written to YAML and read again. */
module CatalogValues {
  import opened Options
  import opened YamlTree

  // ---------- folding ----------

  /** Lower case, as far as it can make a difference to a comparison with an ASCII word: besides A to Z only
      the dotted capital I and the Kelvin sign have an ASCII lower case. */
  function LowerChar(c: char): char {
    if 'A' <= c <= 'Z' then (c as int + 32) as char
    else if c == '\U{130}' then 'i'
    else if c == '\U{212A}' then 'k'
    else c
  }

  function Lower(s: string): string {
    seq(|s|, i requires 0 <= i < |s| => LowerChar(s[i]))
  }

  function Folded(s: string): string {
    Lower(TrimSpace(s))
  }

  predicate Mentions(values: seq<string>, word: string) {
    exists i :: 0 <= i < |values| && Folded(values[i]) == word
  }

  // ---------- reasoning levels ----------

  const LEVELS: seq<string> := ["none", "minimal", "low", "medium", "high", "xhigh", "max", "ultra", "auto"]

  /** A level that asks for reasoning of some depth. */
  predicate IsDepth(level: string) {
    level != "none" && level != "auto"
  }

  /** The levels mentioned, in their order, from level n on. */
  function MentionedFrom(values: seq<string>, n: nat): seq<string>
    requires n <= |LEVELS|
    decreases |LEVELS| - n
  {
    if n == |LEVELS| then []
    else (if Mentions(values, LEVELS[n]) then [LEVELS[n]] else []) + MentionedFrom(values, n + 1)
  }

  predicate HasDepth(levels: seq<string>) {
    exists i :: 0 <= i < |levels| && IsDepth(levels[i])
  }

  /** All mentioned levels in their order, unless none of them has any depth. */
  function CanonicalEfforts(values: seq<string>): seq<string> {
    if HasDepth(MentionedFrom(values, 0)) then MentionedFrom(values, 0) else []
  }

  predicate AreLevels(values: seq<string>) {
    && (forall i :: 0 <= i < |values| ==> values[i] in LEVELS)
    && (forall i, j :: 0 <= i < j < |values| ==> values[i] != values[j])
    && (values == [] || HasDepth(values))
  }

  /** The place of a level in their order. */
  function Rank(level: string): (rank: nat)
    ensures rank <= |LEVELS| && (rank < |LEVELS| <==> level in LEVELS) && (rank < |LEVELS| ==> LEVELS[rank] == level)
  {
    RankFrom(level, 0)
  }

  function RankFrom(level: string, n: nat): (rank: nat)
    requires n <= |LEVELS|
    ensures n <= rank <= |LEVELS| && (rank < |LEVELS| <==> level in LEVELS[n..]) && (rank < |LEVELS| ==> LEVELS[rank] == level)
    decreases |LEVELS| - n
  {
    if n == |LEVELS| || LEVELS[n] == level then n else RankFrom(level, n + 1)
  }

  predicate InOrder(values: seq<string>) {
    forall i, j :: 0 <= i < j < |values| ==> Rank(values[i]) < Rank(values[j])
  }

  /** Different levels of which one has depth, or none at all. */
  type Levels = values: seq<string> | AreLevels(values)

  /** Levels in their order. */
  type Efforts = values: seq<string> | AreLevels(values) && InOrder(values)

  method NormalizeEfforts(values: seq<string>) returns (out: seq<string>)
    ensures out == CanonicalEfforts(values)
  {
    hide Mentions, HasDepth, IsDepth, MentionedFrom;
    var have := MentionedLevels(values);
    out := [];
    var depth, i := false, 0;
    NoDepth();
    assert out + MentionedFrom(values, 0) == MentionedFrom(values, 0);
    while i < |LEVELS|
      invariant i <= |LEVELS| && out + MentionedFrom(values, i) == MentionedFrom(values, 0)
      invariant depth <==> HasDepth(out)
    {
      MentionedStep(values, i);
      var level := LEVELS[i];
      ghost var rest := MentionedFrom(values, i + 1);
      if level in have {
        DepthNext(out, level);
        assert (out + [level]) + rest == out + ([level] + rest);
        out := out + [level];
        depth := depth || IsDepth(level);
      } else {
        assert [] + rest == rest;
      }
      i := i + 1;
    }
    MentionedEnd(values);
    assert out + [] == out;
    if !depth {
      return [];
    }
  }

  method MentionedLevels(values: seq<string>) returns (have: set<string>)
    ensures forall n :: 0 <= n < |LEVELS| ==> (LEVELS[n] in have <==> Mentions(values, LEVELS[n]))
  {
    hide Mentions, Folded;
    have := {};
    var i := 0;
    NothingMentioned();
    assert values[..0] == [];
    while i < |values|
      invariant i <= |values|
      invariant forall n :: 0 <= n < |LEVELS| ==> (LEVELS[n] in have <==> Mentions(values[..i], LEVELS[n]))
    {
      var normalized := Folded(values[i]);
      forall level {
        MentionsNext(values, i, level);
      }
      if normalized in LEVELS {
        have := have + {normalized};
      }
      i := i + 1;
    }
    assert values[..i] == values;
  }

  lemma NothingMentioned()
    ensures forall level :: !Mentions([], level)
  {
  }

  lemma NoDepth()
    ensures !HasDepth([])
  {
  }

  lemma MentionedEnd(values: seq<string>)
    ensures MentionedFrom(values, |LEVELS|) == []
  {
  }

  lemma MentionedStep(values: seq<string>, n: nat)
    requires n < |LEVELS|
    ensures MentionedFrom(values, n) == (if Mentions(values, LEVELS[n]) then [LEVELS[n]] else []) + MentionedFrom(values, n + 1)
  {
  }

  lemma MentionsNext(values: seq<string>, i: nat, level: string)
    requires i < |values|
    ensures Mentions(values[..i + 1], level) <==> Mentions(values[..i], level) || level == Folded(values[i])
  {
    hide Folded;
    assert forall k :: 0 <= k < i ==> values[..i + 1][k] == values[..i][k];
    assert values[..i + 1][i] == values[i];
  }

  lemma DepthNext(levels: seq<string>, level: string)
    ensures HasDepth(levels + [level]) <==> HasDepth(levels) || IsDepth(level)
  {
    var longer := levels + [level];
    assert forall k :: 0 <= k < |levels| ==> longer[k] == levels[k];
    assert longer[|levels|] == level;
  }

  // ---------- what normalising keeps ----------

  predicate PlainWord(s: string) {
    forall i :: 0 <= i < |s| ==> 'a' <= s[i] <= 'z'
  }

  lemma PlainWordsFold(s: string)
    requires PlainWord(s)
    ensures Folded(s) == s
  {
    assert TrimLeft(s) == s && TrimRight(s) == s;
  }

  lemma LevelsArePlain(n: nat)
    requires n < |LEVELS|
    ensures PlainWord(LEVELS[n]) && LEVELS[n] != "" && Folded(LEVELS[n]) == LEVELS[n]
  {
    PlainWordsFold(LEVELS[n]);
  }

  lemma LevelsDiffer(a: nat, b: nat)
    requires a < b < |LEVELS|
    ensures LEVELS[a] != LEVELS[b]
  {
  }

  /** Levels mention exactly themselves. */
  lemma LevelsMentionThemselves(values: seq<string>, n: nat)
    requires n < |LEVELS| && forall i :: 0 <= i < |values| ==> values[i] in LEVELS
    ensures Mentions(values, LEVELS[n]) <==> LEVELS[n] in values
  {
    forall i | 0 <= i < |values| ensures Folded(values[i]) == values[i] {
      var k :| 0 <= k < |LEVELS| && LEVELS[k] == values[i];
      LevelsArePlain(k);
    }
    hide Folded;
  }

  /** The list holds levels from the n-th on. */
  predicate LevelsFrom(values: seq<string>, n: nat) {
    forall i :: 0 <= i < |values| ==> n <= Rank(values[i]) < |LEVELS|
  }

  lemma MentionedExactly(values: seq<string>, n: nat)
    requires n <= |LEVELS|
    ensures forall level :: level in MentionedFrom(values, n) <==> exists k :: n <= k < |LEVELS| && LEVELS[k] == level && Mentions(values, level)
    ensures forall i :: 0 <= i < |MentionedFrom(values, n)| ==> MentionedFrom(values, n)[i] in LEVELS
    ensures InOrder(MentionedFrom(values, n))
  {
    MentionedMembers(values, n);
    MentionedOrder(values, n);
    hide Mentions, MentionedFrom, InOrder;
  }

  lemma {:induction false} MentionedMembers(values: seq<string>, n: nat)
    requires n <= |LEVELS|
    ensures forall level :: level in MentionedFrom(values, n) <==> exists k :: n <= k < |LEVELS| && LEVELS[k] == level && Mentions(values, level)
    decreases |LEVELS| - n
  {
    hide Mentions;
    if n < |LEVELS| {
      MentionedMembers(values, n + 1);
    }
  }

  lemma {:induction false} MentionedOrder(values: seq<string>, n: nat)
    requires n <= |LEVELS|
    ensures LevelsFrom(MentionedFrom(values, n), n) && InOrder(MentionedFrom(values, n))
    decreases |LEVELS| - n
  {
    if n == |LEVELS| {
      MentionedEnd(values);
    } else {
      MentionedOrder(values, n + 1);
      MentionedStep(values, n);
      hide Mentions, MentionedFrom;
      var rest := MentionedFrom(values, n + 1);
      RankOf(n);
      hide Rank;
      if Mentions(values, LEVELS[n]) {
        OrderedCons(rest, LEVELS[n], n);
      } else {
        assert [] + rest == rest;
      }
    }
  }

  lemma OrderedCons(rest: seq<string>, level: string, n: nat)
    requires n < |LEVELS| && Rank(level) == n && LevelsFrom(rest, n + 1) && InOrder(rest)
    ensures LevelsFrom([level] + rest, n) && InOrder([level] + rest)
  {
    hide Rank;
    var longer := [level] + rest;
    assert longer[0] == level && forall i :: 0 < i < |longer| ==> longer[i] == rest[i - 1];
  }

  lemma RankOf(n: nat)
    requires n < |LEVELS|
    ensures Rank(LEVELS[n]) == n
  {
    var rank := Rank(LEVELS[n]);
    hide Rank;
    if rank < n {
      LevelsDiffer(rank, n);
    } else if n < rank {
      LevelsDiffer(n, rank);
    }
  }

  lemma CanonicalAreEfforts(values: seq<string>)
    ensures AreLevels(CanonicalEfforts(values)) && InOrder(CanonicalEfforts(values))
  {
    MentionedExactly(values, 0);
    var from := MentionedFrom(values, 0);
    OrderedDiffer(from);
  }

  lemma OrderedDiffer(values: seq<string>)
    requires InOrder(values)
    ensures forall i, j :: 0 <= i < j < |values| ==> values[i] != values[j]
  {
    hide Rank;
  }

  /** Two lists in order with the same elements are the same list. */
  lemma {:induction false} OrderedSame(one: seq<string>, two: seq<string>)
    requires InOrder(one) && InOrder(two)
    requires forall i :: 0 <= i < |one| ==> one[i] in LEVELS
    requires forall i :: 0 <= i < |two| ==> two[i] in LEVELS
    requires forall level :: level in one <==> level in two
    ensures one == two
    decreases |one|
  {
    OrderedDiffer(one);
    OrderedDiffer(two);
    FirstIsIn(two);
    hide InOrder;
    if one != [] {
      assert one[0] in two;
      SameHead(one, two);
      forall level ensures level in one[1..] <==> level in two[1..] {
        TailMembers(one, level);
        TailMembers(two, level);
      }
      TailInOrder(one);
      TailInOrder(two);
      OrderedSame(one[1..], two[1..]);
      assert one == [one[0]] + one[1..] && two == [two[0]] + two[1..];
    }
  }

  lemma TailMembers(values: seq<string>, level: string)
    requires values != [] && forall i, j :: 0 <= i < j < |values| ==> values[i] != values[j]
    ensures level in values[1..] <==> level in values && level != values[0]
  {
    if level in values && level != values[0] {
      var i :| 0 <= i < |values| && values[i] == level;
      assert values[1..][i - 1] == level;
    }
  }

  lemma TailInOrder(values: seq<string>)
    requires values != [] && InOrder(values) && forall i :: 0 <= i < |values| ==> values[i] in LEVELS
    ensures InOrder(values[1..]) && forall i :: 0 <= i < |values[1..]| ==> values[1..][i] in LEVELS
  {
    var rest := values[1..];
    assert forall i :: 0 <= i < |rest| ==> rest[i] == values[i + 1];
  }

  lemma SameHead(one: seq<string>, two: seq<string>)
    requires one != [] && two != [] && InOrder(one) && InOrder(two)
    requires forall i :: 0 <= i < |one| ==> one[i] in LEVELS
    requires one[0] in two && two[0] in one
    ensures one[0] == two[0]
  {
    hide Rank;
    var i :| 0 <= i < |one| && one[i] == two[0];
    var j :| 0 <= j < |two| && two[j] == one[0];
    var ranks := (Rank(one[0]), Rank(one[i]), Rank(two[0]), Rank(two[j]));
  }

  lemma FirstIsIn(values: seq<string>)
    ensures values != [] ==> values[0] in values
  {
  }

  /** Normalising leaves a list alone exactly when it is in normal form. */
  lemma EffortsFixed(values: seq<string>)
    ensures CanonicalEfforts(values) == values <==> AreLevels(values) && InOrder(values)
  {
    CanonicalAreEfforts(values);
    if AreLevels(values) && InOrder(values) {
      LevelsMentioned(values);
      OrderedSame(MentionedFrom(values, 0), values);
    }
  }

  lemma LevelsMentioned(values: seq<string>)
    requires forall i :: 0 <= i < |values| ==> values[i] in LEVELS
    ensures forall level :: level in MentionedFrom(values, 0) <==> level in values
    ensures InOrder(MentionedFrom(values, 0)) && forall i :: 0 <= i < |MentionedFrom(values, 0)| ==> MentionedFrom(values, 0)[i] in LEVELS
  {
    MentionedExactly(values, 0);
    hide Mentions, MentionedFrom;
    forall level ensures level in MentionedFrom(values, 0) <==> level in values {
      if level in values {
        var k :| 0 <= k < |LEVELS| && LEVELS[k] == level;
        LevelsMentionThemselves(values, k);
      }
      if level in MentionedFrom(values, 0) {
        var k :| 0 <= k < |LEVELS| && LEVELS[k] == level && Mentions(values, level);
        LevelsMentionThemselves(values, k);
      }
    }
  }

  // ---------- levels of an enumerated parameter ----------

  /** The known levels of the list, each once, as they come. */
  function KnownLevels(values: seq<string>): seq<string> {
    if values == [] then []
    else
      var rest, level := KnownLevels(values[..|values| - 1]), Folded(values[|values| - 1]);
      if level in LEVELS && level !in rest then rest + [level] else rest
  }

  function EnumeratedLevels(values: seq<string>): seq<string> {
    if HasDepth(KnownLevels(values)) then KnownLevels(values) else []
  }

  lemma {:induction false} KnownExactly(values: seq<string>)
    ensures forall level :: level in KnownLevels(values) <==> level in LEVELS && Mentions(values, level)
    ensures forall i, j :: 0 <= i < j < |KnownLevels(values)| ==> KnownLevels(values)[i] != KnownLevels(values)[j]
    decreases |values|
  {
    hide Mentions, Folded;
    if values == [] {
      NothingMentioned();
    } else {
      var n := |values| - 1;
      KnownExactly(values[..n]);
      assert values[..n + 1] == values;
      forall level {
        MentionsNext(values, n, level);
      }
    }
  }

  method EnumLevels(enumerated: bool, values: seq<string>) returns (out: seq<string>)
    ensures out == if enumerated then EnumeratedLevels(values) else []
  {
    if !enumerated || |values| == 0 {
      return [];
    }
    hide Folded, HasDepth, IsDepth;
    out := [];
    var depth, i := false, 0;
    NoDepth();
    while i < |values|
      invariant i <= |values| && out == KnownLevels(values[..i]) && (depth <==> HasDepth(out))
    {
      assert values[..i + 1][..i] == values[..i];
      var level := Folded(values[i]);
      if level in LEVELS && level !in out {
        DepthNext(out, level);
        out := out + [level];
        depth := depth || IsDepth(level);
      }
      i := i + 1;
    }
    assert values[..i] == values;
    if !depth {
      return [];
    }
  }

  lemma EnumeratedAreLevels(values: seq<string>)
    ensures AreLevels(EnumeratedLevels(values))
  {
    KnownExactly(values);
    hide KnownLevels;
  }

  /** An enumerated list is in normal form exactly when the catalog lists the levels in their order:
      normalising only sorts it. */
  lemma EnumeratedNormal(values: seq<string>)
    ensures CanonicalEfforts(EnumeratedLevels(values)) == CanonicalEfforts(values)
    ensures EnumeratedLevels(values) == CanonicalEfforts(values) <==> InOrder(EnumeratedLevels(values))
  {
    EnumeratedAreLevels(values);
    KnownExactly(values);
    MentionedExactly(values, 0);
    var known, from := KnownLevels(values), MentionedFrom(values, 0);
    assert forall level :: level in known <==> level in from by {
      hide Mentions, KnownLevels, MentionedFrom;
    }
    SameDepth(known, from);
    LevelsMentioned(EnumeratedLevels(values));
    EffortsFixed(EnumeratedLevels(values));
    hide Mentions, KnownLevels, MentionedFrom;
    if HasDepth(known) {
      OrderedSame(MentionedFrom(known, 0), from);
    } else {
      assert MentionedFrom([], 0) == [] by { MentionedNothing(); }
    }
  }

  lemma MentionedNothing()
    ensures MentionedFrom([], 0) == []
  {
    MentionedExactly([], 0);
    NothingMentioned();
    FirstIsIn(MentionedFrom([], 0));
  }

  lemma SameDepth(one: seq<string>, two: seq<string>)
    requires forall level :: level in one <==> level in two
    ensures HasDepth(one) <==> HasDepth(two)
  {
    hide IsDepth;
    if HasDepth(one) {
      var i :| 0 <= i < |one| && IsDepth(one[i]);
      assert one[i] in two;
    }
    if HasDepth(two) {
      var i :| 0 <= i < |two| && IsDepth(two[i]);
      assert two[i] in one;
    }
  }

  // ---------- modalities ----------

  predicate AreModalities(values: seq<string>) {
    values == [] || values == ["text"] || values == ["image"] || values == ["text", "image"]
  }

  type Modalities = values: seq<string> | AreModalities(values)

  function CanonicalModalities(values: seq<string>): Modalities {
    if Mentions(values, "text") then (if Mentions(values, "image") then ["text", "image"] else ["text"])
    else if Mentions(values, "image") then ["image"] else []
  }

  method CpaModalities(values: seq<string>) returns (out: seq<string>)
    ensures out == CanonicalModalities(values)
  {
    hide Folded, Mentions;
    var text, image, i := false, false, 0;
    NothingMentioned();
    assert values[..0] == [];
    while i < |values|
      invariant i <= |values| && (text <==> Mentions(values[..i], "text")) && (image <==> Mentions(values[..i], "image"))
    {
      MentionsNext(values, i, "text");
      MentionsNext(values, i, "image");
      text := text || Folded(values[i]) == "text";
      image := image || Folded(values[i]) == "image";
      i := i + 1;
    }
    assert values[..i] == values;
    out := [];
    if text {
      out := out + ["text"];
    }
    if image {
      out := out + ["image"];
    }
  }

  /** Normalising leaves a list alone exactly when it is in normal form. */
  lemma ModalitiesFixed(values: seq<string>)
    ensures CanonicalModalities(values) == values <==> AreModalities(values)
  {
    PlainWordsFold("text");
    PlainWordsFold("image");
    hide Folded;
    if AreModalities(values) {
      assert forall word :: Mentions(values, word) <==> word in values;
    }
  }

  // ---------- what is supplied can be written ----------

  predicate CleanText(text: string) {
    text != "" && !HasControl(text)
  }

  predicate CleanTexts(values: seq<string>) {
    forall i :: 0 <= i < |values| ==> CleanText(values[i])
  }

  lemma PlainIsClean(s: string)
    requires PlainWord(s) && s != ""
    ensures CleanText(s)
  {
  }

  lemma LevelsAreClean(values: Levels)
    ensures CleanTexts(values)
  {
    forall i | 0 <= i < |values| ensures CleanText(values[i]) {
      var k :| 0 <= k < |LEVELS| && LEVELS[k] == values[i];
      LevelsArePlain(k);
      PlainIsClean(values[i]);
    }
  }

  lemma ModalitiesAreClean(values: Modalities)
    ensures CleanTexts(values)
  {
    PlainIsClean("text");
    PlainIsClean("image");
  }
}
