/** What metadata resolution means for a field, and how soon repeating it changes nothing. */
module MetadataStability {
  import opened Options
  import opened MetadataEdit
  import opened MetadataEnrich

  predicate Open(status: Status) {
    status == Skipped || status == Preserved
  }

  /** The reading supplies a field that is in this status. */
  predicate Supplies(status: Status, reading: Reading, field: Field) {
    Authoritatively(reading, field) != NO_VALUE || (status == Skipped && Secondarily(reading, field) != NO_VALUE)
  }

  predicate FirstToSupply(status: Status, readings: seq<Reading>, field: Field, i: nat) {
    && i < |readings| && Supplies(status, readings[i], field)
    && (forall j :: 0 <= j < i ==> !Supplies(status, readings[j], field))
  }

  lemma {:induction false} NoSupplier(state: FieldState, readings: seq<Reading>, field: Field)
    requires Open(state.status) && forall i :: 0 <= i < |readings| ==> !Supplies(state.status, readings[i], field)
    ensures AfterReadings(state, readings, field) == state
    decreases |readings|
  {
    hide Authoritatively, Secondarily;
    if readings != [] {
      NoSupplier(state, readings[..|readings| - 1], field);
    }
  }

  /** Whatever the order of the sources, the first that may supply an open field does, and only that one. */
  lemma {:induction false} FirstSupplierWins(state: FieldState, readings: seq<Reading>, field: Field, i: nat)
    requires Open(state.status) && FirstToSupply(state.status, readings, field, i)
    ensures AfterReadings(state, readings, field) == AfterReading(state, readings[i], field)
    ensures !Open(AfterReadings(state, readings, field).status)
    decreases |readings|
  {
    hide Authoritatively, Secondarily;
    var n := |readings| - 1;
    if i < n {
      FirstSupplierWins(state, readings[..n], field, i);
    } else {
      NoSupplier(state, readings[..n], field);
    }
  }

  /** A field that any source supplied is closed to all later ones. */
  lemma {:induction false} ClosedStays(state: FieldState, readings: seq<Reading>, field: Field)
    requires !Open(state.status)
    ensures AfterReadings(state, readings, field) == state
    decreases |readings|
  {
    if readings != [] {
      ClosedStays(state, readings[..|readings| - 1], field);
    }
  }

  /** The value of the first authoritative source that has one. */
  function FirstAuthoritative(readings: seq<Reading>, field: Field): FieldValue
    decreases |readings|
  {
    if readings == [] then NO_VALUE
    else
      var before := FirstAuthoritative(readings[..|readings| - 1], field);
      if before != NO_VALUE then before else Authoritatively(readings[|readings| - 1], field)
  }

  lemma {:induction false} AfterPreserved(state: FieldState, readings: seq<Reading>, field: Field)
    requires state.status == Preserved
    ensures AfterReadings(state, readings, field).value ==
      if FirstAuthoritative(readings, field) != NO_VALUE then FirstAuthoritative(readings, field) else state.value
    ensures AfterReadings(state, readings, field).status ==
      if FirstAuthoritative(readings, field) != NO_VALUE then Authoritative else Preserved
    decreases |readings|
  {
    hide Authoritatively, Secondarily;
    if readings != [] {
      AfterPreserved(state, readings[..|readings| - 1], field);
    }
  }

  /** From nothing, an authoritative source still has the last word unless a secondary one came before it. */
  lemma {:induction false} AfterUnset(readings: seq<Reading>, field: Field)
    ensures var state := AfterReadings(UNSET, readings, field);
      && (state.value == NO_VALUE <==> state.status == Skipped)
      && (state.status == Skipped ==> state == UNSET && FirstAuthoritative(readings, field) == NO_VALUE)
      && (state.status == Authoritative ==> state.value == FirstAuthoritative(readings, field))
      && (state.status in {Skipped, Authoritative, Completed})
    decreases |readings|
  {
    hide Authoritatively, Secondarily;
    if readings != [] {
      AfterUnset(readings[..|readings| - 1], field);
    }
  }

  /** The value a field reads after one resolution, in one line for each way it can start out. */
  lemma ResolvedValue(model: ModelRef, sources: Sources, field: Field)
    ensures var value := Resolved(model, sources, field).value;
      var first := FirstAuthoritative(sources.readings, field);
      if Get(sources.override, field) != NO_VALUE then value == Get(sources.override, field)
      else if Offered(sources, field) != NO_VALUE && (!IsLimit(field) || Get(model, field) == NO_VALUE) then value == Offered(sources, field)
      else if Get(model, field) != NO_VALUE then value == if first != NO_VALUE then first else Get(model, field)
      else value == AfterReadings(UNSET, sources.readings, field).value
  {
    hide Get, Offered, Authoritatively, Secondarily;
    var state := AfterUpstream(model, sources, field);
    if state.status == FromUpstream {
      ClosedStays(state, sources.readings, field);
    } else if state.status == Preserved {
      AfterPreserved(state, sources.readings, field);
    }
  }

  /** A second resolution may give a limit that upstream or a secondary source filled to the first
      authoritative source; nothing else can move. */
  lemma SecondValue(model: ModelRef, sources: Sources, field: Field)
    ensures var one, two := Get(Enriched(model, sources), field), Get(Enriched(Enriched(model, sources), sources), field);
      var first := FirstAuthoritative(sources.readings, field);
      two == if Get(sources.override, field) == NO_VALUE && one != NO_VALUE && first != NO_VALUE && IsLimit(field) then first else one
  {
    var once := Enriched(model, sources);
    EnrichedReads(model, sources, field);
    EnrichedReads(once, sources, field);
    ResolvedValue(model, sources, field);
    ResolvedValue(once, sources, field);
    AfterUnset(sources.readings, field);
    if !IsLimit(field) {
      ListsAgree(sources.readings, field);
    }
    hide Get, Offered, Resolved, Enriched;
  }

  /** For a list, a secondary source supplies only fields no authoritative source supplies. */
  lemma {:induction false} ListsAgree(readings: seq<Reading>, field: Field)
    requires !IsLimit(field)
    ensures FirstAuthoritative(readings, field) != NO_VALUE ==> AfterReadings(UNSET, readings, field).value == FirstAuthoritative(readings, field)
    ensures field != ThinkingLevels ==> FirstAuthoritative(readings, field) == NO_VALUE
    ensures field == ThinkingLevels ==> AfterReadings(UNSET, readings, field).status != Completed
    decreases |readings|
  {
    if readings != [] {
      ListsAgree(readings[..|readings| - 1], field);
      AfterUnset(readings[..|readings| - 1], field);
    }
  }

  lemma {:induction false} OnlyOutputAuthoritative(readings: seq<Reading>, field: Field)
    requires IsLimit(field) && field != MaxOutputTokens
    ensures FirstAuthoritative(readings, field) == NO_VALUE
    decreases |readings|
  {
    if readings != [] {
      OnlyOutputAuthoritative(readings[..|readings| - 1], field);
    }
  }

  // ---------- the theorems ----------

  /** One resolution settles every field but the output limit. */
  lemma SettledButOutput(model: ModelRef, sources: Sources, field: Field)
    requires field != MaxOutputTokens
    ensures Get(Enriched(Enriched(model, sources), sources), field) == Get(Enriched(model, sources), field)
  {
    SecondValue(model, sources, field);
    if IsLimit(field) {
      OnlyOutputAuthoritative(sources.readings, field);
    }
    hide Get, Enriched;
  }

  /** Two resolutions settle everything. */
  lemma SettledAfterTwo(model: ModelRef, sources: Sources)
    ensures var twice := Enriched(Enriched(model, sources), sources); Enriched(twice, sources) == twice
  {
    var once := Enriched(model, sources);
    var twice := Enriched(once, sources);
    forall field ensures Get(Enriched(twice, sources), field) == Get(twice, field) {
      SecondValue(model, sources, field);
      SecondValue(once, sources, field);
    }
    EnrichedReads(twice, sources, ThinkingLevels);
    SameFields(Enriched(twice, sources), twice);
  }

  /** The configuration insists that modelparams sources precede models.dev sources. */
  predicate AuthoritativeFirst(readings: seq<Reading>) {
    forall i, j :: 0 <= i < j < |readings| && readings[j].Modelparams? ==> readings[i].Modelparams?
  }

  lemma {:induction false} OrderedSuppliers(readings: seq<Reading>, field: Field)
    requires AuthoritativeFirst(readings)
    ensures FirstAuthoritative(readings, field) != NO_VALUE ==> AfterReadings(UNSET, readings, field).value == FirstAuthoritative(readings, field)
    decreases |readings|
  {
    if readings != [] {
      var rest := readings[..|readings| - 1];
      OrderedSuppliers(rest, field);
      AfterUnset(rest, field);
      if readings[|readings| - 1].Modelparams? && FirstAuthoritative(rest, field) == NO_VALUE {
        NothingSecondary(rest, field);
      }
    }
  }

  lemma {:induction false} NothingSecondary(readings: seq<Reading>, field: Field)
    requires (forall i :: 0 <= i < |readings| ==> readings[i].Modelparams?) && FirstAuthoritative(readings, field) == NO_VALUE
    ensures AfterReadings(UNSET, readings, field) == UNSET
    decreases |readings|
  {
    if readings != [] {
      NothingSecondary(readings[..|readings| - 1], field);
    }
  }

  /** Upstream filled an empty output limit and the first authoritative source knows better. */
  predicate OutputMoves(model: ModelRef, sources: Sources) {
    var first := FirstAuthoritative(sources.readings, MaxOutputTokens);
    && sources.override.maxOutput == 0 && model.maxOutput == 0
    && Offered(sources, MaxOutputTokens) != NO_VALUE
    && first != NO_VALUE && first != Offered(sources, MaxOutputTokens)
  }

  /** One resolution settles everything exactly when the output limit does not move that way. */
  lemma SettledAfterOneExactly(model: ModelRef, sources: Sources)
    requires AuthoritativeFirst(sources.readings)
    ensures Enriched(Enriched(model, sources), sources) == Enriched(model, sources) <==> !OutputMoves(model, sources)
  {
    var once := Enriched(model, sources);
    var twice := Enriched(once, sources);
    SecondValue(model, sources, MaxOutputTokens);
    ResolvedValue(model, sources, MaxOutputTokens);
    EnrichedReads(model, sources, MaxOutputTokens);
    OrderedSuppliers(sources.readings, MaxOutputTokens);
    if Get(twice, MaxOutputTokens) == Get(once, MaxOutputTokens) {
      forall field ensures Get(twice, field) == Get(once, field) {
        if field != MaxOutputTokens {
          SettledButOutput(model, sources, field);
        }
      }
      EnrichedReads(once, sources, ThinkingLevels);
      SameFields(twice, once);
    }
  }

  /** It does happen: upstream says 10, the authoritative source 20. */
  lemma OutputCanMove()
    ensures var empty := ModelRef("m", [], 0, 0, 0, [], []);
      var sources := Sources(true, Upstream([], 0, 10, 0, None, None), [Modelparams("modelparams.dev/x/api_key", [], 20)], empty);
      && Enriched(empty, sources).maxOutput == 10
      && Enriched(Enriched(empty, sources), sources).maxOutput == 20
  {
    var empty := ModelRef("m", [], 0, 0, 0, [], []);
    var reading := Modelparams("modelparams.dev/x/api_key", [], 20);
    var sources := Sources(true, Upstream([], 0, 10, 0, None, None), [reading], empty);
    assert [reading][..0] == [];
    assert FirstAuthoritative([], MaxOutputTokens) == NO_VALUE;
    assert FirstAuthoritative([reading], MaxOutputTokens) == Limit(20);
    ResolvedValue(empty, sources, MaxOutputTokens);
    EnrichedReads(empty, sources, MaxOutputTokens);
    SecondValue(empty, sources, MaxOutputTokens);
  }
}
