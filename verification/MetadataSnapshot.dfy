/** From the snapshot to the proposal: the models of a channel are read from the document, a finished run
    has planned their patches, and the patched document reads as direct enrichment says. */
module MetadataSnapshot {
  import opened Options
  import opened YamlGraph
  import opened YamlTree
  import opened YamlClone
  import opened YamlChannels
  import opened MetadataEdit
  import opened MetadataEnrich
  import opened CatalogValues
  import opened MetadataReadBack
  import opened MetadataPlanner
  import R = MetadataRun

  // ---------- reading the models of a channel ----------

  /** None when the model has no usable name or some field of it cannot be read. */
  ghost function ReadModel(integer: IntegerReader, model: Tree): Option<ModelRef> {
    if ExactName(model).None? || exists field :: ReadField(integer, model, field).None? then None
    else
      var value := (field: Field) requires ReadField(integer, model, field).Some? => ReadField(integer, model, field).value;
      Some(ModelRef(ExactName(model).value, value(ThinkingLevels).strings, Amount(value(MaxContextLength)), Amount(value(MaxInputTokens)),
        Amount(value(MaxOutputTokens)), value(InputModalities).strings, value(OutputModalities).strings))
  }

  lemma ReadModelReads(integer: IntegerReader, model: Tree, ref: ModelRef)
    ensures ReadModel(integer, model) == Some(ref) <==> Reads(integer, model, ref)
  {
    hide ExactName, ReadLevels, ScalarStringSequence, OptionalPositiveInt, ValueOf;
    if ReadModel(integer, model).Some? {
      forall field ensures ReadField(integer, model, field) == Some(Get(ReadModel(integer, model).value, field)) {
        ReadShape(integer, model, field);
      }
    }
    if Reads(integer, model, ref) {
      SameFields(ReadModel(integer, model).value, ref);
    }
  }

  lemma ReadShape(integer: IntegerReader, model: Tree, field: Field)
    requires ReadField(integer, model, field).Some?
    ensures var value := ReadField(integer, model, field).value;
      if IsLimit(field) then value == Limit(Amount(value)) else value == List(value.strings)
  {
  }

  ghost function Snapshot(integer: IntegerReader, models: seq<Tree>): Option<seq<ModelRef>> {
    if exists k :: 0 <= k < |models| && ReadModel(integer, models[k]).None? then None
    else Some(seq(|models|, k requires 0 <= k < |models| => ReadModel(integer, models[k]).value))
  }

  method ReadLevelsNode(value: Option<Tree>) returns (levels: Option<seq<string>>)
    ensures levels == ReadLevels(value)
  {
    if value.None? {
      return Some([]);
    }
    if value.value.shell.kind != MappingNode {
      return None;
    }
    var direct := HasNoIndirection(value.value);
    return if direct then ScalarStringSequence(ValueOf(value.value, "levels")) else None;
  }

  method ReadModelNode(integer: IntegerReader, model: Tree) returns (ref: Option<ModelRef>)
    ensures ref == ReadModel(integer, model)
  {
    hide ExactName, ValueOf, OptionalPositiveInt, ScalarStringSequence, ReadLevels;
    var name := ExactName(model);
    var context := OptionalPositiveInt(integer, ValueOf(model, "max-context-length"));
    var input := OptionalPositiveInt(integer, ValueOf(model, "max-input-tokens"));
    var output := OptionalPositiveInt(integer, ValueOf(model, "max-output-tokens"));
    var inputs := ScalarStringSequence(ValueOf(model, "input-modalities"));
    var outputs := ScalarStringSequence(ValueOf(model, "output-modalities"));
    var levels := ReadLevelsNode(ValueOf(model, "thinking"));
    assert ReadField(integer, model, ThinkingLevels).Some? <==> levels.Some?;
    assert ReadField(integer, model, MaxContextLength).Some? <==> context.Some?;
    assert ReadField(integer, model, MaxInputTokens).Some? <==> input.Some?;
    assert ReadField(integer, model, MaxOutputTokens).Some? <==> output.Some?;
    assert ReadField(integer, model, InputModalities).Some? <==> inputs.Some?;
    assert ReadField(integer, model, OutputModalities).Some? <==> outputs.Some?;
    if name.None? || context.None? || input.None? || output.None? || inputs.None? || outputs.None? || levels.None? {
      return None;
    }
    forall field ensures ReadField(integer, model, field).Some? {
    }
    return Some(ModelRef(name.value, levels.value, context.value, input.value, output.value, inputs.value, outputs.value));
  }

  method SnapshotModels(integer: IntegerReader, models: seq<Tree>) returns (refs: Option<seq<ModelRef>>)
    ensures refs == Snapshot(integer, models)
  {
    hide ReadModel;
    var read: seq<ModelRef> := [];
    var i := 0;
    while i < |models|
      invariant i == |read| <= |models|
      invariant forall k :: 0 <= k < i ==> ReadModel(integer, models[k]) == Some(read[k])
    {
      var ref := ReadModelNode(integer, models[i]);
      if ref.None? {
        return None;
      }
      read := read + [ref.value];
      i := i + 1;
    }
    assert read == Snapshot(integer, models).value;
    return Some(read);
  }

  // ---------- the patches of a channel ----------

  ghost predicate NamesDiffer(refs: seq<ModelRef>) {
    forall i, j :: 0 <= i < j < |refs| ==> refs[i].name != refs[j].name
  }

  lemma PatchesNext(refs: seq<ModelRef>, channel: R.Channel, upstream: R.Entries, mp: Option<R.Catalog>, md: Option<R.Catalog>)
    requires refs != []
    ensures var last := refs[|refs| - 1];
      var patch := R.PatchFor(last, R.SourcesOf(channel, upstream, mp, md, last.name));
      R.Patches(refs, channel, upstream, mp, md) ==
        R.Patches(refs[..|refs| - 1], channel, upstream, mp, md) + if patch == map[] then [] else [ModelPatch(last.name, patch)]
  {
    hide R.PatchFor, R.SourcesOf;
  }

  lemma {:induction false} PatchNames(refs: seq<ModelRef>, channel: R.Channel, upstream: R.Entries, mp: Option<R.Catalog>, md: Option<R.Catalog>)
    ensures forall i :: 0 <= i < |R.Patches(refs, channel, upstream, mp, md)| ==> Named(refs, R.Patches(refs, channel, upstream, mp, md)[i].model)
    ensures NamesDiffer(refs) ==> DistinctPatches(R.Patches(refs, channel, upstream, mp, md))
    decreases |refs|
  {
    hide R.PatchFor, R.SourcesOf;
    if refs == [] {
      assert R.Patches(refs, channel, upstream, mp, md) == [];
    } else {
      var n := |refs| - 1;
      PatchNames(refs[..n], channel, upstream, mp, md);
      PatchesNext(refs, channel, upstream, mp, md);
      hide R.Patches;
      var before, all := R.Patches(refs[..n], channel, upstream, mp, md), R.Patches(refs, channel, upstream, mp, md);
      forall i | 0 <= i < |all| ensures Named(refs, all[i].model) {
        if i < |before| {
          assert all[i] == before[i];
          var k :| 0 <= k < n && refs[..n][k].name == before[i].model;
          assert refs[k].name == all[i].model;
        } else {
          assert refs[n].name == all[i].model;
        }
      }
      if NamesDiffer(refs) {
        forall i, j | 0 <= i < j < |all| ensures all[i].model != all[j].model {
          assert all[i] == before[i];
          if j < |before| {
            assert all[j] == before[j];
          } else {
            var k :| 0 <= k < n && refs[..n][k].name == before[i].model;
            assert refs[k].name != refs[n].name;
          }
        }
      }
    }
  }

  ghost predicate Named(refs: seq<ModelRef>, name: string) {
    exists k :: 0 <= k < |refs| && refs[k].name == name
  }

  /** Each model finds the patch that was planned for it. */
  lemma {:induction false} PatchFound(refs: seq<ModelRef>, channel: R.Channel, upstream: R.Entries, mp: Option<R.Catalog>, md: Option<R.Catalog>, k: nat)
    requires NamesDiffer(refs) && k < |refs|
    ensures var patch := R.PatchFor(refs[k], R.SourcesOf(channel, upstream, mp, md, refs[k].name));
      PatchFor(R.Patches(refs, channel, upstream, mp, md), refs[k].name) == if patch == map[] then None else Some(patch)
    decreases |refs|
  {
    hide R.PatchFor, R.SourcesOf;
    var n := |refs| - 1;
    var before, all := R.Patches(refs[..n], channel, upstream, mp, md), R.Patches(refs, channel, upstream, mp, md);
    PatchesNext(refs, channel, upstream, mp, md);
    hide R.Patches;
    PatchNames(refs[..n], channel, upstream, mp, md);
    var patch := R.PatchFor(refs[n], R.SourcesOf(channel, upstream, mp, md, refs[n].name));
    if patch != map[] {
      LastAdded(before, ModelPatch(refs[n].name, patch), refs[k].name);
    }
    assert patch == map[] ==> all == before;
    hide PatchFor;
    if k < n {
      PatchFound(refs[..n], channel, upstream, mp, md, k);
      assert refs[..n][k] == refs[k] && refs[k].name != refs[n].name;
    } else {
      forall i | 0 <= i < |before| ensures before[i].model != refs[n].name {
        var j :| 0 <= j < n && refs[..n][j].name == before[i].model;
        assert refs[j].name == before[i].model;
      }
      PatchForUnknown(before, refs[n].name);
    }
  }

  lemma LastAdded(before: seq<ModelPatch>, last: ModelPatch, name: string)
    ensures PatchFor(before + [last], name) == if last.model == name then Some(last.fields) else PatchFor(before, name)
  {
    assert (before + [last])[..|before|] == before;
  }

  /** What direct enrichment makes of the models of a channel. */
  function EnrichedAll(refs: seq<ModelRef>, channel: R.Channel, upstream: R.Entries, mp: Option<R.Catalog>, md: Option<R.Catalog>): (r: seq<ModelRef>)
    ensures |r| == |refs|
    ensures forall k :: 0 <= k < |refs| ==> r[k] == Enriched(refs[k], R.SourcesOf(channel, upstream, mp, md, refs[k].name))
  {
    seq(|refs|, k requires 0 <= k < |refs| => Enriched(refs[k], R.SourcesOf(channel, upstream, mp, md, refs[k].name)))
  }

  /** The keys of the fields in which two models differ. */
  function ChangedKeys(before: ModelRef, after: ModelRef): set<string> {
    set k | 0 <= k < |FIELDS| && Get(before, FIELDS[k]) != Get(after, FIELDS[k]) :: FieldKey(FIELDS[k])
  }

  /** One model of the channel: it can be patched, reads as resolved, and nothing else of it has moved. */
  lemma ModelReadsBack(integer: IntegerReader, model: Tree, ref: ModelRef, sources: Sources)
    requires Editable(model) && Reads(integer, model, ref) && ReadsDecimals(integer)
    ensures var after := Enriched(ref, sources);
      var patched := EditModel(model, R.PatchFor(ref, sources), |FIELDS|);
      patched.Some? && Reads(integer, patched.value, after) && EditedInPlace(model, patched.value, ChangedKeys(ref, after))
  {
    hide Resolved, Get, Enriched, EditModel, Reads, Editable;
    var states := R.StatesOf(ref, sources);
    forall field ensures StateOf(states, field) == Resolved(ref, sources, field) {
      var n := FieldHasPlace(field);
    }
    PatchReadsBack(integer, model, ref, sources, states);
    PatchIsTheDifference(ref, sources, states);
    var patch := R.PatchFor(ref, sources);
    EditModelInPlace(model, patch, |FIELDS|);
    assert TouchedKeys(patch, |FIELDS|) == ChangedKeys(ref, Enriched(ref, sources)) by {
      hide FieldKey, EditedInPlace;
      assert forall k :: 0 <= k < |FIELDS| ==> (FIELDS[k] in patch <==> Get(ref, FIELDS[k]) != Get(Enriched(ref, sources), FIELDS[k]));
    }
  }

  lemma {:induction false} NothingToEdit(model: Tree, n: nat)
    requires n <= |FIELDS|
    ensures EditModel(model, map[], n) == Some(model)
  {
    if n > 0 {
      NothingToEdit(model, n - 1);
    }
  }

  /** What a channel's model becomes, read back. */
  lemma PatchedModelReads(integer: IntegerReader, models: seq<Tree>, refs: seq<ModelRef>, channel: R.Channel, upstream: R.Entries,
      mp: Option<R.Catalog>, md: Option<R.Catalog>, k: nat)
    requires Snapshot(integer, models) == Some(refs) && NamesDiffer(refs) && k < |models| && Editable(models[k]) && ReadsDecimals(integer)
    ensures var patches := R.Patches(refs, channel, upstream, mp, md);
      var after := Enriched(refs[k], R.SourcesOf(channel, upstream, mp, md, refs[k].name));
      && PatchedModel(models[k], patches).Some? && ReadModel(integer, PatchedModel(models[k], patches).value) == Some(after)
      && EditedInPlace(models[k], PatchedModel(models[k], patches).value, ChangedKeys(refs[k], after))
  {
    hide ReadModel, EditModel, Editable, R.Patches, R.SourcesOf, R.PatchFor, Enriched, EditedInPlace, ChangedKeys;
    assert ReadModel(integer, models[k]) == Some(refs[k]);
    ReadModelReads(integer, models[k], refs[k]);
    var sources := R.SourcesOf(channel, upstream, mp, md, refs[k].name);
    ModelReadsBack(integer, models[k], refs[k], sources);
    PatchFound(refs, channel, upstream, mp, md, k);
    NothingToEdit(models[k], |FIELDS|);
    assert PatchedModel(models[k], R.Patches(refs, channel, upstream, mp, md)) == EditModel(models[k], R.PatchFor(refs[k], sources), |FIELDS|);
    ReadModelReads(integer, PatchedModel(models[k], R.Patches(refs, channel, upstream, mp, md)).value, Enriched(refs[k], sources));
  }

  lemma SnapshotNames(integer: IntegerReader, models: seq<Tree>, refs: seq<ModelRef>)
    requires Snapshot(integer, models) == Some(refs)
    ensures |refs| == |models| && forall k :: 0 <= k < |models| ==> ExactName(models[k]) == Some(refs[k].name)
    ensures ExactlyNamed(models) ==> NamesDiffer(refs)
  {
    hide ReadField, ExactName;
    forall k | 0 <= k < |models| ensures ExactName(models[k]) == Some(refs[k].name) {
      assert ReadModel(integer, models[k]) == Some(refs[k]);
    }
  }

  /** Read-back of a channel: its models are read, resolved, patched in place and read again. Every patch
      finds its model and can be applied, what is read is what resolution made of the models, in their
      order, and in each of them only the values of changed fields have moved. */
  lemma ChannelReadsBack(integer: IntegerReader, models: seq<Tree>, refs: seq<ModelRef>, channel: R.Channel, upstream: R.Entries,
      mp: Option<R.Catalog>, md: Option<R.Catalog>)
    requires Snapshot(integer, models) == Some(refs) && ExactlyNamed(models) && ReadsDecimals(integer)
    requires forall k :: 0 <= k < |models| ==> Editable(models[k])
    ensures var patches := R.Patches(refs, channel, upstream, mp, md);
      && DistinctPatches(patches) && Targets(models, patches) && AllPatched(models, patches)
      && Snapshot(integer, PatchedModels(models, patches)) == Some(EnrichedAll(refs, channel, upstream, mp, md))
      && (forall k :: 0 <= k < |models| ==> EditedInPlace(models[k], PatchedModels(models, patches)[k],
           ChangedKeys(refs[k], EnrichedAll(refs, channel, upstream, mp, md)[k])))
  {
    hide ReadModel, Editable, R.Patches, R.SourcesOf, Enriched, EditedInPlace, ChangedKeys, PatchedModel, ExactlyNamed, ExactName;
    SnapshotNames(integer, models, refs);
    PatchNames(refs, channel, upstream, mp, md);
    var patches := R.Patches(refs, channel, upstream, mp, md);
    forall i | 0 <= i < |patches| ensures HasModel(models, patches[i].model) {
      var k :| 0 <= k < |refs| && refs[k].name == patches[i].model;
      assert ExactName(models[k]) == Some(patches[i].model);
    }
    forall k | 0 <= k < |models|
      ensures PatchedModel(models[k], patches).Some?
      ensures ReadModel(integer, PatchedModel(models[k], patches).value) == Some(EnrichedAll(refs, channel, upstream, mp, md)[k])
      ensures EditedInPlace(models[k], PatchedModel(models[k], patches).value, ChangedKeys(refs[k], EnrichedAll(refs, channel, upstream, mp, md)[k]))
    {
      PatchedModelReads(integer, models, refs, channel, upstream, mp, md, k);
    }
    var patched := PatchedModels(models, patches);
    assert Snapshot(integer, patched).value == EnrichedAll(refs, channel, upstream, mp, md);
  }
}
