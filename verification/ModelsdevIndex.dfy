/** Looking up a model in the models.dev catalog of one provider. The parser files every entry under its key,
    its identifier and its bare name; a lookup that goes through these maps finds what a scan of all entries
    would. A continuation keeps the entries found by key only, and it is said exactly when that changes a lookup. */
module ModelsdevIndex {
  import opened Options
  import opened YamlTree

  datatype Model = Model(key: string, id: string, context: nat, maxOutput: nat, inputs: seq<string>, outputs: seq<string>)

  /** An entry that says nothing is skipped. */
  predicate Useful(model: Model) {
    model.context > 0 || model.maxOutput > 0 || model.inputs != [] || model.outputs != []
  }

  /** The lower case of one character, whatever table that is taken from. */
  type Letter = char -> char

  function Lower(letter: Letter, text: string): string {
    seq(|text|, i requires 0 <= i < |text| => letter(text[i]))
  }

  /** The slash, and nothing else, is a slash in lower case. */
  ghost predicate Letterwise(letter: Letter) {
    letter('/') == '/' && forall c :: letter(c) == '/' ==> c == '/'
  }

  /** What follows the last slash. */
  function Bare(id: string): (bare: string)
    ensures '/' !in bare
    decreases |id|
  {
    if '/' in id then Bare(AfterSlash(id)) else id
  }

  /** What follows the first slash. */
  function AfterSlash(id: string): (rest: string)
    requires '/' in id
    ensures |rest| < |id|
  {
    if id[0] == '/' then id[1..] else AfterSlash(id[1..])
  }

  datatype Index = Index(byKey: map<string, Model>, byId: map<string, seq<Model>>, byBare: map<string, seq<Model>>)

  // ---------- what is filed where ----------

  datatype Place = UnderKey | UnderId | UnderBare

  function FiledAs(letter: Letter, place: Place, model: Model): string {
    match place
    case UnderKey => Lower(letter, model.key)
    case UnderId => Lower(letter, model.id)
    case UnderBare => Lower(letter, Bare(model.id))
  }

  /** The useful entries filed so, in the order they came. */
  function Filed(letter: Letter, models: seq<Model>, place: Place, text: string): seq<Model>
    decreases |models|
  {
    if models == [] then []
    else
      var last := models[|models| - 1];
      Filed(letter, models[..|models| - 1], place, text) + if Useful(last) && FiledAs(letter, place, last) == text then [last] else []
  }

  function Listed(lists: map<string, seq<Model>>, text: string): seq<Model> {
    if text in lists then lists[text] else []
  }

  /** The maps hold exactly what is filed under the text; of several entries with one key the last one stays. */
  predicate IndexedAt(letter: Letter, index: Index, models: seq<Model>, text: string) {
    var keyed := Filed(letter, models, UnderKey, text);
    && Listed(index.byId, text) == Filed(letter, models, UnderId, text)
    && Listed(index.byBare, text) == Filed(letter, models, UnderBare, text)
    && (text in index.byKey <==> keyed != [])
    && (text in index.byKey ==> index.byKey[text] == keyed[|keyed| - 1])
  }

  ghost predicate Indexed(letter: Letter, index: Index, models: seq<Model>) {
    forall text :: IndexedAt(letter, index, models, text)
  }

  /** One more entry. */
  function With(letter: Letter, index: Index, model: Model): Index {
    var key, id, bare := FiledAs(letter, UnderKey, model), FiledAs(letter, UnderId, model), FiledAs(letter, UnderBare, model);
    if Useful(model) then
      Index(index.byKey[key := model], index.byId[id := Listed(index.byId, id) + [model]],
        index.byBare[bare := Listed(index.byBare, bare) + [model]])
    else index
  }

  method BuildIndex(letter: Letter, models: seq<Model>) returns (index: Index)
    ensures Indexed(letter, index, models)
  {
    hide Indexed, With, Lower;
    index := Index(map[], map[], map[]);
    NothingIndexed(letter);
    var i := 0;
    assert models[..0] == [];
    while i < |models|
      invariant i <= |models| && Indexed(letter, index, models[..i])
    {
      ghost var before := index;
      var model := models[i];
      if Useful(model) {
        var key, id, bare := Lower(letter, model.key), Lower(letter, model.id), Lower(letter, Bare(model.id));
        index := Index(index.byKey[key := model],
          index.byId[id := Listed(index.byId, id) + [model]],
          index.byBare[bare := Listed(index.byBare, bare) + [model]]);
      }
      WithIs(letter, before, model);
      OneMoreIndexed(letter, before, models, i);
      i := i + 1;
    }
    assert models[..i] == models;
  }

  lemma NothingIndexed(letter: Letter)
    ensures Indexed(letter, Index(map[], map[], map[]), [])
  {
  }

  lemma WithIs(letter: Letter, index: Index, model: Model)
    ensures var key, id, bare := Lower(letter, model.key), Lower(letter, model.id), Lower(letter, Bare(model.id));
      With(letter, index, model) == if Useful(model) then
        Index(index.byKey[key := model], index.byId[id := Listed(index.byId, id) + [model]],
          index.byBare[bare := Listed(index.byBare, bare) + [model]])
        else index
  {
    hide Lower;
  }

  lemma FiledNext(letter: Letter, models: seq<Model>, i: nat, place: Place, text: string)
    requires i < |models|
    ensures Filed(letter, models[..i + 1], place, text) == Filed(letter, models[..i], place, text)
      + (if Useful(models[i]) && FiledAs(letter, place, models[i]) == text then [models[i]] else [])
  {
    hide FiledAs, Useful;
    assert models[..i + 1][..i] == models[..i];
  }

  lemma OneMoreIndexed(letter: Letter, index: Index, models: seq<Model>, i: nat)
    requires i < |models| && Indexed(letter, index, models[..i])
    ensures Indexed(letter, With(letter, index, models[i]), models[..i + 1])
  {
    var next, more := With(letter, index, models[i]), models[..i + 1];
    hide IndexedAt, With;
    forall text ensures IndexedAt(letter, next, more, text) {
      OneMoreAt(letter, index, models, i, text);
    }
  }

  lemma OneMoreAt(letter: Letter, index: Index, models: seq<Model>, i: nat, text: string)
    requires i < |models| && IndexedAt(letter, index, models[..i], text)
    ensures IndexedAt(letter, With(letter, index, models[i]), models[..i + 1], text)
  {
    FiledNext(letter, models, i, UnderKey, text);
    FiledNext(letter, models, i, UnderId, text);
    FiledNext(letter, models, i, UnderBare, text);
    hide FiledAs, Useful, Filed;
  }

  // ---------- the lookup ----------

  predicate SameKey(letter: Letter, one: Model, two: Model) {
    Lower(letter, one.key) == Lower(letter, two.key)
  }

  /** All entries have one key when case is ignored. */
  predicate OneKey(letter: Letter, models: seq<Model>) {
    forall i, j :: 0 <= i < j < |models| ==> SameKey(letter, models[i], models[j])
  }

  /** The one match, if there is one and only one key among the matches. */
  function Only(letter: Letter, models: seq<Model>): Option<Model> {
    if models != [] && OneKey(letter, models) then Some(models[0]) else None
  }

  function Slashes(id: string): nat {
    if id == "" then 0 else (if id[0] == '/' then 1 else 0) + Slashes(id[1..])
  }

  lemma {:induction false} SlashesAre(id: string)
    ensures Slashes(id) > 0 <==> '/' in id
  {
    if id != "" {
      SlashesAre(id[1..]);
    }
  }

  /** A scan of all entries: by key; else by identifier, if that is unambiguous; else, for a name with one
      prefix, by what follows it. */
  function Scanned(letter: Letter, models: seq<Model>, name: string): Option<Model> {
    var id := TrimSpace(name);
    var keyed := Filed(letter, models, UnderKey, Lower(letter, id));
    var byId := Only(letter, Filed(letter, models, UnderId, Lower(letter, id)));
    if id == "" then None
    else if keyed != [] then Some(keyed[|keyed| - 1])
    else if byId.Some? then byId
    else if Slashes(id) != 1 then None
    else
      SlashesAre(id);
      Only(letter, Filed(letter, models, UnderBare, Lower(letter, AfterSlash(id))))
  }

  predicate KeyIn(letter: Letter, models: seq<Model>, model: Model) {
    exists k :: 0 <= k < |models| && SameKey(letter, models[k], model)
  }

  /** One entry for each key, the first. */
  function Uniques(letter: Letter, models: seq<Model>): seq<Model>
    decreases |models|
  {
    if models == [] then []
    else
      var rest, last := models[..|models| - 1], models[|models| - 1];
      Uniques(letter, rest) + if KeyIn(letter, rest, last) then [] else [last]
  }

  lemma {:induction false} KeysKept(letter: Letter, models: seq<Model>, model: Model)
    ensures KeyIn(letter, Uniques(letter, models), model) <==> KeyIn(letter, models, model)
    decreases |models|
  {
    if models != [] {
      var rest, last := models[..|models| - 1], models[|models| - 1];
      KeysKept(letter, rest, model);
      KeyInMore(letter, rest, last, model);
      KeyInMore(letter, Uniques(letter, rest), last, model);
      hide Lower, SameKey, KeyIn;
      assert models == rest + [last];
      if KeyIn(letter, rest, last) {
        KeyOfLast(letter, rest, last, model);
        assert Uniques(letter, models) == Uniques(letter, rest);
      }
    }
  }

  /** Every key is there, and once; the first of all entries comes first. */
  lemma {:induction false} UniquesAre(letter: Letter, models: seq<Model>)
    ensures forall model :: model in Uniques(letter, models) ==> model in models
    ensures forall model :: KeyIn(letter, Uniques(letter, models), model) <==> KeyIn(letter, models, model)
    ensures forall i, j :: 0 <= i < j < |Uniques(letter, models)| ==> !SameKey(letter, Uniques(letter, models)[i], Uniques(letter, models)[j])
    ensures if models == [] then Uniques(letter, models) == [] else Uniques(letter, models) != [] && Uniques(letter, models)[0] == models[0]
    decreases |models|
  {
    forall model ensures KeyIn(letter, Uniques(letter, models), model) <==> KeyIn(letter, models, model) {
      KeysKept(letter, models, model);
    }
    if models != [] {
      var rest, last := models[..|models| - 1], models[|models| - 1];
      UniquesAre(letter, rest);
      assert models == rest + [last];
      UniqueSoFar(letter, Uniques(letter, rest), last);
      assert rest == [] ==> !KeyIn(letter, rest, last);
      hide SameKey, KeyIn;
    }
  }

  lemma KeyInMore(letter: Letter, models: seq<Model>, last: Model, model: Model)
    ensures KeyIn(letter, models + [last], model) <==> KeyIn(letter, models, model) || SameKey(letter, last, model)
  {
    hide Lower;
    var more := models + [last];
    assert more[|models|] == last;
    if KeyIn(letter, models, model) {
      var k :| 0 <= k < |models| && SameKey(letter, models[k], model);
      assert SameKey(letter, more[k], model);
    }
  }

  lemma KeyOfLast(letter: Letter, models: seq<Model>, last: Model, model: Model)
    requires KeyIn(letter, models, last)
    ensures SameKey(letter, last, model) ==> KeyIn(letter, models, model)
  {
    hide Lower;
    var k :| 0 <= k < |models| && SameKey(letter, models[k], last);
    if SameKey(letter, last, model) {
      assert SameKey(letter, models[k], model);
    }
  }

  lemma UniqueSoFar(letter: Letter, unique: seq<Model>, last: Model)
    requires forall i, j :: 0 <= i < j < |unique| ==> !SameKey(letter, unique[i], unique[j])
    ensures var more := unique + [last];
      !KeyIn(letter, unique, last) ==> forall i, j :: 0 <= i < j < |more| ==> !SameKey(letter, more[i], more[j])
  {
    hide Lower, SameKey;
  }

  /** There is one of them exactly when all entries have one key. */
  lemma UniquesTell(letter: Letter, models: seq<Model>)
    ensures var unique := Uniques(letter, models);
      Only(letter, models) == if |unique| == 1 then Some(unique[0]) else None
  {
    var unique := Uniques(letter, models);
    UniquesAre(letter, models);
    KeyMembers(letter, models);
    hide Uniques, Lower, OneKey;
    if |unique| == 1 {
      forall one, two | one in models && two in models ensures SameKey(letter, one, two) {
        HasKey(letter, models, one);
        HasKey(letter, models, two);
        assert KeyIn(letter, unique, one) && KeyIn(letter, unique, two);
      }
      assert OneKey(letter, models) && models != [];
    } else if |unique| > 1 {
      assert unique[0] in models && unique[1] in models && !SameKey(letter, unique[0], unique[1]);
    }
  }

  lemma HasKey(letter: Letter, models: seq<Model>, model: Model)
    requires model in models
    ensures KeyIn(letter, models, model)
  {
    var k :| 0 <= k < |models| && models[k] == model;
  }

  /** The loop with the keys seen so far. The source also sorts the entries, which matters to no caller. */
  method UniqueEntries(letter: Letter, models: seq<Model>) returns (unique: seq<Model>)
    ensures unique == Uniques(letter, models)
    ensures Only(letter, models) == if |unique| == 1 then Some(unique[0]) else None
  {
    hide Lower;
    unique := [];
    var seen: set<string> := {};
    var i := 0;
    while i < |models|
      invariant i <= |models| && unique == Uniques(letter, models[..i])
      invariant forall text :: text in seen <==> exists k :: 0 <= k < i && Lower(letter, models[k].key) == text
    {
      var key := Lower(letter, models[i].key);
      assert models[..i + 1][..i] == models[..i];
      if key !in seen {
        assert !KeyIn(letter, models[..i], models[i]);
        seen := seen + {key};
        unique := unique + [models[i]];
      } else {
        var k :| 0 <= k < i && Lower(letter, models[k].key) == key;
        assert SameKey(letter, models[..i][k], models[i]);
      }
      i := i + 1;
    }
    assert models[..i] == models;
    UniquesTell(letter, models);
  }

  method LookupSource(letter: Letter, index: Index, name: string, ghost models: seq<Model>) returns (found: Option<Model>)
    requires Indexed(letter, index, models)
    ensures found == Scanned(letter, models, name)
  {
    hide Filed, Lower, TrimSpace, Only, Uniques;
    var id := TrimSpace(name);
    if id == "" {
      return None;
    }
    assert IndexedAt(letter, index, models, Lower(letter, id));
    if Lower(letter, id) in index.byKey {
      return Some(index.byKey[Lower(letter, id)]);
    }
    var entries := UniqueEntries(letter, Listed(index.byId, Lower(letter, id)));
    if |entries| == 1 {
      return Some(entries[0]);
    }
    if Slashes(id) != 1 {
      return None;
    }
    SlashesAre(id);
    assert IndexedAt(letter, index, models, Lower(letter, AfterSlash(id)));
    entries := UniqueEntries(letter, Listed(index.byBare, Lower(letter, AfterSlash(id))));
    return if |entries| == 1 then Some(entries[0]) else None;
  }

  // ---------- members ----------

  predicate Candidate(letter: Letter, models: seq<Model>, place: Place, text: string, model: Model) {
    model in models && Useful(model) && FiledAs(letter, place, model) == text
  }

  lemma {:induction false} FiledMembers(letter: Letter, models: seq<Model>, place: Place, text: string)
    ensures forall model :: model in Filed(letter, models, place, text) <==> Candidate(letter, models, place, text, model)
    decreases |models|
  {
    hide Useful, FiledAs;
    if models != [] {
      FiledMembers(letter, models[..|models| - 1], place, text);
      assert models == models[..|models| - 1] + [models[|models| - 1]];
    }
  }

  lemma KeyMembers(letter: Letter, models: seq<Model>)
    ensures OneKey(letter, models) <==> forall one, two :: one in models && two in models ==> SameKey(letter, one, two)
  {
    hide Lower;
    if OneKey(letter, models) {
      forall one, two | one in models && two in models ensures SameKey(letter, one, two) {
        var i :| 0 <= i < |models| && models[i] == one;
        var j :| 0 <= j < |models| && models[j] == two;
        assert i < j ==> SameKey(letter, models[i], models[j]);
        assert j < i ==> SameKey(letter, models[j], models[i]);
      }
    }
  }

  // ---------- the order of the entries ----------

  /** No two entries that count have the same key when case is ignored. */
  ghost predicate KeysDiffer(letter: Letter, models: seq<Model>) {
    forall i, j :: 0 <= i < j < |models| && Useful(models[i]) && Useful(models[j]) ==> !SameKey(letter, models[i], models[j])
  }

  ghost predicate Sole(letter: Letter, models: seq<Model>, place: Place, text: string, model: Model) {
    Candidate(letter, models, place, text, model) && forall other :: Candidate(letter, models, place, text, other) ==> other == model
  }

  ghost predicate AnyCandidate(letter: Letter, models: seq<Model>, place: Place, text: string) {
    exists model :: Candidate(letter, models, place, text, model)
  }

  /** The entry has the key; or no entry has and it alone has the identifier; or no entry has either alone, the
      name has one prefix, and the entry alone has what follows as its bare name. */
  ghost predicate Found(letter: Letter, models: seq<Model>, name: string, model: Model) {
    var id := TrimSpace(name);
    && id != ""
    && (if AnyCandidate(letter, models, UnderKey, Lower(letter, id)) then Candidate(letter, models, UnderKey, Lower(letter, id), model)
        else if exists other :: Sole(letter, models, UnderId, Lower(letter, id), other) then Sole(letter, models, UnderId, Lower(letter, id), model)
        else Slashes(id) == 1 && SlashIn(id) && Sole(letter, models, UnderBare, Lower(letter, AfterSlash(id)), model))
  }

  predicate SlashIn(id: string) {
    '/' in id
  }

  /** Entries that are filed alike and have the same key are the same. */
  lemma SameKeySame(letter: Letter, models: seq<Model>, one: Model, two: Model)
    requires KeysDiffer(letter, models) && one in models && two in models && Useful(one) && Useful(two)
    ensures SameKey(letter, one, two) ==> one == two
  {
    hide Useful, Lower;
    var i :| 0 <= i < |models| && models[i] == one;
    var j :| 0 <= j < |models| && models[j] == two;
  }

  lemma OnlyIsSole(letter: Letter, models: seq<Model>, place: Place, text: string)
    requires KeysDiffer(letter, models)
    ensures forall model :: Only(letter, Filed(letter, models, place, text)) == Some(model) <==> Sole(letter, models, place, text, model)
  {
    var filed := Filed(letter, models, place, text);
    FiledMembers(letter, models, place, text);
    KeyMembers(letter, filed);
    forall one, two | one in filed && two in filed ensures SameKey(letter, one, two) ==> one == two {
      SameKeySame(letter, models, one, two);
    }
    hide Useful, FiledAs, SameKey, Filed, KeysDiffer, Candidate, OneKey;
    if filed != [] {
      assert filed[0] in filed;
    }
  }

  lemma KeyIsSole(letter: Letter, models: seq<Model>, text: string)
    requires KeysDiffer(letter, models)
    ensures var keyed := Filed(letter, models, UnderKey, text);
      && (keyed != [] <==> AnyCandidate(letter, models, UnderKey, text))
      && (keyed != [] ==> forall model :: keyed[|keyed| - 1] == model <==> Candidate(letter, models, UnderKey, text, model))
  {
    var keyed := Filed(letter, models, UnderKey, text);
    FiledMembers(letter, models, UnderKey, text);
    hide Useful, Lower, Filed, KeysDiffer;
    if keyed != [] {
      var last := keyed[|keyed| - 1];
      assert last in keyed;
      forall model | Candidate(letter, models, UnderKey, text, model) ensures model == last {
        SameKeySame(letter, models, model, last);
      }
    }
  }

  /** A lookup finds an entry exactly when it is the one entry it can be, which has nothing to do with the
      order the entries were filed in. */
  lemma LookupExactly(letter: Letter, models: seq<Model>, name: string, model: Model)
    requires KeysDiffer(letter, models)
    ensures Scanned(letter, models, name) == Some(model) <==> Found(letter, models, name, model)
  {
    var id := TrimSpace(name);
    if id != "" {
      KeyIsSole(letter, models, Lower(letter, id));
      OnlyIsSole(letter, models, UnderId, Lower(letter, id));
      SlashesAre(id);
      if '/' in id {
        OnlyIsSole(letter, models, UnderBare, Lower(letter, AfterSlash(id)));
      }
    }
    hide Filed, Candidate, Sole, AnyCandidate, Lower, TrimSpace, KeysDiffer, Only;
    if id != "" && Filed(letter, models, UnderKey, Lower(letter, id)) == [] {
      var filed := Only(letter, Filed(letter, models, UnderId, Lower(letter, id)));
      assert filed.Some? ==> Sole(letter, models, UnderId, Lower(letter, id), filed.value);
    }
  }

  lemma SameCandidates(letter: Letter, one: seq<Model>, two: seq<Model>, place: Place, text: string)
    requires forall model :: model in one && Useful(model) <==> model in two && Useful(model)
    ensures AnyCandidate(letter, one, place, text) <==> AnyCandidate(letter, two, place, text)
    ensures forall model :: Candidate(letter, one, place, text, model) <==> Candidate(letter, two, place, text, model)
    ensures forall model :: Sole(letter, one, place, text, model) <==> Sole(letter, two, place, text, model)
  {
    hide Useful, FiledAs;
    forall model ensures Candidate(letter, one, place, text, model) <==> Candidate(letter, two, place, text, model) {
    }
  }

  /** The same entries in any order answer every lookup alike. */
  lemma OrderDoesNotMatter(letter: Letter, one: seq<Model>, two: seq<Model>, name: string)
    requires KeysDiffer(letter, one) && KeysDiffer(letter, two)
    requires forall model :: model in one && Useful(model) <==> model in two && Useful(model)
    ensures Scanned(letter, one, name) == Scanned(letter, two, name)
  {
    var id := TrimSpace(name);
    SameCandidates(letter, one, two, UnderKey, Lower(letter, id));
    SameCandidates(letter, one, two, UnderId, Lower(letter, id));
    if '/' in id {
      SameCandidates(letter, one, two, UnderBare, Lower(letter, AfterSlash(id)));
    }
    var first, second := Scanned(letter, one, name), Scanned(letter, two, name);
    forall model ensures first == Some(model) <==> second == Some(model) {
      LookupExactly(letter, one, name, model);
      LookupExactly(letter, two, name, model);
      hide Scanned, KeysDiffer, Candidate, Sole, AnyCandidate, Lower, TrimSpace;
    }
    assert first.Some? ==> second == Some(first.value);
  }

  // ---------- the catalog in a continuation ----------

  /** A continuation carries only the entries found by key, and the next call files those again, in any order. */
  ghost predicate Carried(index: Index, again: seq<Model>) {
    && (forall model :: model in again <==> exists text :: text in index.byKey && index.byKey[text] == model)
    && (forall i, j :: 0 <= i < j < |again| ==> again[i] != again[j])
  }

  /** Of the useful entries with its key it is the last. */
  predicate Stays(letter: Letter, models: seq<Model>, model: Model) {
    var keyed := Filed(letter, models, UnderKey, Lower(letter, model.key));
    keyed != [] && keyed[|keyed| - 1] == model
  }

  /** What is filed under the text answers as before: all of it stays, or two entries of it do, or nothing of it
      does and it was ambiguous already. */
  ghost predicate AnswersAlike(letter: Letter, models: seq<Model>, place: Place, text: string) {
    var filed := Filed(letter, models, place, text);
    || (forall model :: model in filed ==> Stays(letter, models, model))
    || (exists one, two :: one in filed && two in filed && one != two && Stays(letter, models, one) && Stays(letter, models, two))
    || (!OneKey(letter, filed) && forall model :: model in filed ==> !Stays(letter, models, model))
  }

  ghost predicate AllAlike(letter: Letter, models: seq<Model>) {
    && (forall text :: Filed(letter, models, UnderKey, text) == [] ==> AnswersAlike(letter, models, UnderId, text))
    && (forall text :: AnswersAlike(letter, models, UnderBare, text))
  }

  /** The names of one object are different, and identifiers have text without white space around it. */
  ghost predicate Parsed(models: seq<Model>) {
    && (forall i, j :: 0 <= i < j < |models| ==> models[i].key != models[j].key)
    && (forall i :: 0 <= i < |models| ==> models[i].id != "" && TrimSpace(models[i].id) == models[i].id)
  }

  ghost predicate Again(letter: Letter, models: seq<Model>, again: seq<Model>) {
    && (forall model :: model in again <==> Stays(letter, models, model))
    && (forall i, j :: 0 <= i < j < |again| ==> again[i] != again[j])
  }

  lemma StaysUseful(letter: Letter, models: seq<Model>, model: Model)
    requires Stays(letter, models, model)
    ensures model in models && Useful(model)
  {
    var keyed := Filed(letter, models, UnderKey, Lower(letter, model.key));
    FiledMembers(letter, models, UnderKey, Lower(letter, model.key));
    hide Useful, Lower, Filed;
    assert keyed[|keyed| - 1] in keyed;
  }

  lemma StaysAlone(letter: Letter, models: seq<Model>, one: Model, two: Model)
    requires Stays(letter, models, one) && Stays(letter, models, two) && SameKey(letter, one, two)
    ensures one == two
  {
    hide Lower, Filed;
  }

  /** What is carried is what stays. */
  lemma CarriedStays(letter: Letter, index: Index, models: seq<Model>, again: seq<Model>)
    requires Indexed(letter, index, models) && Carried(index, again)
    ensures Again(letter, models, again)
  {
    forall model ensures model in again <==> Stays(letter, models, model) {
      CarriedStay(letter, index, models, model);
    }
  }

  lemma CarriedStay(letter: Letter, index: Index, models: seq<Model>, model: Model)
    requires Indexed(letter, index, models)
    ensures (exists text :: text in index.byKey && index.byKey[text] == model) <==> Stays(letter, models, model)
  {
    hide Useful, Lower;
    forall text | text in index.byKey && index.byKey[text] == model ensures text == Lower(letter, model.key) {
      assert IndexedAt(letter, index, models, text);
      FiledMembers(letter, models, UnderKey, text);
      hide Filed;
      assert model in Filed(letter, models, UnderKey, text);
    }
    assert IndexedAt(letter, index, models, Lower(letter, model.key));
  }

  /** Of what is filed under a text, the entries that stay are filed again. */
  lemma FiledAgain(letter: Letter, models: seq<Model>, again: seq<Model>, place: Place, text: string)
    requires Again(letter, models, again)
    ensures forall model :: model in Filed(letter, again, place, text) <==>
      model in Filed(letter, models, place, text) && Stays(letter, models, model)
  {
    FiledMembers(letter, models, place, text);
    FiledMembers(letter, again, place, text);
    hide Useful, FiledAs, Filed, Stays;
    forall model | Stays(letter, models, model) ensures model in models && Useful(model) {
      StaysUseful(letter, models, model);
    }
  }

  /** A key leads to the same entry as before. */
  lemma KeyAgain(letter: Letter, models: seq<Model>, again: seq<Model>, text: string)
    requires Again(letter, models, again)
    ensures var keyed, kept := Filed(letter, models, UnderKey, text), Filed(letter, again, UnderKey, text);
      && (kept == [] <==> keyed == [])
      && (keyed != [] ==> kept[|kept| - 1] == keyed[|keyed| - 1])
  {
    var keyed, kept := Filed(letter, models, UnderKey, text), Filed(letter, again, UnderKey, text);
    FiledAgain(letter, models, again, UnderKey, text);
    FiledMembers(letter, models, UnderKey, text);
    hide Filed, Lower, Useful, Again;
    if keyed != [] {
      var last := keyed[|keyed| - 1];
      assert last in keyed && Stays(letter, models, last);
      assert last in kept;
    }
    if kept != [] {
      assert kept[|kept| - 1] in kept && kept[|kept| - 1] in keyed;
    }
  }

  /** If the first of the entries filed under a text stays, and they have one key, there is no other. */
  lemma {:induction false} FirstStays(letter: Letter, models: seq<Model>, place: Place, text: string)
    requires forall i, j :: 0 <= i < j < |models| ==> models[i] != models[j]
    requires var filed := Filed(letter, models, place, text);
      filed != [] && OneKey(letter, filed) && Stays(letter, models, filed[0])
    ensures |Filed(letter, models, place, text)| == 1
    decreases |models|
  {
    var filed := Filed(letter, models, place, text);
    var n := |models| - 1;
    var rest, last := models[..n], models[n];
    var before := Filed(letter, rest, place, text);
    FiledMembers(letter, rest, place, text);
    hide Useful, FiledAs, Lower, SameKey;
    if before != [] {
      assert before[0] in before && before[0] in rest && before[0] != last;
      assert filed[0] == before[0];
      LastKeyed(letter, models, before[0]);
      assert !(Useful(last) && SameKey(letter, last, before[0]));
      if Useful(last) && FiledAs(letter, place, last) == text {
        assert filed[|before|] == last && SameKey(letter, filed[0], filed[|before|]);
        KeySymmetric(letter, filed[0], last);
        assert false;
      }
      assert forall i :: 0 <= i < |before| ==> before[i] == filed[i];
      FirstStays(letter, rest, place, text);
    }
  }

  lemma KeySymmetric(letter: Letter, one: Model, two: Model)
    ensures SameKey(letter, one, two) <==> SameKey(letter, two, one)
  {
  }

  /** An entry that stays and is not the last one of the list stays without that one, which has another key. */
  lemma LastKeyed(letter: Letter, models: seq<Model>, model: Model)
    requires models != [] && Stays(letter, models, model) && model != models[|models| - 1]
    ensures Stays(letter, models[..|models| - 1], model)
    ensures !(Useful(models[|models| - 1]) && SameKey(letter, models[|models| - 1], model))
  {
    hide Lower, Useful;
  }

  /** What answers alike gives the same result. */
  lemma LevelKeeps(letter: Letter, models: seq<Model>, again: seq<Model>, place: Place, text: string)
    requires Again(letter, models, again) && AnswersAlike(letter, models, place, text)
    ensures Only(letter, Filed(letter, again, place, text)) == Only(letter, Filed(letter, models, place, text))
  {
    var filed, kept := Filed(letter, models, place, text), Filed(letter, again, place, text);
    FiledAgain(letter, models, again, place, text);
    KeyMembers(letter, filed);
    KeyMembers(letter, kept);
    forall one, two | Stays(letter, models, one) && Stays(letter, models, two) && SameKey(letter, one, two) ensures one == two {
      StaysAlone(letter, models, one, two);
    }
    hide Filed, SameKey, Stays, OneKey, Again;
    assert filed != [] ==> filed[0] in filed;
    assert kept != [] ==> kept[0] in kept;
  }

  /** What gives the same result answers alike. */
  lemma LevelTells(letter: Letter, models: seq<Model>, again: seq<Model>, place: Place, text: string)
    requires Again(letter, models, again) && Parsed(models)
    requires Only(letter, Filed(letter, again, place, text)) == Only(letter, Filed(letter, models, place, text))
    ensures AnswersAlike(letter, models, place, text)
  {
    var filed, kept := Filed(letter, models, place, text), Filed(letter, again, place, text);
    FiledAgain(letter, models, again, place, text);
    KeyMembers(letter, kept);
    hide Filed, SameKey, Stays, OneKey, Again;
    if filed != [] {
      assert filed[0] in filed;
      if OneKey(letter, filed) {
        assert kept != [] && kept[0] == filed[0] && kept[0] in kept;
        FirstStays(letter, models, place, text);
      } else {
        assert kept != [] ==> kept[0] in kept;
      }
    }
  }

  /** If everything answers alike, so does every lookup. */
  lemma AlikeSuffices(letter: Letter, models: seq<Model>, again: seq<Model>, name: string)
    requires Again(letter, models, again) && AllAlike(letter, models)
    ensures Scanned(letter, again, name) == Scanned(letter, models, name)
  {
    var id := TrimSpace(name);
    SlashesAre(id);
    hide Filed, Lower, TrimSpace, Again, AnswersAlike, Only, SameKey, Stays, OneKey, Slashes, AfterSlash;
    KeyAgain(letter, models, again, Lower(letter, id));
    if Filed(letter, models, UnderKey, Lower(letter, id)) == [] {
      LevelKeeps(letter, models, again, UnderId, Lower(letter, id));
      if '/' in id {
        LevelKeeps(letter, models, again, UnderBare, Lower(letter, AfterSlash(id)));
      }
    }
  }

  // ---------- names that tell the difference ----------

  lemma {:induction false} BareAfterSlash(id: string)
    requires Slashes(id) == 1
    ensures '/' in id && AfterSlash(id) == Bare(id)
  {
    SlashesAre(id);
    OneSlashAfter(id);
    SlashesAre(AfterSlash(id));
  }

  lemma {:induction false} OneSlashAfter(id: string)
    requires '/' in id
    ensures Slashes(AfterSlash(id)) == Slashes(id) - 1
  {
    if id[0] != '/' {
      OneSlashAfter(id[1..]);
    }
  }

  /** Identifiers that agree when case is ignored have bare names that do. */
  lemma {:induction false} BareLower(letter: Letter, one: string, two: string)
    requires Letterwise(letter) && Lower(letter, one) == Lower(letter, two)
    ensures Lower(letter, Bare(one)) == Lower(letter, Bare(two))
    decreases |one|
  {
    SlashLower(letter, one, two);
    SlashLower(letter, two, one);
    if '/' in one {
      AfterLower(letter, one, two);
      BareLower(letter, AfterSlash(one), AfterSlash(two));
    }
  }

  lemma SlashLower(letter: Letter, one: string, two: string)
    requires Letterwise(letter) && Lower(letter, one) == Lower(letter, two)
    ensures '/' in one ==> '/' in two
  {
    LowerAt(letter, one, two);
    if '/' in one {
      var i :| 0 <= i < |one| && one[i] == '/';
      assert two[i] == '/';
    }
  }

  lemma LowerAt(letter: Letter, one: string, two: string)
    requires Letterwise(letter) && Lower(letter, one) == Lower(letter, two)
    ensures |one| == |two| && forall i :: 0 <= i < |one| ==> letter(one[i]) == letter(two[i]) && (one[i] == '/' <==> two[i] == '/')
  {
    assert |Lower(letter, one)| == |one| && |Lower(letter, two)| == |two|;
    forall i | 0 <= i < |one| ensures letter(one[i]) == letter(two[i]) {
      assert Lower(letter, one)[i] == Lower(letter, two)[i];
    }
  }

  lemma {:induction false} AfterLower(letter: Letter, one: string, two: string)
    requires Letterwise(letter) && Lower(letter, one) == Lower(letter, two) && '/' in one && '/' in two
    ensures Lower(letter, AfterSlash(one)) == Lower(letter, AfterSlash(two))
  {
    LowerAt(letter, one, two);
    assert Lower(letter, one[1..]) == Lower(letter, two[1..]);
    if one[0] != '/' {
      AfterLower(letter, one[1..], two[1..]);
    }
  }

  /** What a lookup finds afterwards is an entry that stays. */
  lemma FoundStays(letter: Letter, models: seq<Model>, again: seq<Model>, place: Place, text: string)
    requires Again(letter, models, again)
    ensures var found := Only(letter, Filed(letter, again, place, text)); found.Some? ==> Stays(letter, models, found.value)
  {
    FiledAgain(letter, models, again, place, text);
    hide Filed, Stays, OneKey;
    var kept := Filed(letter, again, place, text);
    assert kept != [] ==> kept[0] in kept;
  }

  /** An unambiguous entry that stays is found again. */
  lemma StaysFound(letter: Letter, models: seq<Model>, again: seq<Model>, place: Place, text: string)
    requires Again(letter, models, again)
    ensures var found := Only(letter, Filed(letter, models, place, text));
      found.Some? && Stays(letter, models, found.value) ==> Only(letter, Filed(letter, again, place, text)).Some?
  {
    var filed, kept := Filed(letter, models, place, text), Filed(letter, again, place, text);
    FiledAgain(letter, models, again, place, text);
    KeyMembers(letter, filed);
    KeyMembers(letter, kept);
    hide Filed, Stays, OneKey, SameKey, Again;
    assert filed != [] ==> filed[0] in filed;
  }

  /** What is ambiguous under an identifier is so under its bare name. */
  lemma BareAmbiguous(letter: Letter, models: seq<Model>, text: string, model: Model)
    requires Letterwise(letter) && model in Filed(letter, models, UnderId, text) && Slashes(model.id) == 1 && SlashIn(model.id)
    requires Only(letter, Filed(letter, models, UnderId, text)).None?
    ensures Only(letter, Filed(letter, models, UnderBare, Lower(letter, AfterSlash(model.id)))).None?
  {
    var byId, byBare := Filed(letter, models, UnderId, text), Filed(letter, models, UnderBare, Lower(letter, Bare(model.id)));
    BareAfterSlash(model.id);
    FiledMembers(letter, models, UnderId, text);
    FiledMembers(letter, models, UnderBare, Lower(letter, Bare(model.id)));
    KeyMembers(letter, byId);
    KeyMembers(letter, byBare);
    hide Filed, Useful, SameKey, OneKey, Lower, Letterwise;
    forall other | other in byId ensures other in byBare {
      BareLower(letter, other.id, model.id);
    }
  }

  /** An identifier tells whether what is filed under it answers alike. */
  lemma IdTells(letter: Letter, models: seq<Model>, again: seq<Model>, text: string, model: Model)
    requires Letterwise(letter) && Parsed(models) && Again(letter, models, again)
    requires Filed(letter, models, UnderKey, text) == [] && model in Filed(letter, models, UnderId, text)
    requires Scanned(letter, again, model.id) == Scanned(letter, models, model.id)
    ensures Only(letter, Filed(letter, again, UnderId, text)) == Only(letter, Filed(letter, models, UnderId, text))
  {
    FiledMembers(letter, models, UnderId, text);
    assert model in models && Lower(letter, model.id) == text && TrimSpace(model.id) == model.id != "";
    hide Filed, Useful, Lower, Letterwise, Parsed, Only, Stays, Again, TrimSpace;
    KeyAgain(letter, models, again, text);
    StaysFound(letter, models, again, UnderId, text);
    if Slashes(model.id) == 1 {
      SlashesAre(model.id);
      FoundStays(letter, models, again, UnderBare, Lower(letter, AfterSlash(model.id)));
      if Only(letter, Filed(letter, models, UnderId, text)).None? {
        BareAmbiguous(letter, models, text, model);
      }
    }
  }

  // ---------- a name with a new prefix ----------

  function Xs(n: nat): string {
    if n == 0 then "" else "x" + Xs(n - 1)
  }

  function Longer(n: nat, text: string): nat {
    if |text| > n then |text| else n
  }

  /** The length of the longest key or identifier. */
  function Longest(models: seq<Model>): nat
    decreases |models|
  {
    if models == [] then 0
    else
      var last := models[|models| - 1];
      Longer(Longer(Longest(models[..|models| - 1]), last.key), last.id)
  }

  /** No key and no identifier is as long as this. */
  function Prefixed(models: seq<Model>, bare: string): string {
    Xs(Longest(models) + 1) + ("/" + bare)
  }

  lemma {:induction false} XsLength(n: nat)
    ensures |Xs(n)| == n
  {
    if n > 0 {
      XsLength(n - 1);
    }
  }

  lemma {:induction false} NoneLonger(models: seq<Model>, model: Model)
    requires model in models
    ensures |model.key| <= Longest(models) && |model.id| <= Longest(models)
    decreases |models|
  {
    var n := |models| - 1;
    if model != models[n] {
      assert model in models[..n];
      NoneLonger(models[..n], model);
    }
  }

  lemma TooLong(letter: Letter, models: seq<Model>, place: Place, text: string)
    requires |text| > Longest(models) && place != UnderBare
    ensures Filed(letter, models, place, text) == []
  {
    var filed := Filed(letter, models, place, text);
    FiledMembers(letter, models, place, text);
    hide Filed, Useful;
    if filed != [] {
      assert filed[0] in filed;
      assert |FiledAs(letter, place, filed[0])| == |text|;
      NoneLonger(models, filed[0]);
    }
  }

  lemma {:induction false} PrefixedSlashes(n: nat, bare: string)
    requires '/' !in bare
    ensures var name := Xs(n) + ("/" + bare); Slashes(name) == 1 && '/' in name && AfterSlash(name) == bare
  {
    var name := Xs(n) + ("/" + bare);
    if n == 0 {
      SlashesAre(bare);
      assert name == "/" + bare;
      assert name[0] == '/' && name[1..] == bare;
    } else {
      PrefixedSlashes(n - 1, bare);
      var rest := Xs(n - 1) + ("/" + bare);
      assert name == "x" + rest;
      assert name[0] == 'x' && name[1..] == rest;
      var i :| 0 <= i < |rest| && rest[i] == '/';
      assert name[i + 1] == '/';
    }
  }

  lemma {:induction false} TrimsShorter(text: string)
    ensures |TrimLeft(text)| <= |text| && |TrimRight(text)| <= |text|
  {
    if text != [] {
      TrimsShorter(text[1..]);
      TrimsShorter(text[..|text| - 1]);
    }
  }

  lemma TrimmedEnd(text: string)
    requires text != "" && TrimSpace(text) == text
    ensures !IsSpace(text[|text| - 1])
  {
    TrimsShorter(text);
    TrimsShorter(TrimLeft(text));
    TrimsShorter(text[1..]);
    TrimsShorter(text[..|text| - 1]);
  }

  lemma Unspaced(text: string)
    requires text != "" && !IsSpace(text[0]) && !IsSpace(text[|text| - 1])
    ensures TrimSpace(text) == text
  {
  }

  lemma {:induction false} BareIsEnd(id: string)
    ensures |Bare(id)| <= |id| && Bare(id) == id[|id| - |Bare(id)|..]
    decreases |id|
  {
    if '/' in id {
      AfterIsEnd(id);
      BareIsEnd(AfterSlash(id));
    }
  }

  lemma {:induction false} AfterIsEnd(id: string)
    requires '/' in id
    ensures AfterSlash(id) == id[|id| - |AfterSlash(id)|..]
  {
    if id[0] != '/' {
      AfterIsEnd(id[1..]);
    }
  }

  lemma PrefixedTrimmed(models: seq<Model>, id: string)
    requires id != "" && TrimSpace(id) == id
    ensures TrimSpace(Prefixed(models, Bare(id))) == Prefixed(models, Bare(id)) != ""
  {
    var name := Prefixed(models, Bare(id));
    BareIsEnd(id);
    TrimmedEnd(id);
    hide Bare, TrimSpace, Longest;
    assert name[0] == 'x';
    assert name[|name| - 1] == if Bare(id) == "" then '/' else id[|id| - 1];
    Unspaced(name);
  }

  /** The name with a new prefix tells whether what is filed under a bare name answers alike. */
  lemma BareTells(letter: Letter, models: seq<Model>, again: seq<Model>, text: string, model: Model)
    requires Parsed(models) && Again(letter, models, again) && model in Filed(letter, models, UnderBare, text)
    requires var name := Prefixed(models, Bare(model.id)); Scanned(letter, again, name) == Scanned(letter, models, name)
    ensures Only(letter, Filed(letter, again, UnderBare, text)) == Only(letter, Filed(letter, models, UnderBare, text))
  {
    FiledMembers(letter, models, UnderBare, text);
    assert model in models && Lower(letter, Bare(model.id)) == text;
    var bare := Bare(model.id);
    var name := Prefixed(models, bare);
    PrefixedTrimmed(models, model.id);
    PrefixedSlashes(Longest(models) + 1, bare);
    XsLength(Longest(models) + 1);
    var lower := Lower(letter, name);
    assert |lower| > Longest(models);
    TooLong(letter, models, UnderKey, lower);
    TooLong(letter, models, UnderId, lower);
    KeyAgain(letter, models, again, lower);
    NothingAgain(letter, models, again, UnderId, lower);
    hide Filed, Lower, OneKey, Parsed, Again, Prefixed, TrimSpace, Slashes, Bare, AfterSlash;
    assert Scanned(letter, models, name) == Only(letter, Filed(letter, models, UnderBare, text));
  }

  lemma NothingAgain(letter: Letter, models: seq<Model>, again: seq<Model>, place: Place, text: string)
    requires Again(letter, models, again) && Filed(letter, models, place, text) == []
    ensures Filed(letter, again, place, text) == []
  {
    FiledAgain(letter, models, again, place, text);
    hide Filed, Stays, Again;
    HasMember(Filed(letter, again, place, text));
  }

  lemma HasMember(models: seq<Model>)
    ensures models != [] ==> exists model :: model in models
  {
    if models != [] {
      assert models[0] in models;
    }
  }

  // ---------- exactly when nothing is lost ----------

  ghost predicate SameLookups(letter: Letter, models: seq<Model>, again: seq<Model>) {
    forall name :: Scanned(letter, again, name) == Scanned(letter, models, name)
  }

  lemma NothingFiled(letter: Letter, models: seq<Model>, place: Place, text: string)
    requires Filed(letter, models, place, text) == []
    ensures AnswersAlike(letter, models, place, text)
  {
  }

  lemma LookupsTell(letter: Letter, models: seq<Model>, again: seq<Model>, place: Place, text: string)
    requires Letterwise(letter) && Parsed(models) && Again(letter, models, again) && SameLookups(letter, models, again)
    requires place == UnderBare || (place == UnderId && Filed(letter, models, UnderKey, text) == [])
    ensures AnswersAlike(letter, models, place, text)
  {
    var filed := Filed(letter, models, place, text);
    hide Filed, Parsed, Again, Letterwise, Scanned, AnswersAlike, Only;
    if filed == [] {
      NothingFiled(letter, models, place, text);
    } else {
      assert filed[0] in filed;
      if place == UnderId {
        IdTells(letter, models, again, text, filed[0]);
      } else {
        BareTells(letter, models, again, text, filed[0]);
      }
      LevelTells(letter, models, again, place, text);
    }
  }

  /** The catalog filed again answers every lookup as before exactly when everything answers alike. */
  lemma CarriedAgreesExactly(letter: Letter, index: Index, models: seq<Model>, again: seq<Model>)
    requires Letterwise(letter) && Parsed(models) && Indexed(letter, index, models) && Carried(index, again)
    ensures SameLookups(letter, models, again) <==> AllAlike(letter, models)
  {
    hide Letterwise, Parsed, Indexed, Carried, AnswersAlike, Scanned, Again, Filed;
    CarriedStays(letter, index, models, again);
    if AllAlike(letter, models) {
      forall name ensures Scanned(letter, again, name) == Scanned(letter, models, name) {
        AlikeSuffices(letter, models, again, name);
      }
    }
    if SameLookups(letter, models, again) {
      forall text | Filed(letter, models, UnderKey, text) == [] ensures AnswersAlike(letter, models, UnderId, text) {
        LookupsTell(letter, models, again, UnderId, text);
      }
      forall text ensures AnswersAlike(letter, models, UnderBare, text) {
        LookupsTell(letter, models, again, UnderBare, text);
      }
    }
  }

  lemma AllStay(letter: Letter, models: seq<Model>, place: Place, text: string)
    requires KeysDiffer(letter, models)
    ensures AnswersAlike(letter, models, place, text)
  {
    FiledMembers(letter, models, place, text);
    hide Useful, Lower, Filed;
    forall model | model in Filed(letter, models, place, text) ensures Stays(letter, models, model) {
      var keyed := Filed(letter, models, UnderKey, Lower(letter, model.key));
      FiledMembers(letter, models, UnderKey, Lower(letter, model.key));
      assert model in keyed && keyed[|keyed| - 1] in keyed;
      SameKeySame(letter, models, model, keyed[|keyed| - 1]);
    }
  }

  /** So nothing is lost if no two keys agree when case is ignored. */
  lemma CarriedAgrees(letter: Letter, index: Index, models: seq<Model>, again: seq<Model>)
    requires Indexed(letter, index, models) && KeysDiffer(letter, models) && Carried(index, again)
    ensures SameLookups(letter, models, again)
  {
    hide KeysDiffer, Indexed, Carried, AnswersAlike, Scanned, Again, Filed;
    CarriedStays(letter, index, models, again);
    forall text, place ensures AnswersAlike(letter, models, place, text) {
      AllStay(letter, models, place, text);
    }
    forall name ensures Scanned(letter, again, name) == Scanned(letter, models, name) {
      AlikeSuffices(letter, models, again, name);
    }
  }

  const FIRST := Model("k", "a", 1, 0, [], [])
  const KELVIN := Model("\U{212A}", "b", 2, 0, [], [])

  /** Otherwise something may be: the Kelvin sign is another letter than k in upper case and the same in lower
      case. Of two entries under these keys the continuation keeps one, and the other is found before and not
      after. */
  lemma CarriedDiffers(letter: Letter, index: Index, first: Model, second: Model)
    requires letter('k') == letter('\U{212A}') == 'k' && letter('a') == 'a' && letter('b') == 'b'
    requires first == FIRST && second == KELVIN && Indexed(letter, index, [first, second])
    ensures Carried(index, [second])
    ensures Scanned(letter, [first, second], "a") == Some(first) && Scanned(letter, [second], "a").None?
  {
    Folds(letter);
    Filings(letter, first, second);
    ATrimmed();
    hide Lower, Filed, TrimSpace, Slashes, FiledAs;
    forall text ensures text in index.byKey <==> text == "k" {
      assert IndexedAt(letter, index, [first, second], text);
    }
    assert index.byKey["k"] == second by {
      assert IndexedAt(letter, index, [first, second], "k");
    }
    hide Indexed;
    assert second in [second];
  }

  lemma Folds(letter: Letter)
    requires letter('k') == letter('\U{212A}') == 'k' && letter('a') == 'a' && letter('b') == 'b'
    ensures Lower(letter, "k") == "k" && Lower(letter, "\U{212A}") == "k" && Lower(letter, "a") == "a" && Lower(letter, "b") == "b"
  {
  }

  lemma ATrimmed()
    ensures TrimSpace("a") == "a" && Slashes("a") == 0
  {
    assert TrimLeft("a") == "a" && TrimRight("a") == "a";
  }

  /** Both entries are filed under k, and one each under a and b. */
  lemma Filings(letter: Letter, first: Model, second: Model)
    requires letter('k') == letter('\U{212A}') == 'k' && letter('a') == 'a' && letter('b') == 'b'
    requires first == FIRST && second == KELVIN
    ensures forall text :: Filed(letter, [first, second], UnderKey, text) == if text == "k" then [first, second] else []
    ensures forall text :: Filed(letter, [second], UnderKey, text) == if text == "k" then [second] else []
    ensures Filed(letter, [first, second], UnderId, "a") == [first] && Filed(letter, [second], UnderId, "a") == []
  {
    Folds(letter);
    hide Lower, Filed;
    forall text {
      FiledTwo(letter, first, second, UnderKey, text);
    }
    FiledTwo(letter, first, second, UnderId, "a");
  }

  lemma FiledOne(letter: Letter, one: Model, place: Place, text: string)
    ensures Filed(letter, [one], place, text) == if Useful(one) && FiledAs(letter, place, one) == text then [one] else []
  {
    hide FiledAs, Useful;
    assert [one][..0] == [];
    assert Filed(letter, [one][..0], place, text) == [];
  }

  lemma FiledTwo(letter: Letter, one: Model, two: Model, place: Place, text: string)
    ensures Filed(letter, [two], place, text) == if Useful(two) && FiledAs(letter, place, two) == text then [two] else []
    ensures Filed(letter, [one, two], place, text) ==
      (if Useful(one) && FiledAs(letter, place, one) == text then [one] else [])
      + (if Useful(two) && FiledAs(letter, place, two) == text then [two] else [])
  {
    FiledOne(letter, one, place, text);
    FiledOne(letter, two, place, text);
    hide FiledAs, Useful;
    assert [one, two][..1] == [one];
  }
}
