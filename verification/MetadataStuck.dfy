/** Runs that fail on their own state: everything they are given is in order, and yet no call accepts the
    continuation they hand out. */
module MetadataStuck {
  import opened Options
  import opened YamlTree
  import opened MetadataEdit
  import opened MetadataEnrich
  import opened CatalogValues
  import opened MetadataRun
  import opened MetadataPlanner
  import opened MetadataContinuation
  import opened MetadataResume
  import M = MembershipRun
  import RB = MetadataReadBack

  /** The run waits with a continuation that is in order as far as the other side is concerned, and the next
      call fails whatever it is given. */
  ghost predicate Stuck(attempt: Attempt, answers: seq<Answer>) {
    && answers != [] && M.GoodText(attempt.stamp.attempt, M.MAX_ID_BYTES) && GoodNames(attempt.env)
    && (forall i :: 0 <= i < |answers| ==> Proper(answers[i]))
    && RunOf(attempt, answers).Next?
    && forall answer :: RunOf(attempt, answers + [answer]) == Failed
  }

  /** The run waits with this continuation, in order as far as the other side is concerned. */
  ghost predicate Holds(attempt: Attempt, answers: seq<Answer>, continuation: Continuation) {
    && answers != [] && M.GoodText(attempt.stamp.attempt, M.MAX_ID_BYTES) && GoodNames(attempt.env)
    && (forall i :: 0 <= i < |answers| ==> Proper(answers[i]))
    && RunOf(attempt, answers) == Next(continuation)
  }

  lemma Sticks(attempt: Attempt, answers: seq<Answer>, continuation: Continuation)
    requires Holds(attempt, answers, continuation)
    requires !Canonical(continuation.state) || !ComesThrough(attempt.fold, continuation.state)
    ensures Stuck(attempt, answers)
  {
    hide Proper, GoodNames, M.GoodText, RunOf, Canonical, ComesThrough;
    forall answer ensures RunOf(attempt, answers + [answer]) == Failed {
      OtherwiseFails(attempt, answers, answer);
    }
  }

  // ---------- answers ----------

  const SOURCE := "modelparams.dev/openai/api_key"
  const NAME := "gpt"
  const OTHER_CASE := "GPT"
  const NOTHING_KNOWN := ModelRef(NAME, [], 0, 0, 0, [], [])

  function Zeros(n: nat): string {
    seq(n, i => '0')
  }

  predicate Word(word: string) {
    forall i :: 0 <= i < |word| ==> 'a' <= word[i] <= 'z' || 'A' <= word[i] <= 'Z'
  }

  lemma WordIsTrimmed(word: string, bytes: nat)
    requires Word(word) && 0 < |word| <= bytes
    ensures Trimmed(word, bytes)
  {
    assert TrimLeft(word) == word && TrimRight(word) == word;
    WordLength(word);
  }

  lemma {:induction false} WordLength(word: string)
    requires Word(word)
    ensures ByteLength(word) == |word|
  {
    if word != [] {
      WordLength(word[1..]);
    }
  }

  function StampOf(): M.Stamp {
    M.Stamp("v", "s", "c", 1, "attempt")
  }

  function Called(presented: string, content: Content, request: string): Answer {
    Answer(presented, true, content, 100, true, Some(Identity("key", Zeros(64))), Some(request), true)
  }

  lemma CalledIsProper(presented: string, content: Content, request: string)
    requires GoodContent(content) && Word(request) && 0 < |request| <= M.MAX_ID_BYTES
    ensures Proper(Called(presented, content, request))
  {
    WordIsTrimmed("key", M.MAX_AUTH_BYTES);
    WordIsTrimmed(request, M.MAX_ID_BYTES);
    hide TrimSpace, ByteLength, HasControl;
  }

  lemma StampIsGood()
    ensures M.GoodText(StampOf().attempt, M.MAX_ID_BYTES)
  {
    WordIsTrimmed("attempt", M.MAX_ID_BYTES);
  }

  lemma NamesAreKnown(env: Environment)
    requires forall c: nat :: env.models(c) == Some([NOTHING_KNOWN])
    ensures GoodNames(env)
  {
    WordIsTrimmed(NAME, MAX_MODEL_BYTES);
    hide Trimmed;
  }

  function KeyBound(c: nat): seq<Binding> {
    [Binding(c, "key", Zeros(64))]
  }

  /** The next call accepts a continuation that has gathered nothing yet. */
  lemma NothingGathered(attempt: Attempt, answers: seq<Answer>, known: Continuation)
    requires Holds(attempt, answers, known)
    requires known.state.upstream == map[] && known.state.cursors == {} && known.state.results == []
    requires known.state.modelparams == None && known.state.modelsdev == None
    ensures Trusted(attempt, known) && Decoded(known) == known
  {
    hide Proper, GoodNames, M.GoodText, RunOf, Trusted, CanonicalEntry;
    assert Canonical(known.state) && ComesThrough(attempt.fold, known.state);
    NextCallAccepts(attempt, answers);
    assert DecodedResults(known.state.results) == [];
  }

  /** A call that presents what it was asked for goes on from the state the run is in. */
  lemma Continues(attempt: Attempt, answers: seq<Answer>, known: Continuation, state: State)
    requires |answers| > 1 && RunOf(attempt, answers[..|answers| - 1]) == Next(known)
    requires Trusted(attempt, known) && Decoded(known) == known
    requires var last := answers[|answers| - 1];
      && last.presented == known.request && last.ok && last.holds
      && Resume(attempt.env, known.state, Reply(last.content, last.size, true)) == Fetch(state)
    ensures RunOf(attempt, answers) == Emit(attempt, known.bound, state, answers[|answers| - 1])
  {
    hide Trusted, Decoded, Resume, Emit;
  }

  lemma FirstBound(attempt: Attempt, state: State, answer: Answer)
    requires answer.holds && answer.request.Some? && answer.fits && answer.identity.Some?
    requires IsCatalogKind(state.step.kind) && attempt.env.located(state.step.channel)
    ensures var identity := answer.identity.value;
      Emit(attempt, [], state, answer) == Next(Continuation(attempt.stamp, answer.request.value, identity.index,
        [Binding(state.step.channel, identity.index, identity.digest)], state))
  {
    var first := Binding(state.step.channel, answer.identity.value.index, answer.identity.value.digest);
    assert [] + [first] == [first];
  }

  // ---------- a channel that holds its catalog ----------

  function Snapshot(channels: seq<Channel>): Environment {
    Environment(channels, (c: nat) => true, (c: nat) => Some([NOTHING_KNOWN]))
  }

  /** One channel with upstream metadata and a source after it. */
  function HeldAttempt(fold: Fold): Attempt {
    Attempt(StampOf(), Snapshot([Channel(true, false, true, [ModelparamsSource(SOURCE)], map[])]), fold)
  }

  function HeldAnswers(entries: Entries): seq<Answer> {
    [Called("", Content.Unreadable, "one"), Called("one", OpenAiCatalog(entries), "two")]
  }

  const HELD_ASKED := START.(step := Step(OpenAiModels, 0, 0, 0, ""))

  function Held(entries: Entries): State {
    START.(step := Step(ModelparamsFetch, 0, 0, 0, ""), bytes := 100, upstream := entries)
  }

  lemma HeldProper(attempt: Attempt, answers: seq<Answer>, entries: Entries)
    requires attempt == HeldAttempt(attempt.fold) && answers == HeldAnswers(entries) && GoodIds(entries)
    ensures M.GoodText(attempt.stamp.attempt, M.MAX_ID_BYTES) && GoodNames(attempt.env)
    ensures forall i :: 0 <= i < |answers| ==> Proper(answers[i])
  {
    StampIsGood();
    NamesAreKnown(attempt.env);
    hide Proper, GoodNames, GoodIds;
    CalledIsProper("", Content.Unreadable, "one");
    CalledIsProper("one", OpenAiCatalog(entries), "two");
  }

  lemma HeldAsks(attempt: Attempt, answers: seq<Answer>, entries: Entries)
    requires attempt == HeldAttempt(attempt.fold) && answers == HeldAnswers(entries)
    ensures RunOf(attempt, [answers[0]]) == Next(Continuation(StampOf(), "one", "key", KeyBound(0), HELD_ASKED))
  {
    var env := attempt.env;
    assert !HasResult(START.results, 0) && NeedsCatalog(env.channels[0]) && env.located(0);
    assert Scan(env, START, 0) == (START, Some(CatalogStep(env.channels[0], 0)));
    assert Begin(env) == Fetch(HELD_ASKED);
    hide Begin, Zeros;
    FirstBound(attempt, HELD_ASKED, answers[0]);
  }

  lemma HeldResumes(env: Environment, entries: Entries)
    requires env == HeldAttempt((text: string) => text).env
    ensures Resume(env, HELD_ASKED, Reply(OpenAiCatalog(entries), 100, true)) == Fetch(Held(entries))
  {
    var taken := HELD_ASKED.(bytes := 100, upstream := entries);
    assert !HasResult(taken.results, 0);
    assert MissingSource(env.channels[0].sources, None, None) == 0;
    assert Scan(env, taken, 0) == (taken, Some(Step(ModelparamsFetch, 0, 0, 0, "")));
  }

  lemma HeldEmits(attempt: Attempt, entries: Entries)
    requires attempt.stamp == StampOf()
    ensures Emit(attempt, KeyBound(0), Held(entries), HeldAnswers(entries)[1]) ==
      Next(Continuation(StampOf(), "two", "", KeyBound(0), Held(entries)))
  {
    hide Zeros;
  }

  /** The run of any OpenAI catalog in which every identifier is in order. */
  lemma HeldGoesOn(attempt: Attempt, answers: seq<Answer>, entries: Entries)
    requires attempt == HeldAttempt(attempt.fold) && answers == HeldAnswers(entries) && GoodIds(entries)
    ensures Holds(attempt, answers, Continuation(StampOf(), "two", "", KeyBound(0), Held(entries)))
  {
    HeldProper(attempt, answers, entries);
    HeldAsks(attempt, answers, entries);
    HeldResumes(attempt.env, entries);
    hide RunOf, Trusted, Decoded, Resume, Zeros, Proper, GoodNames, M.GoodText, GoodIds;
    assert answers[..1] == [answers[0]];
    var known := Continuation(StampOf(), "one", "key", KeyBound(0), HELD_ASKED);
    NothingGathered(attempt, [answers[0]], known);
    HeldEmits(attempt, entries);
    hide Emit, Held, KeyBound;
    Continues(attempt, answers, known, Held(entries));
  }

  const AUDIO := Upstream([], 0, 0, 0, Some(["text", "audio"]), None)

  /** A channel that still needs a public source holds its OpenAI catalog in the continuation. An entry that
      lists a modality besides text and image is not in normal form, so no call accepts what was handed out. */
  lemma OtherModalitiesFail(fold: Fold)
    ensures Stuck(HeldAttempt(fold), HeldAnswers(map[NAME := AUDIO]))
  {
    var attempt, answers := HeldAttempt(fold), HeldAnswers(map[NAME := AUDIO]);
    WordIsTrimmed(NAME, MAX_MODEL_BYTES);
    AudioNotCanonical();
    hide Trimmed, Stuck, Holds, Canonical, HeldAnswers;
    HeldGoesOn(attempt, answers, map[NAME := AUDIO]);
    Sticks(attempt, answers, Continuation(StampOf(), "two", "", KeyBound(0), Held(map[NAME := AUDIO])));
  }

  lemma AudioNotCanonical()
    ensures !Canonical(Held(map[NAME := AUDIO]))
  {
    ModalitiesFixed(["text", "audio"]);
    hide CanonicalModalities, ResultsInOrder;
    assert Held(map[NAME := AUDIO]).upstream[NAME] == AUDIO;
  }

  const BOTH_CASES: Entries := map[NAME := NO_UPSTREAM, OTHER_CASE := NO_UPSTREAM]

  /** The parser takes two identifiers that differ only in case, and the continuation with them can not be
      decoded. */
  lemma IdsInBothCasesFail(fold: Fold)
    requires fold(NAME) == fold(OTHER_CASE)
    ensures Stuck(HeldAttempt(fold), HeldAnswers(BOTH_CASES))
  {
    var attempt, answers := HeldAttempt(fold), HeldAnswers(BOTH_CASES);
    WordIsTrimmed(NAME, MAX_MODEL_BYTES);
    WordIsTrimmed(OTHER_CASE, MAX_MODEL_BYTES);
    BothCasesFold(fold, Held(BOTH_CASES).upstream.Keys);
    hide Trimmed, Stuck, Holds, Canonical, HeldAnswers, TellApart;
    HeldGoesOn(attempt, answers, BOTH_CASES);
    Sticks(attempt, answers, Continuation(StampOf(), "two", "", KeyBound(0), Held(BOTH_CASES)));
  }

  lemma BothCasesFold(fold: Fold, names: set<string>)
    requires fold(NAME) == fold(OTHER_CASE) && NAME in names && OTHER_CASE in names
    ensures !TellApart(fold, names)
  {
    assert NAME[0] != OTHER_CASE[0];
  }

  // ---------- a channel that has its result ----------

  /** A channel with one public source, and one with upstream metadata after it. */
  function DoneAttempt(fold: Fold, overrides: map<string, Compiled>): Attempt {
    Attempt(StampOf(), Snapshot(
      [Channel(true, false, false, [ModelparamsSource(SOURCE)], overrides), Channel(true, false, true, [], map[])]), fold)
  }

  function DoneAnswers(catalog: Catalog): seq<Answer> {
    [Called("", Content.Unreadable, "one"), Called("one", ModelparamsCatalog(catalog), "two")]
  }

  const DONE_ASKED := START.(step := Step(ModelparamsFetch, 0, 0, 0, ""))

  function DoneResult(env: Environment, catalog: Catalog): ChannelResult
    requires |env.channels| > 0 && env.models(0).Some?
  {
    Direct(env, 0, map[], Some(catalog), None)
  }

  function Done(env: Environment, catalog: Catalog): State
    requires |env.channels| > 0 && env.models(0).Some?
  {
    START.(step := Step(OpenAiModels, 1, 0, 0, ""), bytes := 100, modelparams := Some(catalog), results := [DoneResult(env, catalog)])
  }

  lemma DoneProper(attempt: Attempt, answers: seq<Answer>, overrides: map<string, Compiled>, catalog: Catalog)
    requires attempt == DoneAttempt(attempt.fold, overrides) && answers == DoneAnswers(catalog)
    ensures M.GoodText(attempt.stamp.attempt, M.MAX_ID_BYTES) && GoodNames(attempt.env)
    ensures forall i :: 0 <= i < |answers| ==> Proper(answers[i])
  {
    StampIsGood();
    NamesAreKnown(attempt.env);
    hide Proper, GoodNames;
    CalledIsProper("", Content.Unreadable, "one");
    CalledIsProper("one", ModelparamsCatalog(catalog), "two");
  }

  lemma DoneAsks(attempt: Attempt, answers: seq<Answer>, overrides: map<string, Compiled>, catalog: Catalog)
    requires attempt == DoneAttempt(attempt.fold, overrides) && answers == DoneAnswers(catalog)
    ensures RunOf(attempt, [answers[0]]) == Next(Continuation(StampOf(), "one", "", [], DONE_ASKED))
  {
    var env := attempt.env;
    hide Zeros;
    assert !HasResult(START.results, 0) && !NeedsCatalog(env.channels[0]) && env.located(0);
    assert MissingSource(env.channels[0].sources, None, None) == 0;
    assert Scan(env, START, 0) == (START, Some(Step(ModelparamsFetch, 0, 0, 0, "")));
    assert Begin(env) == Fetch(DONE_ASKED);
  }

  /** The scan asks for the catalog of a channel it comes to. */
  lemma ScanEnters(env: Environment, state: State, c: nat)
    requires c < |env.channels| && env.channels[c].enabled && !HasResult(state.results, c)
    requires state.step.kind == Idle && env.located(c) && NeedsCatalog(env.channels[c])
    ensures Scan(env, state, c) == (state, Some(CatalogStep(env.channels[c], c)))
  {
  }

  /** The scan settles a channel whose sources have all been fetched. */
  lemma ScanDone(env: Environment, state: State, c: nat)
    requires c < |env.channels| && env.channels[c].enabled && !HasResult(state.results, c)
    requires state.step.kind != Idle && state.step.channel == c && env.located(c) && env.models(c).Some?
    requires MissingSource(env.channels[c].sources, state.modelparams, state.modelsdev) == |env.channels[c].sources|
    ensures var result := Direct(env, c, state.upstream, state.modelparams, state.modelsdev);
      Scan(env, state, c) == Scan(env, state.(results := state.results + [result], upstream := map[], step := IDLE), c + 1)
  {
    hide Direct;
  }

  lemma DoneScan(env: Environment, overrides: map<string, Compiled>, catalog: Catalog, state: State)
    requires env == DoneAttempt((text: string) => text, overrides).env
    requires state == DONE_ASKED.(bytes := 100, modelparams := Some(catalog))
    ensures Scan(env, state, 0) == (Done(env, catalog).(step := IDLE), Some(Step(OpenAiModels, 1, 0, 0, "")))
  {
    assert env.located(0) && env.located(1) && env.models(0).Some?;
    assert MissingSource(env.channels[0].sources, Some(catalog), None) == 1;
    assert NeedsCatalog(env.channels[1]) && CatalogStep(env.channels[1], 1) == Step(OpenAiModels, 1, 0, 0, "");
    var result := DoneResult(env, catalog);
    assert result.channel == 0;
    var done := state.(results := [result], upstream := map[], step := IDLE);
    assert state.results + [result] == [result];
    assert !HasResult(state.results, 0) && !HasResult(done.results, 1);
    hide Direct, MissingSource, NeedsCatalog, HasResult, CatalogStep, Scan;
    ScanEnters(env, done, 1);
    ScanDone(env, state, 0);
  }

  lemma DoneResumes(env: Environment, overrides: map<string, Compiled>, catalog: Catalog)
    requires env == DoneAttempt((text: string) => text, overrides).env
    ensures Resume(env, DONE_ASKED, Reply(ModelparamsCatalog(catalog), 100, true)) == Fetch(Done(env, catalog))
  {
    var state := DONE_ASKED.(bytes := 100, modelparams := Some(catalog));
    DoneScan(env, overrides, catalog, state);
    hide Scan, DoneResult, Snapshot, DoneAttempt;
    assert ConsumeFetch(DONE_ASKED.(bytes := 100), ModelparamsCatalog(catalog)) == Some(state);
  }

  lemma DoneEmits(attempt: Attempt, overrides: map<string, Compiled>, catalog: Catalog, state: State)
    requires attempt == DoneAttempt(attempt.fold, overrides) && state.step == Step(OpenAiModels, 1, 0, 0, "")
    ensures Emit(attempt, [], state, DoneAnswers(catalog)[1]) == Next(Continuation(StampOf(), "two", "key", KeyBound(1), state))
  {
    assert attempt.env.located(1);
    hide Zeros;
    FirstBound(attempt, state, DoneAnswers(catalog)[1]);
  }

  lemma DoneTrusted(attempt: Attempt, answers: seq<Answer>, overrides: map<string, Compiled>, catalog: Catalog, known: Continuation)
    requires attempt == DoneAttempt(attempt.fold, overrides) && answers == DoneAnswers(catalog)
    requires known == Continuation(StampOf(), "one", "", [], DONE_ASKED)
    ensures RunOf(attempt, [answers[0]]) == Next(known) && Trusted(attempt, known) && Decoded(known) == known
  {
    DoneProper(attempt, answers, overrides, catalog);
    DoneAsks(attempt, answers, overrides, catalog);
    hide RunOf, Trusted, Decoded, Proper, GoodNames, M.GoodText;
    NothingGathered(attempt, [answers[0]], known);
  }

  lemma DoneRuns(attempt: Attempt, answers: seq<Answer>, overrides: map<string, Compiled>, catalog: Catalog, state: State)
    requires attempt == DoneAttempt(attempt.fold, overrides) && answers == DoneAnswers(catalog)
    requires state.step == Step(OpenAiModels, 1, 0, 0, "")
    requires Resume(attempt.env, DONE_ASKED, Reply(ModelparamsCatalog(catalog), 100, true)) == Fetch(state)
    ensures RunOf(attempt, answers) == Next(Continuation(StampOf(), "two", "key", KeyBound(1), state))
  {
    assert answers[..1] == [answers[0]];
    var known := Continuation(StampOf(), "one", "", [], DONE_ASKED);
    DoneEmits(attempt, overrides, catalog, state);
    hide RunOf, Trusted, Decoded, Resume, Zeros, Emit, Snapshot, KeyBound, DoneAttempt;
    DoneTrusted(attempt, answers, overrides, catalog, known);
    Continues(attempt, answers, known, state);
  }

  /** The run of any configured overrides and any public catalog. */
  lemma DoneGoesOn(attempt: Attempt, answers: seq<Answer>, overrides: map<string, Compiled>, catalog: Catalog)
    requires attempt == DoneAttempt(attempt.fold, overrides) && answers == DoneAnswers(catalog)
    ensures Holds(attempt, answers, Continuation(StampOf(), "two", "key", KeyBound(1), Done(attempt.env, catalog)))
  {
    DoneProper(attempt, answers, overrides, catalog);
    DoneResumes(attempt.env, overrides, catalog);
    hide RunOf, Resume, Proper, GoodNames, M.GoodText, DoneResult, KeyBound;
    DoneRuns(attempt, answers, overrides, catalog, Done(attempt.env, catalog));
  }

  /** So it is stuck whenever what it holds is not in normal form or does not come through. */
  lemma DoneSticks(attempt: Attempt, overrides: map<string, Compiled>, catalog: Catalog)
    requires attempt == DoneAttempt(attempt.fold, overrides)
    requires var state := Done(attempt.env, catalog); !Canonical(state) || !ComesThrough(attempt.fold, state)
    ensures Stuck(attempt, DoneAnswers(catalog))
  {
    DoneGoesOn(attempt, DoneAnswers(catalog), overrides, catalog);
    hide Stuck, Holds, Canonical, ComesThrough, DoneAnswers;
    Sticks(attempt, DoneAnswers(catalog), Continuation(StampOf(), "two", "key", KeyBound(1), Done(attempt.env, catalog)));
  }

  const NOTHING_LISTED := Catalog(map[], [], 0)
  const EMPTY_LIST: map<string, Compiled> := map[NAME := Compiled(NO_OVERRIDE, true)]
  const BOTH_OVERRIDDEN: map<string, Compiled> :=
    map[NAME := Compiled(NO_OVERRIDE, false), OTHER_CASE := Compiled(NO_OVERRIDE, false)]

  /** An empty list of levels in an override is dropped from the copy of the configuration that a result
      carries, and the copy differs from the configuration ever after. */
  lemma EmptyListFails(fold: Fold)
    ensures Stuck(DoneAttempt(fold, EMPTY_LIST), DoneAnswers(NOTHING_LISTED))
  {
    var attempt := DoneAttempt(fold, EMPTY_LIST);
    var state := Done(attempt.env, NOTHING_LISTED);
    assert NAME in state.results[0].spec.overrides;
    assert !NoEmptyLists(state.results[0].spec);
    hide Stuck, Canonical, Decodes, ReadAgain, NoEmptyLists, DoneAnswers;
    DoneSticks(attempt, EMPTY_LIST, NOTHING_LISTED);
  }

  /** The copy can not be decoded when two of its overrides differ only in case. */
  lemma OverridesInBothCasesFail(fold: Fold)
    requires fold(NAME) == fold(OTHER_CASE)
    ensures Stuck(DoneAttempt(fold, BOTH_OVERRIDDEN), DoneAnswers(NOTHING_LISTED))
  {
    var attempt := DoneAttempt(fold, BOTH_OVERRIDDEN);
    var state := Done(attempt.env, NOTHING_LISTED);
    BothCasesFold(fold, state.results[0].spec.overrides.Keys);
    hide Stuck, Canonical, TellApart, SpecsComeThrough, ReadAgain, DoneAnswers;
    DoneSticks(attempt, BOTH_OVERRIDDEN, NOTHING_LISTED);
  }

  const ONE_TOO_DEEP := Catalog(map[], [], MAX_CATALOG_DEPTH + 1)

  /** A public catalog that is a bare list nested as deeply as its parser allows is written out as an object, one
      deeper than that. */
  lemma DeepListFails(fold: Fold)
    ensures Stuck(DoneAttempt(fold, map[]), DoneAnswers(ONE_TOO_DEEP))
  {
    var attempt := DoneAttempt(fold, map[]);
    assert !ReadAgain(Done(attempt.env, ONE_TOO_DEEP).modelparams);
    hide Stuck, Canonical, Decodes, ReadAgain, SpecsComeThrough, DoneAnswers, DoneResult;
    DoneSticks(attempt, map[], ONE_TOO_DEEP);
  }

  // ---------- a source with its levels out of order ----------

  const HIGH_LOW: seq<string> := ["high", "low"]

  lemma HighLow()
    ensures AreLevels(HIGH_LOW) && !InOrder(HIGH_LOW)
  {
    assert LEVELS[4] == "high" && LEVELS[2] == "low";
    assert IsDepth(HIGH_LOW[0]);
    assert HIGH_LOW[0][0] != HIGH_LOW[1][0];
  }

  function LevelsCatalog(): Catalog {
    HighLow();
    Catalog(map[Key(SOURCE, NAME) := Reading.Modelparams(SOURCE, HIGH_LOW, 0)], [], 0)
  }

  lemma NotInOrder(state: State, i: nat, k: nat)
    requires i < |state.results| && k < |state.results[i].patches| && !PatchInOrder(state.results[i].patches[k])
    ensures !Canonical(state)
  {
    hide PatchInOrder, CanonicalEntry;
    assert !PatchesInOrder(state.results[i].patches);
  }

  lemma LevelsNotCanonical(env: Environment, catalog: Catalog)
    requires |env.channels| > 0 && env.models(0).Some?
    requires DoneResult(env, catalog).patches == [ModelPatch(NAME, map[ThinkingLevels := List(HIGH_LOW)])]
    ensures !Canonical(Done(env, catalog))
  {
    HighLow();
    hide InOrder, AreLevels, Canonical, DoneResult;
    NotInOrder(Done(env, catalog), 0, 0);
  }

  lemma OneReading(state: FieldState, reading: Reading, field: Field)
    ensures AfterReadings(state, [reading], field) == AfterReading(state, reading, field)
  {
    hide AfterReading;
    assert [reading][..0] == [];
    assert AfterReadings(state, [reading][..0], field) == state;
  }

  lemma LevelsResolved(sources: Sources, field: Field)
    requires sources.override == NO_OVERRIDE && !sources.upstreamMeta && AreLevels(HIGH_LOW)
    requires sources.readings == [Reading.Modelparams(SOURCE, HIGH_LOW, 0)]
    ensures Resolved(NOTHING_KNOWN, sources, field).value == if field == ThinkingLevels then List(HIGH_LOW) else NO_VALUE
  {
    OneReading(AfterUpstream(NOTHING_KNOWN, sources, field), Reading.Modelparams(SOURCE, HIGH_LOW, 0), field);
    hide AfterReadings, AreLevels, InOrder;
  }

  lemma OnlyTheLevels(sources: Sources)
    requires sources.override == NO_OVERRIDE && !sources.upstreamMeta && AreLevels(HIGH_LOW)
    requires sources.readings == [Reading.Modelparams(SOURCE, HIGH_LOW, 0)]
    ensures MetadataRun.PatchFor(NOTHING_KNOWN, sources) == map[ThinkingLevels := List(HIGH_LOW)]
  {
    hide Resolved, Enriched, AreLevels, InOrder;
    var states := StatesOf(NOTHING_KNOWN, sources);
    forall field ensures StateOf(states, field) == Resolved(NOTHING_KNOWN, sources, field) {
      var n := FieldHasPlace(field);
    }
    RB.PatchIsTheDifference(NOTHING_KNOWN, sources, states);
    forall field ensures Get(Enriched(NOTHING_KNOWN, sources), field) == if field == ThinkingLevels then List(HIGH_LOW) else NO_VALUE {
      EnrichedReads(NOTHING_KNOWN, sources, field);
      LevelsResolved(sources, field);
    }
    assert forall field :: field in MetadataRun.PatchFor(NOTHING_KNOWN, sources) <==> field == ThinkingLevels;
  }

  lemma LevelsSources(channel: Channel, catalog: Catalog)
    requires channel == Channel(true, false, false, [ModelparamsSource(SOURCE)], map[]) && catalog == LevelsCatalog() && AreLevels(HIGH_LOW)
    ensures var sources := SourcesOf(channel, map[], Some(catalog), None, NAME);
      sources.readings == [Reading.Modelparams(SOURCE, HIGH_LOW, 0)] && sources.override == NO_OVERRIDE && !sources.upstreamMeta
  {
    hide AreLevels, InOrder;
  }

  lemma LevelsPatch(channel: Channel, catalog: Catalog)
    requires channel == Channel(true, false, false, [ModelparamsSource(SOURCE)], map[]) && catalog == LevelsCatalog()
    ensures MetadataRun.PatchFor(NOTHING_KNOWN, SourcesOf(channel, map[], Some(catalog), None, NAME)) ==
      map[ThinkingLevels := List(HIGH_LOW)]
  {
    HighLow();
    LevelsSources(channel, catalog);
    hide LevelsCatalog, MetadataRun.PatchFor, SourcesOf, AreLevels, InOrder;
    OnlyTheLevels(SourcesOf(channel, map[], Some(catalog), None, NAME));
  }

  lemma LevelsPlanned(env: Environment, catalog: Catalog)
    requires |env.channels| > 0 && env.channels[0] == Channel(true, false, false, [ModelparamsSource(SOURCE)], map[])
    requires env.models(0) == Some([NOTHING_KNOWN]) && catalog == LevelsCatalog()
    ensures DoneResult(env, catalog).patches == [ModelPatch(NAME, map[ThinkingLevels := List(HIGH_LOW)])]
  {
    var channel := env.channels[0];
    LevelsPatch(channel, catalog);
    hide LevelsCatalog, MetadataRun.PatchFor, Patches, SourcesOf;
    var patch := MetadataRun.PatchFor(NOTHING_KNOWN, SourcesOf(channel, map[], Some(catalog), None, NAME));
    assert ThinkingLevels in patch;
    OnePatch(NOTHING_KNOWN, channel, map[], Some(catalog), None);
  }

  /** A public source may list the levels of a model in any order, and that is the order planned for it. Out
      of order they stop every call after the one that planned them, if any is to follow. */
  lemma LevelsOutOfOrderFail(fold: Fold)
    ensures Stuck(DoneAttempt(fold, map[]), DoneAnswers(LevelsCatalog()))
  {
    var attempt, catalog := DoneAttempt(fold, map[]), LevelsCatalog();
    LevelsPlanned(attempt.env, catalog);
    LevelsNotCanonical(attempt.env, catalog);
    hide Stuck, Canonical, ComesThrough, DoneAnswers, LevelsCatalog, DoneResult;
    DoneSticks(attempt, map[], catalog);
  }
}
