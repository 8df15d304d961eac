/** The resumable metadata planner. Each call restores the continuation, takes in one fetched body and
    either asks for the next one or finishes. A run that finishes has computed what one pass over all
    catalogs would have. */
module MetadataRun {
  import opened Options
  import opened MetadataEdit
  import opened MetadataEnrich
  import opened CatalogValues
  import MetadataPlanner
  import MetadataReadBack

  const MAX_CATALOG_BYTES: nat := 8 * 1024 * 1024
  const MAX_CLAUDE_PAGES: nat := 100

  datatype SourceRef = ModelparamsSource(id: string) | ModelsdevSource(id: string)

  datatype Key = Key(source: string, model: string)

  /** A public catalog: what each of its sources says about each model; and how a continuation has it: the names
      in each of its objects, and how deeply it is nested when it is written out. */
  datatype Catalog = Catalog(readings: map<Key, Reading>, objects: seq<set<string>>, depth: nat)

  datatype Channel = Channel(
    enabled: bool, claude: bool, upstreamMeta: bool, sources: seq<SourceRef>, overrides: map<string, Compiled>)

  /** The configuration and the snapshot of one attempt: which channels are found in it, and the models
      that can be read from them. */
  datatype Environment = Environment(channels: seq<Channel>, located: nat -> bool, models: nat -> Option<seq<ModelRef>>)

  type Entries = map<string, Upstream>

  /** A body that was parsed for the step that asked for it. */
  datatype Content =
    | OpenAiCatalog(entries: Entries)
    | ClaudePage(entries: Entries, lastId: string, hasMore: bool)
    | ModelparamsCatalog(catalog: Catalog)
    | ModelsdevCatalog(catalog: Catalog)
    | Unreadable

  /** `accepted` stands for everything else a call checks: the continuation with its credentials, which is the
      subject of MetadataContinuation, and the status code. */
  datatype Reply = Reply(content: Content, size: nat, accepted: bool)

  datatype Kind = Idle | OpenAiModels | ClaudeModels | ModelparamsFetch | ModelsdevFetch | Invalid

  datatype Step = Step(kind: Kind, channel: nat, source: nat, page: nat, after: string)

  const IDLE := Step(Idle, 0, 0, 0, "")

  type ModelPatch = MetadataPlanner.ModelPatch

  /** The result of a channel carries a copy of its configuration. */
  datatype ChannelResult = ChannelResult(channel: nat, spec: Channel, patches: seq<ModelPatch>)

  datatype State = State(
    step: Step, bytes: nat, upstream: Entries, modelparams: Option<Catalog>, modelsdev: Option<Catalog>,
    cursors: set<string>, results: seq<ChannelResult>)

  const START := State(IDLE, 0, map[], None, None, {}, [])

  // ---------- direct enrichment of one channel ----------

  const NO_UPSTREAM := Upstream([], 0, 0, 0, None, None)
  const NO_OVERRIDE := ModelRef("", [], 0, 0, 0, [], [])

  function ReadingOf(source: SourceRef, modelparams: Option<Catalog>, modelsdev: Option<Catalog>, model: string): Reading {
    match source
    case ModelparamsSource(id) =>
      if modelparams.Some? && Key(id, model) in modelparams.value.readings && modelparams.value.readings[Key(id, model)].Modelparams?
      then modelparams.value.readings[Key(id, model)] else MetadataEnrich.Modelparams(id, [], 0)
    case ModelsdevSource(id) =>
      if modelsdev.Some? && Key(id, model) in modelsdev.value.readings && modelsdev.value.readings[Key(id, model)].Modelsdev?
      then modelsdev.value.readings[Key(id, model)] else MetadataEnrich.Modelsdev(id, 0, 0, [], [])
  }

  function SourcesOf(channel: Channel, upstream: Entries, modelparams: Option<Catalog>, modelsdev: Option<Catalog>, model: string): Sources {
    Sources(channel.upstreamMeta, if model in upstream then upstream[model] else NO_UPSTREAM,
      seq(|channel.sources|, i requires 0 <= i < |channel.sources| => ReadingOf(channel.sources[i], modelparams, modelsdev, model)),
      if model in channel.overrides then channel.overrides[model].values else NO_OVERRIDE)
  }

  function StatesOf(model: ModelRef, sources: Sources): States {
    map field | field in FIELDS :: Resolved(model, sources, field)
  }

  function PatchFor(model: ModelRef, sources: Sources): Patch {
    MetadataReadBack.PatchOf(model, Enriched(model, sources), StatesOf(model, sources))
  }

  /** The patches of a channel in the order of its models; models without a change get none. */
  function Patches(models: seq<ModelRef>, channel: Channel, upstream: Entries, modelparams: Option<Catalog>, modelsdev: Option<Catalog>): seq<ModelPatch>
    decreases |models|
  {
    if models == [] then []
    else
      var model := models[|models| - 1];
      var patch := PatchFor(model, SourcesOf(channel, upstream, modelparams, modelsdev, model.name));
      Patches(models[..|models| - 1], channel, upstream, modelparams, modelsdev)
        + if patch == map[] then [] else [MetadataPlanner.ModelPatch(model.name, patch)]
  }

  /** One channel from its original models, its whole catalog and the two public catalogs. */
  function Direct(env: Environment, c: nat, upstream: Entries, modelparams: Option<Catalog>, modelsdev: Option<Catalog>): ChannelResult
    requires c < |env.channels| && env.models(c).Some?
  {
    ChannelResult(c, env.channels[c], Patches(env.models(c).value, env.channels[c], upstream, modelparams, modelsdev))
  }

  predicate Uses(channel: Channel, modelsdev: bool) {
    exists i :: 0 <= i < |channel.sources| && channel.sources[i].ModelsdevSource? == modelsdev
  }

  predicate NeedsCatalog(channel: Channel) {
    channel.upstreamMeta || Uses(channel, true)
  }

  // ---------- the machine ----------

  /** The first source whose public catalog has not been fetched. */
  function MissingSource(sources: seq<SourceRef>, modelparams: Option<Catalog>, modelsdev: Option<Catalog>): (i: nat)
    ensures i <= |sources|
    ensures i < |sources| ==> if sources[i].ModelsdevSource? then modelsdev.None? else modelparams.None?
    ensures forall k :: 0 <= k < i ==> if sources[k].ModelsdevSource? then modelsdev.Some? else modelparams.Some?
  {
    if sources == [] then 0
    else if (if sources[0].ModelsdevSource? then modelsdev.None? else modelparams.None?) then 0
    else 1 + MissingSource(sources[1..], modelparams, modelsdev)
  }

  /** None is an error. */
  function ConsumeFetch(state: State, content: Content): Option<State> {
    match state.step.kind
    case OpenAiModels => if content.OpenAiCatalog? then Some(state.(upstream := content.entries)) else None
    case ClaudeModels =>
      if !content.ClaudePage? || content.entries.Keys * state.upstream.Keys != {} then None
      else
        var merged := state.(upstream := state.upstream + content.entries);
        if content.hasMore then
          if content.lastId == "" || content.lastId == state.step.after || content.lastId in state.cursors
             || state.step.page + 1 >= MAX_CLAUDE_PAGES then None
          else Some(merged.(cursors := state.cursors + {content.lastId},
                            step := state.step.(page := state.step.page + 1, after := content.lastId)))
        else Some(merged.(cursors := {}, step := state.step.(after := "")))
    case ModelparamsFetch => if content.ModelparamsCatalog? then Some(state.(modelparams := Some(content.catalog))) else None
    case ModelsdevFetch => if content.ModelsdevCatalog? then Some(state.(modelsdev := Some(content.catalog))) else None
    case _ => None
  }

  predicate HasResult(results: seq<ChannelResult>, c: nat) {
    exists i :: 0 <= i < |results| && results[i].channel == c
  }

  function CatalogStep(channel: Channel, c: nat): Step {
    Step(if channel.claude then ClaudeModels else OpenAiModels, c, 0, 0, "")
  }

  /** From channel c on: the next fetch, or None when every channel has its result. */
  function Scan(env: Environment, state: State, c: nat): (State, Option<Step>)
    decreases |env.channels| - c
  {
    if c >= |env.channels| then (state, None)
    else
      var channel := env.channels[c];
      var entering := state.step.kind == Idle || state.step.channel != c;
      var missing := MissingSource(channel.sources, state.modelparams, state.modelsdev);
      if !channel.enabled || HasResult(state.results, c) then Scan(env, state, c + 1)
      else if entering && !env.located(c) then (state, Some(Step(Invalid, c, 0, 0, "")))
      else if entering && NeedsCatalog(channel) then (state, Some(CatalogStep(channel, c)))
      else if missing < |channel.sources| then
        (state, Some(Step(if channel.sources[missing].ModelsdevSource? then ModelsdevFetch else ModelparamsFetch, c, missing, 0, "")))
      else if !env.located(c) || env.models(c).None? then (state, Some(Step(Invalid, c, 0, 0, "")))
      else
        var result := Direct(env, c, state.upstream, state.modelparams, state.modelsdev);
        Scan(env, state.(results := state.results + [result], upstream := map[], step := IDLE), c + 1)
  }

  function NextStep(env: Environment, state: State): (State, Option<Step>) {
    if state.step.kind == ClaudeModels && state.step.after != "" then (state, Some(state.step))
    else Scan(env, state, if state.step.kind == Idle then 0 else state.step.channel)
  }

  datatype Outcome = Fetch(state: State) | Finished(results: seq<ChannelResult>) | Error

  function Advance(env: Environment, state: State): Outcome {
    var (next, step) := NextStep(env, state);
    match step
    case None => Finished(next.results)
    case Some(s) => if s.kind == Invalid then Error else Fetch(next.(step := s))
  }

  /** The first call. When nothing has to be fetched it finishes with no results, whatever it has computed. */
  function Begin(env: Environment): Outcome {
    match Advance(env, START)
    case Finished(_) => Finished([])
    case outcome => outcome
  }

  /** Some enabled channel has a source to be fetched. */
  predicate FetchNeeded(env: Environment) {
    exists c :: 0 <= c < |env.channels| && Fetches(env.channels[c])
  }

  predicate Fetches(channel: Channel) {
    channel.enabled && (channel.upstreamMeta || channel.sources != [])
  }

  function Resume(env: Environment, state: State, reply: Reply): Outcome {
    if !reply.accepted || reply.size > MAX_CATALOG_BYTES || state.bytes + reply.size > MAX_CATALOG_BYTES then Error
    else
      match ConsumeFetch(state.(bytes := state.bytes + reply.size), reply.content)
      case None => Error
      case Some(next) => Advance(env, next)
  }

  /** The outcome after a list of replies; nothing follows the end of a run. */
  function Run(env: Environment, replies: seq<Reply>): Outcome
    decreases |replies|
  {
    if replies == [] then Begin(env)
    else
      var before := Run(env, replies[..|replies| - 1]);
      if before.Fetch? then Resume(env, before.state, replies[|replies| - 1]) else Error
  }

  // ---------- what was fetched ----------

  /** One body taken in, with the step that asked for it. */
  datatype Taken = Taken(step: Step, content: Content, size: nat)

  type Log = seq<Taken>

  function LogOf(env: Environment, replies: seq<Reply>): Log
    decreases |replies|
  {
    if replies == [] then []
    else
      var before, last := Run(env, replies[..|replies| - 1]), replies[|replies| - 1];
      LogOf(env, replies[..|replies| - 1]) + if before.Fetch? then [Taken(before.state.step, last.content, last.size)] else []
  }

  predicate IsCatalog(taken: Taken, c: nat) {
    taken.step.channel == c && (taken.content.OpenAiCatalog? || taken.content.ClaudePage?)
  }

  /** The union of the catalog pages fetched for a channel. */
  function UpstreamOf(log: Log, c: nat): Entries
    decreases |log|
  {
    if log == [] then map[]
    else
      var last := log[|log| - 1];
      UpstreamOf(log[..|log| - 1], c) + if IsCatalog(last, c) then last.content.entries else map[]
  }

  function ModelparamsOf(log: Log): Option<Catalog>
    decreases |log|
  {
    if log == [] then None
    else if log[|log| - 1].content.ModelparamsCatalog? then Some(log[|log| - 1].content.catalog)
    else ModelparamsOf(log[..|log| - 1])
  }

  function ModelsdevOf(log: Log): Option<Catalog>
    decreases |log|
  {
    if log == [] then None
    else if log[|log| - 1].content.ModelsdevCatalog? then Some(log[|log| - 1].content.catalog)
    else ModelsdevOf(log[..|log| - 1])
  }

  function Bytes(log: Log): nat
    decreases |log|
  {
    if log == [] then 0 else Bytes(log[..|log| - 1]) + log[|log| - 1].size
  }

  function Pages(log: Log, c: nat): nat
    decreases |log|
  {
    if log == [] then 0
    else Pages(log[..|log| - 1], c) + if log[|log| - 1].step.channel == c && log[|log| - 1].content.ClaudePage? then 1 else 0
  }

  /** One result for each enabled channel below c, in order, each by direct enrichment. */
  function OneShot(env: Environment, log: Log, c: nat, modelparams: Option<Catalog>, modelsdev: Option<Catalog>): seq<ChannelResult>
    requires Readable(env, c)
  {
    if c == 0 then []
    else if !env.channels[c - 1].enabled then OneShot(env, log, c - 1, modelparams, modelsdev)
    else OneShot(env, log, c - 1, modelparams, modelsdev) + [Direct(env, c - 1, UpstreamOf(log, c - 1), modelparams, modelsdev)]
  }

  ghost predicate Readable(env: Environment, c: nat) {
    c <= |env.channels| && forall k :: 0 <= k < c && env.channels[k].enabled ==> env.models(k).Some?
  }

  predicate IsMore(taken: Taken) {
    taken.content.ClaudePage? && taken.content.hasMore
  }

  /** No channel was sent on to the same page twice. */
  ghost predicate CursorsDistinct(log: Log) {
    forall i, j :: 0 <= i < j < |log| && IsMore(log[i]) && IsMore(log[j]) && log[i].step.channel == log[j].step.channel ==>
      log[i].content.lastId != log[j].content.lastId
  }

  ghost predicate FetchedOnce(log: Log) {
    && (forall i, j :: 0 <= i < j < |log| ==> !(log[i].content.ModelparamsCatalog? && log[j].content.ModelparamsCatalog?))
    && (forall i, j :: 0 <= i < j < |log| ==> !(log[i].content.ModelsdevCatalog? && log[j].content.ModelsdevCatalog?))
  }

  /** The whole catalog of the channel was fetched. */
  ghost predicate CatalogComplete(log: Log, c: nat) {
    exists i :: 0 <= i < |log| && IsCatalog(log[i], c) && !IsMore(log[i])
  }

  /** What every log keeps. */
  ghost predicate LogSound(log: Log) {
    && CursorsDistinct(log) && FetchedOnce(log)
    && Bytes(log) <= MAX_CATALOG_BYTES
    && (forall c: nat :: Pages(log, c) <= MAX_CLAUDE_PAGES)
  }

  // ---------- the invariant ----------

  /** All channels below c are done, with the public catalogs they need. */
  ghost predicate DoneBelow(env: Environment, log: Log, state: State, c: nat) {
    && Readable(env, c)
    && state.results == OneShot(env, log, c, state.modelparams, state.modelsdev)
    && (forall k :: 0 <= k < c && env.channels[k].enabled ==>
         && (Uses(env.channels[k], false) ==> state.modelparams.Some?)
         && (Uses(env.channels[k], true) ==> state.modelsdev.Some?)
         && (NeedsCatalog(env.channels[k]) ==> CatalogComplete(log, k)))
  }

  ghost predicate Agrees(log: Log, state: State, c: nat) {
    && state.modelparams == ModelparamsOf(log) && state.modelsdev == ModelsdevOf(log)
    && state.bytes == Bytes(log) && state.upstream == UpstreamOf(log, c)
    && (forall i :: 0 <= i < |log| ==> log[i].step.channel <= c)
  }

  /** Ready to scan from channel c. */
  ghost predicate ScanReady(env: Environment, log: Log, state: State, c: nat) {
    && LogSound(log) && c <= |env.channels| && DoneBelow(env, log, state, c) && Agrees(log, state, c) && state.cursors == {}
    && (state.step.kind == Idle || (state.step.channel == c < |env.channels| && env.channels[c].enabled))
    && (state.step.kind == Idle ==> forall i :: 0 <= i < |log| ==> log[i].step.channel < c)
    && (state.step.kind != Idle && NeedsCatalog(env.channels[c]) ==> CatalogComplete(log, c))
  }

  /** Waiting for the answer to a step. */
  ghost predicate Waiting(env: Environment, log: Log, state: State) {
    var c := state.step.channel;
    && LogSound(log) && c < |env.channels| && env.channels[c].enabled
    && DoneBelow(env, log, state, c) && Agrees(log, state, c)
    && (match state.step.kind
        case OpenAiModels => state.cursors == {} && forall i :: 0 <= i < |log| ==> log[i].step.channel < c
        case ClaudeModels =>
          && state.step.page < MAX_CLAUDE_PAGES && Pages(log, c) == state.step.page
          && (state.step.page == 0 <==> state.step.after == "") && (state.step.page == 0 ==> state.cursors == {})
          && (forall i :: 0 <= i < |log| && log[i].step.channel == c ==> IsMore(log[i]) && log[i].content.lastId in state.cursors)
        case ModelparamsFetch => state.cursors == {} && state.modelparams.None? && (NeedsCatalog(env.channels[c]) ==> CatalogComplete(log, c))
        case ModelsdevFetch => state.cursors == {} && state.modelsdev.None? && (NeedsCatalog(env.channels[c]) ==> CatalogComplete(log, c))
        case _ => false)
  }

  // ---------- the invariant is kept ----------

  /** A channel's result depends only on the public catalogs it uses. */
  lemma DirectDepends(env: Environment, c: nat, upstream: Entries, mp: Option<Catalog>, md: Option<Catalog>, mp2: Option<Catalog>, md2: Option<Catalog>)
    requires c < |env.channels| && env.models(c).Some?
    requires Uses(env.channels[c], false) ==> mp == mp2
    requires Uses(env.channels[c], true) ==> md == md2
    ensures Direct(env, c, upstream, mp, md) == Direct(env, c, upstream, mp2, md2)
  {
    PatchesDepend(env.models(c).value, env.channels[c], upstream, mp, md, mp2, md2);
  }

  lemma {:induction false} PatchesDepend(models: seq<ModelRef>, channel: Channel, upstream: Entries, mp: Option<Catalog>, md: Option<Catalog>, mp2: Option<Catalog>, md2: Option<Catalog>)
    requires Uses(channel, false) ==> mp == mp2
    requires Uses(channel, true) ==> md == md2
    ensures Patches(models, channel, upstream, mp, md) == Patches(models, channel, upstream, mp2, md2)
    decreases |models|
  {
    hide PatchFor;
    if models != [] {
      PatchesDepend(models[..|models| - 1], channel, upstream, mp, md, mp2, md2);
      var name := models[|models| - 1].name;
      var one, two := SourcesOf(channel, upstream, mp, md, name), SourcesOf(channel, upstream, mp2, md2, name);
      assert one.readings == two.readings;
    }
  }

  lemma LogGrows(log: Log, taken: Taken, c: nat)
    ensures UpstreamOf(log + [taken], c) == UpstreamOf(log, c) + if IsCatalog(taken, c) then taken.content.entries else map[]
    ensures Bytes(log + [taken]) == Bytes(log) + taken.size
    ensures Pages(log + [taken], c) == Pages(log, c) + if taken.step.channel == c && taken.content.ClaudePage? then 1 else 0
    ensures ModelparamsOf(log + [taken]) == if taken.content.ModelparamsCatalog? then Some(taken.content.catalog) else ModelparamsOf(log)
    ensures ModelsdevOf(log + [taken]) == if taken.content.ModelsdevCatalog? then Some(taken.content.catalog) else ModelsdevOf(log)
  {
    assert (log + [taken])[..|log|] == log;
  }

  /** Nothing taken in for channel c changes the results of the channels before it. */
  lemma {:induction false} OneShotGrows(env: Environment, log: Log, taken: Taken, c: nat, mp: Option<Catalog>, md: Option<Catalog>, mp2: Option<Catalog>, md2: Option<Catalog>)
    requires Readable(env, c) && taken.step.channel >= c
    requires forall k :: 0 <= k < c && env.channels[k].enabled && Uses(env.channels[k], false) ==> mp == mp2
    requires forall k :: 0 <= k < c && env.channels[k].enabled && Uses(env.channels[k], true) ==> md == md2
    ensures OneShot(env, log + [taken], c, mp2, md2) == OneShot(env, log, c, mp, md)
  {
    hide Direct;
    if c > 0 {
      OneShotGrows(env, log, taken, c - 1, mp, md, mp2, md2);
      LogGrows(log, taken, c - 1);
      assert UpstreamOf(log + [taken], c - 1) == UpstreamOf(log, c - 1);
      if env.channels[c - 1].enabled {
        DirectDepends(env, c - 1, UpstreamOf(log, c - 1), mp, md, mp2, md2);
      }
    }
  }

  lemma {:induction false} OneShotChannels(env: Environment, log: Log, c: nat, mp: Option<Catalog>, md: Option<Catalog>)
    requires Readable(env, c)
    ensures forall i :: 0 <= i < |OneShot(env, log, c, mp, md)| ==> OneShot(env, log, c, mp, md)[i].channel < c
  {
    if c > 0 {
      OneShotChannels(env, log, c - 1, mp, md);
    }
  }

  lemma {:induction false} NothingUpstream(log: Log, c: nat)
    requires forall i :: 0 <= i < |log| ==> log[i].step.channel < c
    ensures UpstreamOf(log, c) == map[] && Pages(log, c) == 0
    decreases |log|
  {
    if log != [] {
      NothingUpstream(log[..|log| - 1], c);
    }
  }

  lemma ChannelDone(env: Environment, log: Log, state: State, c: nat)
    requires ScanReady(env, log, state, c) && c < |env.channels| && env.channels[c].enabled
    requires env.models(c).Some? && (state.step.kind != Idle || !NeedsCatalog(env.channels[c]))
    requires MissingSource(env.channels[c].sources, state.modelparams, state.modelsdev) == |env.channels[c].sources|
    ensures ScanReady(env, log,
      state.(results := state.results + [Direct(env, c, state.upstream, state.modelparams, state.modelsdev)], upstream := map[], step := IDLE), c + 1)
  {
    hide Direct, LogSound;
    NothingUpstream(log, c + 1);
  }

  lemma ChannelSkipped(env: Environment, log: Log, state: State, c: nat)
    requires ScanReady(env, log, state, c) && c < |env.channels| && !env.channels[c].enabled
    ensures ScanReady(env, log, state, c + 1)
  {
    hide LogSound;
    NothingUpstream(log, c);
    NothingUpstream(log, c + 1);
  }

  lemma {:induction false} ScanKeeps(env: Environment, log: Log, state: State, c: nat)
    requires ScanReady(env, log, state, c)
    ensures var (next, step) := Scan(env, state, c);
      && (step.None? ==> DoneBelow(env, log, next, |env.channels|) && next.modelparams == ModelparamsOf(log) && next.modelsdev == ModelsdevOf(log))
      && (step.Some? && step.value.kind != Invalid ==> Waiting(env, log, next.(step := step.value)) && step.value.channel >= c)
    decreases |env.channels| - c
  {
    hide Direct, LogSound;
    if c < |env.channels| {
      OneShotChannels(env, log, c, state.modelparams, state.modelsdev);
      assert !HasResult(state.results, c);
      var channel := env.channels[c];
      var entering := state.step.kind == Idle || state.step.channel != c;
      var missing := MissingSource(channel.sources, state.modelparams, state.modelsdev);
      if !channel.enabled {
        ChannelSkipped(env, log, state, c);
        ScanKeeps(env, log, state, c + 1);
      } else if entering && !env.located(c) {
      } else if entering && NeedsCatalog(channel) {
        NothingUpstream(log, c);
      } else if missing < |channel.sources| {
      } else if env.located(c) && env.models(c).Some? {
        ChannelDone(env, log, state, c);
        ScanKeeps(env, log, state.(results := state.results + [Direct(env, c, state.upstream, state.modelparams, state.modelsdev)], upstream := map[], step := IDLE), c + 1);
      }
    }
  }

  lemma {:induction false} NotFetched(log: Log)
    ensures ModelparamsOf(log).None? ==> forall i :: 0 <= i < |log| ==> !log[i].content.ModelparamsCatalog?
    ensures ModelsdevOf(log).None? ==> forall i :: 0 <= i < |log| ==> !log[i].content.ModelsdevCatalog?
    decreases |log|
  {
    if log != [] {
      NotFetched(log[..|log| - 1]);
    }
  }

  /** A step only takes in a body of its own kind. */
  predicate FitsStep(step: Step, content: Content) {
    match step.kind
    case OpenAiModels => content.OpenAiCatalog?
    case ClaudeModels => content.ClaudePage?
    case ModelparamsFetch => content.ModelparamsCatalog?
    case ModelsdevFetch => content.ModelsdevCatalog?
    case _ => false
  }

  lemma LogStaysSound(env: Environment, log: Log, state: State, content: Content, size: nat)
    requires Waiting(env, log, state) && FitsStep(state.step, content) && state.bytes + size <= MAX_CATALOG_BYTES
    requires IsMore(Taken(state.step, content, size)) ==> content.lastId !in state.cursors
    ensures LogSound(log + [Taken(state.step, content, size)])
  {
    var taken := Taken(state.step, content, size);
    var longer := log + [taken];
    NotFetched(log);
    forall c: nat {
      LogGrows(log, taken, c);
    }
    LogGrows(log, taken, state.step.channel);
    hide DoneBelow, Bytes, Pages;
    assert forall i :: 0 <= i < |log| ==> longer[i] == log[i];
    assert longer[|log|] == taken;
  }

  lemma BelowStaysDone(env: Environment, log: Log, state: State, next: State, taken: Taken)
    requires DoneBelow(env, log, state, state.step.channel) && taken.step == state.step && FitsStep(state.step, taken.content)
    requires next.results == state.results
    requires next.modelparams == if taken.content.ModelparamsCatalog? then Some(taken.content.catalog) else state.modelparams
    requires next.modelsdev == if taken.content.ModelsdevCatalog? then Some(taken.content.catalog) else state.modelsdev
    requires taken.content.ModelparamsCatalog? ==> state.modelparams.None?
    requires taken.content.ModelsdevCatalog? ==> state.modelsdev.None?
    ensures DoneBelow(env, log + [taken], next, state.step.channel)
  {
    var c := state.step.channel;
    OneShotGrows(env, log, taken, c, state.modelparams, state.modelsdev, next.modelparams, next.modelsdev);
    hide OneShot, Direct;
    forall k | 0 <= k < c && CatalogComplete(log, k) ensures CatalogComplete(log + [taken], k) {
      var i :| 0 <= i < |log| && IsCatalog(log[i], k) && !IsMore(log[i]);
      assert (log + [taken])[i] == log[i];
    }
  }

  lemma CatalogEnds(log: Log, taken: Taken)
    requires IsCatalog(taken, taken.step.channel) && !IsMore(taken)
    ensures CatalogComplete(log + [taken], taken.step.channel)
  {
    assert (log + [taken])[|log|] == taken;
  }

  lemma StillComplete(log: Log, taken: Taken, c: nat)
    requires CatalogComplete(log, c)
    ensures CatalogComplete(log + [taken], c)
  {
    var i :| 0 <= i < |log| && IsCatalog(log[i], c) && !IsMore(log[i]);
    assert (log + [taken])[i] == log[i];
  }

  /** What taking in a body does to the state, apart from pages and cursors. */
  lemma ConsumeEffect(env: Environment, log: Log, state: State, content: Content, size: nat)
    requires Waiting(env, log, state) && ConsumeFetch(state.(bytes := state.bytes + size), content).Some?
    ensures var next := ConsumeFetch(state.(bytes := state.bytes + size), content).value;
      var taken := Taken(state.step, content, size);
      && FitsStep(state.step, content) && (IsMore(taken) ==> content.lastId !in state.cursors)
      && next.results == state.results && next.bytes == state.bytes + size
      && next.modelparams == (if content.ModelparamsCatalog? then Some(content.catalog) else state.modelparams)
      && next.modelsdev == (if content.ModelsdevCatalog? then Some(content.catalog) else state.modelsdev)
      && (content.ModelparamsCatalog? ==> state.modelparams.None?) && (content.ModelsdevCatalog? ==> state.modelsdev.None?)
      && next.upstream == (if IsCatalog(taken, state.step.channel) then state.upstream + content.entries else state.upstream)
  {
    if state.step.kind == OpenAiModels {
      NothingUpstream(log, state.step.channel);
      assert map[] + content.entries == content.entries;
    }
    hide LogSound, DoneBelow, CatalogComplete, UpstreamOf, ModelparamsOf, ModelsdevOf, Bytes, Pages;
  }

  lemma ConsumeAgrees(env: Environment, log: Log, state: State, content: Content, size: nat)
    requires Waiting(env, log, state) && state.bytes + size <= MAX_CATALOG_BYTES
    requires ConsumeFetch(state.(bytes := state.bytes + size), content).Some?
    ensures var next := ConsumeFetch(state.(bytes := state.bytes + size), content).value;
      var longer, c := log + [Taken(state.step, content, size)], state.step.channel;
      LogSound(longer) && DoneBelow(env, longer, next, c) && Agrees(longer, next, c)
  {
    var next := ConsumeFetch(state.(bytes := state.bytes + size), content).value;
    var taken := Taken(state.step, content, size);
    ConsumeEffect(env, log, state, content, size);
    LogStaysSound(env, log, state, content, size);
    assert DoneBelow(env, log, state, state.step.channel) && Agrees(log, state, state.step.channel);
    hide ConsumeFetch, Waiting;
    BelowStaysDone(env, log, state, next, taken);
    StillAgrees(log, state, next, taken);
  }

  lemma StillAgrees(log: Log, state: State, next: State, taken: Taken)
    requires Agrees(log, state, state.step.channel) && taken.step == state.step
    requires next.bytes == state.bytes + taken.size
    requires next.modelparams == if taken.content.ModelparamsCatalog? then Some(taken.content.catalog) else state.modelparams
    requires next.modelsdev == if taken.content.ModelsdevCatalog? then Some(taken.content.catalog) else state.modelsdev
    requires next.upstream == if IsCatalog(taken, state.step.channel) then state.upstream + taken.content.entries else state.upstream
    ensures Agrees(log + [taken], next, state.step.channel)
  {
    LogGrows(log, taken, state.step.channel);
    hide UpstreamOf, ModelparamsOf, ModelsdevOf, Bytes;
    assert forall i :: 0 <= i < |log| ==> (log + [taken])[i] == log[i];
    assert state.upstream + map[] == state.upstream;
  }

  /** One more page is to follow. */
  lemma PageKeeps(env: Environment, log: Log, state: State, content: Content, size: nat)
    requires Waiting(env, log, state) && state.bytes + size <= MAX_CATALOG_BYTES && IsMore(Taken(state.step, content, size))
    requires ConsumeFetch(state.(bytes := state.bytes + size), content).Some?
    ensures var next := ConsumeFetch(state.(bytes := state.bytes + size), content).value;
      Waiting(env, log + [Taken(state.step, content, size)], next) && next.step.kind == ClaudeModels && next.step.after != ""
  {
    var taken := Taken(state.step, content, size);
    ConsumeAgrees(env, log, state, content, size);
    LogGrows(log, taken, state.step.channel);
    hide LogSound, DoneBelow, Agrees, CatalogComplete, Pages, NeedsCatalog;
    var longer := log + [taken];
    assert forall i :: 0 <= i < |log| ==> longer[i] == log[i];
    assert longer[|log|] == taken;
  }

  /** The step is over. */
  lemma StepKeeps(env: Environment, log: Log, state: State, content: Content, size: nat)
    requires Waiting(env, log, state) && state.bytes + size <= MAX_CATALOG_BYTES && !IsMore(Taken(state.step, content, size))
    requires ConsumeFetch(state.(bytes := state.bytes + size), content).Some?
    ensures var next := ConsumeFetch(state.(bytes := state.bytes + size), content).value;
      ScanReady(env, log + [Taken(state.step, content, size)], next, state.step.channel) && !(next.step.kind == ClaudeModels && next.step.after != "")
  {
    var taken := Taken(state.step, content, size);
    ConsumeAgrees(env, log, state, content, size);
    if IsCatalog(taken, state.step.channel) {
      CatalogEnds(log, taken);
    } else if NeedsCatalog(env.channels[state.step.channel]) {
      StillComplete(log, taken, state.step.channel);
    }
    hide LogSound, DoneBelow, Agrees, CatalogComplete, Pages, NeedsCatalog;
  }

  /** A finished run: the results of one pass, over a sound log. */
  ghost predicate Complete(env: Environment, log: Log, results: seq<ChannelResult>) {
    && LogSound(log) && Readable(env, |env.channels|)
    && results == OneShot(env, log, |env.channels|, ModelparamsOf(log), ModelsdevOf(log))
    && (forall c :: 0 <= c < |env.channels| && env.channels[c].enabled && NeedsCatalog(env.channels[c]) ==> CatalogComplete(log, c))
    && (forall c :: 0 <= c < |env.channels| && env.channels[c].enabled && Uses(env.channels[c], false) ==> ModelparamsOf(log).Some?)
    && (forall c :: 0 <= c < |env.channels| && env.channels[c].enabled && Uses(env.channels[c], true) ==> ModelsdevOf(log).Some?)
  }

  ghost predicate OutcomeSound(env: Environment, log: Log, outcome: Outcome) {
    match outcome
    case Fetch(state) => Waiting(env, log, state)
    case Finished(results) => Complete(env, log, results)
    case Error => true
  }

  lemma ScanFinished(env: Environment, log: Log, next: State)
    requires LogSound(log) && DoneBelow(env, log, next, |env.channels|)
    requires next.modelparams == ModelparamsOf(log) && next.modelsdev == ModelsdevOf(log)
    ensures Complete(env, log, next.results)
  {
    hide OneShot, LogSound, CatalogComplete;
  }

  lemma AdvanceSound(env: Environment, log: Log, state: State, c: nat)
    requires ScanReady(env, log, state, c) && !(state.step.kind == ClaudeModels && state.step.after != "")
    requires c == if state.step.kind == Idle then 0 else state.step.channel
    ensures OutcomeSound(env, log, Advance(env, state))
  {
    ScanKeeps(env, log, state, c);
    hide Waiting, Scan, DoneBelow, Complete, ModelparamsOf, ModelsdevOf;
    var (next, step) := NextStep(env, state);
    if step.None? {
      ScanFinished(env, log, next);
    }
  }

  lemma ConsumedSound(env: Environment, log: Log, state: State, content: Content, size: nat)
    requires Waiting(env, log, state) && state.bytes + size <= MAX_CATALOG_BYTES
    requires ConsumeFetch(state.(bytes := state.bytes + size), content).Some?
    ensures OutcomeSound(env, log + [Taken(state.step, content, size)], Advance(env, ConsumeFetch(state.(bytes := state.bytes + size), content).value))
  {
    var next := ConsumeFetch(state.(bytes := state.bytes + size), content).value;
    ConsumeStep(state.(bytes := state.bytes + size), content);
    hide Waiting, ConsumeFetch, ScanReady, Scan;
    if IsMore(Taken(state.step, content, size)) {
      PageKeeps(env, log, state, content, size);
      assert Advance(env, next) == Fetch(next);
    } else {
      StepKeeps(env, log, state, content, size);
      AdvanceSound(env, log + [Taken(state.step, content, size)], next, state.step.channel);
    }
  }

  lemma ResumeSound(env: Environment, log: Log, state: State, reply: Reply)
    requires Waiting(env, log, state)
    ensures OutcomeSound(env, log + [Taken(state.step, reply.content, reply.size)], Resume(env, state, reply))
  {
    hide Waiting, ConsumeFetch, Advance;
    if reply.accepted && reply.size <= MAX_CATALOG_BYTES && state.bytes + reply.size <= MAX_CATALOG_BYTES {
      if ConsumeFetch(state.(bytes := state.bytes + reply.size), reply.content).Some? {
        ConsumedSound(env, log, state, reply.content, reply.size);
      }
    }
  }

  lemma ConsumeStep(state: State, content: Content)
    requires ConsumeFetch(state, content).Some?
    ensures var next := ConsumeFetch(state, content).value;
      next.step.kind == state.step.kind && next.step.channel == state.step.channel && next.step.kind != Idle && next.step.kind != Invalid
  {
  }

  /** Without any source to fetch no fetch is asked for, and with one the first call does not finish. */
  lemma {:induction false} ScanFetches(env: Environment, state: State, c: nat)
    requires c <= |env.channels| && state.step.kind == Idle && state.modelparams.None? && state.modelsdev.None?
    requires forall i :: 0 <= i < |state.results| ==> state.results[i].channel < c
    ensures Scan(env, state, c).1.None? ==> forall k :: c <= k < |env.channels| ==> !Fetches(env.channels[k])
    ensures (forall k :: c <= k < |env.channels| ==> !Fetches(env.channels[k])) ==>
      Scan(env, state, c).1.None? || Scan(env, state, c).1.value.kind == Invalid
    decreases |env.channels| - c
  {
    hide Direct;
    if c < |env.channels| {
      var channel := env.channels[c];
      var missing := MissingSource(channel.sources, None, None);
      if !channel.enabled {
        ScanFetches(env, state, c + 1);
      } else if env.located(c) && !NeedsCatalog(channel) && missing == |channel.sources| && env.models(c).Some? {
        assert !HasResult(state.results, c);
        var result := Direct(env, c, state.upstream, None, None);
        ResultChannel(env, c, state.upstream);
        ScanFetches(env, state.(results := state.results + [result], upstream := map[], step := IDLE), c + 1);
      }
    }
  }

  lemma ResultChannel(env: Environment, c: nat, upstream: Entries)
    requires c < |env.channels| && env.models(c).Some?
    ensures Direct(env, c, upstream, None, None).channel == c
  {
  }

  lemma BeginFinishes(env: Environment)
    ensures Begin(env).Finished? ==> !FetchNeeded(env)
    ensures Begin(env).Fetch? ==> FetchNeeded(env)
  {
    ScanFetches(env, START, 0);
    hide Scan;
  }

  lemma {:induction false} RunSound(env: Environment, replies: seq<Reply>)
    ensures replies != [] || !Begin(env).Finished? ==> OutcomeSound(env, LogOf(env, replies), Run(env, replies))
    decreases |replies|
  {
    hide OutcomeSound, Resume, Advance;
    if replies == [] {
      StartReady(env);
      AdvanceSound(env, [], START, 0);
    } else {
      var before := Run(env, replies[..|replies| - 1]);
      RunSound(env, replies[..|replies| - 1]);
      if before.Fetch? {
        FetchWaits(env, LogOf(env, replies[..|replies| - 1]), before);
        ResumeSound(env, LogOf(env, replies[..|replies| - 1]), before.state, replies[|replies| - 1]);
      } else {
        ErrorSound(env, LogOf(env, replies));
      }
    }
  }

  lemma FetchWaits(env: Environment, log: Log, outcome: Outcome)
    requires OutcomeSound(env, log, outcome)
    ensures outcome.Fetch? ==> Waiting(env, log, outcome.state)
  {
  }

  lemma ErrorSound(env: Environment, log: Log)
    ensures OutcomeSound(env, log, Error)
  {
  }

  lemma StartReady(env: Environment)
    ensures ScanReady(env, [], START, 0)
  {
  }

  // ---------- the theorems ----------

  /** No state in between can be of a run that finishes at once. */
  lemma {:induction false} FinishedLater(env: Environment, replies: seq<Reply>)
    requires replies != [] && (Run(env, replies).Finished? || Run(env, replies).Fetch?)
    ensures FetchNeeded(env)
    decreases |replies|
  {
    hide Resume, Advance;
    if |replies| == 1 {
      assert replies[..0] == [];
      BeginFinishes(env);
    } else {
      FinishedLater(env, replies[..|replies| - 1]);
    }
  }

  /** Resuming is one pass: a run that finishes after a fetch has exactly one result for each enabled
      channel, in order, each equal to direct enrichment from the channel's own models, the union of its
      catalog pages and the two public catalogs. Every catalog that was needed was read to its end, each
      public catalog at most once, no cursor of a channel twice, at most 100 pages and 8 MiB. */
  lemma ResumedEqualsOneShot(env: Environment, replies: seq<Reply>)
    requires Run(env, replies).Finished? && FetchNeeded(env)
    ensures Complete(env, LogOf(env, replies), Run(env, replies).results)
  {
    hide Complete;
    BeginFinishes(env);
    RunSound(env, replies);
  }

  predicate AnyEnabled(env: Environment) {
    exists c :: 0 <= c < |env.channels| && env.channels[c].enabled
  }

  /** A run that needs no fetch ends at once and hands over nothing, although one pass over its channels has
      a result for each enabled one: a finished run is that pass exactly when something had to be fetched or
      nothing is enabled. */
  lemma OnePassExactly(env: Environment, replies: seq<Reply>)
    requires Run(env, replies).Finished?
    ensures !FetchNeeded(env) ==>
      && replies == [] && Run(env, replies).results == []
      && Advance(env, START).Finished? && Complete(env, [], Advance(env, START).results)
    ensures Complete(env, LogOf(env, replies), Run(env, replies).results) <==> FetchNeeded(env) || !AnyEnabled(env)
  {
    if FetchNeeded(env) {
      ResumedEqualsOneShot(env, replies);
    } else {
      if replies != [] {
        FinishedLater(env, replies);
      }
      StartReady(env);
      AdvanceSound(env, [], START, 0);
      var results := Advance(env, START).results;
      OneShotEmpty(env, [], |env.channels|, None, None);
      hide Advance, OneShot, LogSound;
    }
  }

  /** One pass has a result exactly when a channel is enabled. */
  lemma {:induction false} OneShotEmpty(env: Environment, log: Log, c: nat, mp: Option<Catalog>, md: Option<Catalog>)
    requires Readable(env, c)
    ensures OneShot(env, log, c, mp, md) == [] <==> forall k :: 0 <= k < c ==> !env.channels[k].enabled
  {
    hide Direct;
    if c > 0 {
      OneShotEmpty(env, log, c - 1, mp, md);
    }
  }

  /** One enabled channel with nothing configured but an override of a limit. */
  function OverrideOnly(): Environment {
    Environment([Channel(true, false, false, [], map["gpt-x" := Compiled(ModelRef("gpt-x", [], 256000, 0, 0, [], []), false)])],
      (c: nat) => true, (c: nat) => Some([ModelRef("gpt-x", [], 0, 0, 0, [], [])]))
  }

  /** The override is lost: the run ends with no results, where one pass has a patch for the model. */
  lemma OverridesAreLost()
    ensures Run(OverrideOnly(), []) == Finished([])
    ensures Direct(OverrideOnly(), 0, map[], None, None).patches
      == [MetadataPlanner.ModelPatch("gpt-x", map[MaxContextLength := FieldValue(Some(256000), [])])]
  {
    OverridePatch();
    hide Direct, Scan;
    var env := OverrideOnly();
    assert env.located(0) && env.models(0).Some?;
    assert !HasResult(START.results, 0) && !Fetches(env.channels[0]);
    var result := Direct(env, 0, map[], None, None);
    assert START.results + [result] == [result];
    var state := START.(results := [result], upstream := map[], step := IDLE);
    ScanEnd(env, state, 1);
    ScanUnfetched(env, START, 0);
    assert NextStep(env, START) == (state, None);
    assert Advance(env, START) == Finished(state.results);
  }

  lemma OverridePatch()
    ensures Direct(OverrideOnly(), 0, map[], None, None).patches
      == [MetadataPlanner.ModelPatch("gpt-x", map[MaxContextLength := FieldValue(Some(256000), [])])]
  {
    var env := OverrideOnly();
    var model := env.models(0).value[0];
    var sources := SourcesOf(env.channels[0], map[], None, None, "gpt-x");
    OnlyTheOverride(model, sources);
    hide PatchFor, SourcesOf, Patches;
    assert MaxContextLength in PatchFor(model, sources);
    assert env.models(0).value == [model];
    OnePatch(model, env.channels[0], map[], None, None);
  }

  lemma OnePatch(model: ModelRef, channel: Channel, upstream: Entries, mp: Option<Catalog>, md: Option<Catalog>)
    ensures var patch := PatchFor(model, SourcesOf(channel, upstream, mp, md, model.name));
      Patches([model], channel, upstream, mp, md) == if patch == map[] then [] else [MetadataPlanner.ModelPatch(model.name, patch)]
  {
    hide PatchFor, SourcesOf;
    assert [model][..0] == [];
    assert Patches([model][..0], channel, upstream, mp, md) == [];
  }

  lemma ScanEnd(env: Environment, state: State, c: nat)
    requires c == |env.channels|
    ensures Scan(env, state, c) == (state, None)
  {
  }

  lemma ScanUnfetched(env: Environment, state: State, c: nat)
    requires c < |env.channels| && env.channels[c].enabled && !Fetches(env.channels[c])
    requires state.step.kind == Idle && !HasResult(state.results, c) && env.located(c) && env.models(c).Some?
    ensures var result := Direct(env, c, state.upstream, state.modelparams, state.modelsdev);
      Scan(env, state, c) == Scan(env, state.(results := state.results + [result], upstream := map[], step := IDLE), c + 1)
  {
    hide Direct;
  }

  lemma OnlyTheOverride(model: ModelRef, sources: Sources)
    requires model == ModelRef("gpt-x", [], 0, 0, 0, [], []) && sources.override == ModelRef("gpt-x", [], 256000, 0, 0, [], [])
    requires !sources.upstreamMeta && sources.readings == []
    ensures PatchFor(model, sources) == map[MaxContextLength := FieldValue(Some(256000), [])]
  {
    forall field ensures Resolved(model, sources, field).value == Get(sources.override, field) {
    }
    var states := StatesOf(model, sources);
    forall field ensures StateOf(states, field) == Resolved(model, sources, field) {
      var n := FieldHasPlace(field);
    }
    MetadataReadBack.PatchIsTheDifference(model, sources, states);
    forall field {
      EnrichedReads(model, sources, field);
    }
    hide Resolved, Enriched;
    assert forall field :: field in PatchFor(model, sources) <==> field == MaxContextLength;
  }
}
