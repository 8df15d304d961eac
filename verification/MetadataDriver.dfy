/** The metadata planner's loops, and why a run always ends. */
module MetadataDriver {
  import opened Options
  import opened MetadataEnrich
  import opened MetadataRun

  // ---------- a run always ends ----------

  function ChannelsLeft(env: Environment, state: State): nat {
    if state.step.channel < |env.channels| then |env.channels| - state.step.channel else 0
  }

  function CatalogsLeft(state: State): nat {
    (if state.modelparams.None? then 1 else 0) + (if state.modelsdev.None? then 1 else 0)
  }

  function PagesLeft(step: Step): nat {
    if step.kind == OpenAiModels then 1
    else if step.kind == ClaudeModels && step.page < MAX_CLAUDE_PAGES then MAX_CLAUDE_PAGES - step.page
    else 0
  }

  /** Fewer channels, or as many and fewer public catalogs, or as many of both and fewer pages are left. */
  predicate Closer(env: Environment, next: State, state: State) {
    || ChannelsLeft(env, next) < ChannelsLeft(env, state)
    || (ChannelsLeft(env, next) == ChannelsLeft(env, state) && CatalogsLeft(next) < CatalogsLeft(state))
    || (ChannelsLeft(env, next) == ChannelsLeft(env, state) && CatalogsLeft(next) == CatalogsLeft(state)
        && PagesLeft(next.step) < PagesLeft(state.step))
  }

  lemma {:induction false} ScanMovesOn(env: Environment, state: State, c: nat)
    requires state.step.kind != Idle ==> state.step.channel == c
    ensures var (next, step) := Scan(env, state, c);
      && next.modelparams == state.modelparams && next.modelsdev == state.modelsdev
      && (step.Some? ==> c <= step.value.channel < |env.channels|)
      && (step.Some? && step.value.channel == c && state.step.kind != Idle ==>
           step.value.kind == ModelparamsFetch || step.value.kind == ModelsdevFetch || step.value.kind == Invalid)
    decreases |env.channels| - c
  {
    hide Direct;
    if c < |env.channels| {
      var channel := env.channels[c];
      var entering := state.step.kind == Idle || state.step.channel != c;
      var missing := MissingSource(channel.sources, state.modelparams, state.modelsdev);
      if !channel.enabled || HasResult(state.results, c) {
        ScanAhead(env, state, c + 1);
      } else if !(entering && (!env.located(c) || NeedsCatalog(channel))) && missing == |channel.sources| && env.located(c) && env.models(c).Some? {
        ScanMovesOn(env, state.(results := state.results + [Direct(env, c, state.upstream, state.modelparams, state.modelsdev)], upstream := map[], step := IDLE), c + 1);
      }
    }
  }

  lemma {:induction false} ScanAhead(env: Environment, state: State, c: nat)
    ensures var (next, step) := Scan(env, state, c);
      && next.modelparams == state.modelparams && next.modelsdev == state.modelsdev
      && (step.Some? ==> c <= step.value.channel < |env.channels|)
    decreases |env.channels| - c
  {
    hide Direct;
    if c < |env.channels| {
      ScanAhead(env, state, c + 1);
      if env.models(c).Some? {
        ScanAhead(env, state.(results := state.results + [Direct(env, c, state.upstream, state.modelparams, state.modelsdev)], upstream := map[], step := IDLE), c + 1);
      }
    }
  }

  lemma ConsumeCloser(state: State, content: Content)
    requires ConsumeFetch(state, content).Some?
    requires state.step.kind == ModelparamsFetch ==> state.modelparams.None?
    requires state.step.kind == ModelsdevFetch ==> state.modelsdev.None?
    requires state.step.kind == ClaudeModels ==> state.step.page < MAX_CLAUDE_PAGES
    ensures var next := ConsumeFetch(state, content).value;
      && (state.step.kind == OpenAiModels || state.step.kind == ClaudeModels ==> CatalogsLeft(next) == CatalogsLeft(state) && PagesLeft(state.step) > 0)
      && (state.step.kind == ModelparamsFetch || state.step.kind == ModelsdevFetch ==> CatalogsLeft(next) < CatalogsLeft(state))
      && (next.step.kind == ClaudeModels && next.step.after != "" && IsMore(Taken(state.step, content, 0)) ==> PagesLeft(next.step) < PagesLeft(state.step))
      && (state.step.kind == ClaudeModels && !IsMore(Taken(state.step, content, 0)) ==> next.step.after == "")
      && next.step.channel == state.step.channel && next.step.kind == state.step.kind && next.step.kind != Idle
  {
  }

  lemma WaitingFacts(env: Environment, log: Log, state: State)
    requires Waiting(env, log, state)
    ensures state.step.channel < |env.channels| && state.step.kind != Idle && state.step.kind != Invalid
    ensures state.step.kind == ModelparamsFetch ==> state.modelparams.None?
    ensures state.step.kind == ModelsdevFetch ==> state.modelsdev.None?
    ensures state.step.kind == ClaudeModels ==> state.step.page < MAX_CLAUDE_PAGES
  {
    hide LogSound, DoneBelow, Agrees;
  }

  /** Every fetch brings the run closer to its end, in the order channels, public catalogs, pages. */
  lemma EveryFetchIsProgress(env: Environment, log: Log, state: State, reply: Reply)
    requires Waiting(env, log, state) && Resume(env, state, reply).Fetch?
    ensures Closer(env, Resume(env, state, reply).state, state)
  {
    WaitingFacts(env, log, state);
    var counted := state.(bytes := state.bytes + reply.size);
    var next := ConsumeFetch(counted, reply.content).value;
    hide Waiting, ConsumeFetch, Scan, MissingSource;
    ConsumeCloser(counted, reply.content);
    if next.step.kind == ClaudeModels && next.step.after != "" {
      assert IsMore(Taken(state.step, reply.content, 0));
      assert Resume(env, state, reply) == Fetch(next);
    } else {
      ScanMovesOn(env, next, next.step.channel);
      ScanCloser(env, state, next);
    }
  }

  /** What a scan finds after a step is closer to the end than the step was. */
  lemma ScanCloser(env: Environment, state: State, next: State)
    requires Advance(env, next).Fetch? && !(next.step.kind == ClaudeModels && next.step.after != "")
    requires next.step.channel == state.step.channel < |env.channels| && next.step.kind == state.step.kind && next.step.kind != Idle
    requires CatalogsLeft(next) < CatalogsLeft(state) || (CatalogsLeft(next) == CatalogsLeft(state) && PagesLeft(state.step) > 0)
    ensures Closer(env, Advance(env, next).state, state)
  {
    ScanMovesOn(env, next, next.step.channel);
    var scanned := Scan(env, next, next.step.channel);
    hide Scan;
    assert NextStep(env, next) == scanned;
    assert Advance(env, next) == Fetch(scanned.0.(step := scanned.1.value));
    assert CatalogsLeft(scanned.0) == CatalogsLeft(next);
  }

  // ---------- the loops ----------

  /** The check of one more page against the entries collected so far. */
  method AnyKnown(entries: Entries, known: Entries) returns (any: bool)
    ensures any <==> entries.Keys * known.Keys != {}
  {
    var todo := entries.Keys;
    while todo != {}
      invariant todo <= entries.Keys && forall id :: id in entries && id !in todo ==> id !in known
    {
      var id :| id in todo;
      if id in known {
        assert id in entries.Keys * known.Keys;
        return true;
      }
      todo := todo - {id};
    }
    return false;
  }

  method ConsumeBody(state: State, content: Content) returns (next: Option<State>)
    ensures next == ConsumeFetch(state, content)
  {
    match state.step.kind {
      case OpenAiModels =>
        return if content.OpenAiCatalog? then Some(state.(upstream := content.entries)) else None;
      case ClaudeModels =>
        if !content.ClaudePage? {
          return None;
        }
        var any := AnyKnown(content.entries, state.upstream);
        if any {
          return None;
        }
        var merged := state.(upstream := state.upstream + content.entries);
        if content.hasMore {
          if content.lastId == "" || content.lastId == state.step.after || content.lastId in state.cursors
             || state.step.page + 1 >= MAX_CLAUDE_PAGES {
            return None;
          }
          return Some(merged.(cursors := state.cursors + {content.lastId},
                              step := state.step.(page := state.step.page + 1, after := content.lastId)));
        }
        return Some(merged.(cursors := {}, step := state.step.(after := "")));
      case ModelparamsFetch =>
        return if content.ModelparamsCatalog? then Some(state.(modelparams := Some(content.catalog))) else None;
      case ModelsdevFetch =>
        return if content.ModelsdevCatalog? then Some(state.(modelsdev := Some(content.catalog))) else None;
      case _ => return None;
    }
  }

  method FirstMissing(sources: seq<SourceRef>, modelparams: Option<Catalog>, modelsdev: Option<Catalog>) returns (i: nat)
    ensures i == MissingSource(sources, modelparams, modelsdev)
  {
    i := 0;
    while i < |sources|
      invariant i <= |sources|
      invariant i + MissingSource(sources[i..], modelparams, modelsdev) == MissingSource(sources, modelparams, modelsdev)
    {
      if if sources[i].ModelsdevSource? then modelsdev.None? else modelparams.None? {
        return;
      }
      assert sources[i..][1..] == sources[i + 1..];
      i := i + 1;
    }
  }

  method ResultExists(results: seq<ChannelResult>, c: nat) returns (found: bool)
    ensures found <==> HasResult(results, c)
  {
    var i := 0;
    while i < |results|
      invariant i <= |results| && forall k :: 0 <= k < i ==> results[k].channel != c
    {
      if results[i].channel == c {
        return true;
      }
      i := i + 1;
    }
    return false;
  }

  method FindNextStep(env: Environment, state: State) returns (next: State, step: Option<Step>)
    ensures (next, step) == NextStep(env, state)
  {
    hide Direct, HasResult, MissingSource;
    next := state;
    if state.step.kind == ClaudeModels && state.step.after != "" {
      return next, Some(state.step);
    }
    var c := if state.step.kind == Idle then 0 else state.step.channel;
    while c < |env.channels|
      invariant Scan(env, next, c) == NextStep(env, state)
    {
      var channel := env.channels[c];
      var known := ResultExists(next.results, c);
      if channel.enabled && !known {
        if next.step.kind == Idle || next.step.channel != c {
          if !env.located(c) {
            return next, Some(Step(Invalid, c, 0, 0, ""));
          }
          if NeedsCatalog(channel) {
            return next, Some(CatalogStep(channel, c));
          }
        }
        var missing := FirstMissing(channel.sources, next.modelparams, next.modelsdev);
        if missing < |channel.sources| {
          return next, Some(Step(if channel.sources[missing].ModelsdevSource? then ModelsdevFetch else ModelparamsFetch, c, missing, 0, ""));
        }
        if !env.located(c) || env.models(c).None? {
          return next, Some(Step(Invalid, c, 0, 0, ""));
        }
        var result := Direct(env, c, next.upstream, next.modelparams, next.modelsdev);
        next := next.(results := next.results + [result], upstream := map[], step := IDLE);
      }
      c := c + 1;
    }
    step := None;
  }

  /** The Writer's side of a whole run: it answers every fetch, with anything, until the planner is done. */
  method Drive(env: Environment) returns (outcome: Outcome, ghost replies: seq<Reply>)
    ensures outcome == Run(env, replies) && !outcome.Fetch?
    ensures outcome.Finished? && FetchNeeded(env) ==> Complete(env, LogOf(env, replies), outcome.results)
  {
    hide Waiting, Complete, Advance, ConsumeFetch, NextStep;
    replies := [];
    var next, step := FindNextStep(env, START);
    outcome := if step.None? then Finished([]) else Concluded(next, step);
    StartIs(env, next, step);
    BeginFinishes(env);
    RunSound(env, []);
    while outcome.Fetch?
      invariant outcome == Run(env, replies)
      invariant outcome.Fetch? || FetchNeeded(env) ==> OutcomeSound(env, LogOf(env, replies), outcome)
      decreases if outcome.Fetch? then ChannelsLeft(env, outcome.state) else 0,
        if outcome.Fetch? then CatalogsLeft(outcome.state) else 0,
        if outcome.Fetch? then PagesLeft(outcome.state.step) else 0, outcome.Fetch?
    {
      var reply: Reply := *;
      ghost var before, log := outcome.state, LogOf(env, replies);
      outcome := Answer(env, outcome.state, reply);
      assert (replies + [reply])[..|replies|] == replies;
      replies := replies + [reply];
      RunSound(env, replies);
      if outcome.Fetch? {
        EveryFetchIsProgress(env, log, before, reply);
      }
    }
  }

  function Concluded(next: State, step: Option<Step>): Outcome {
    match step
    case None => Finished(next.results)
    case Some(s) => if s.kind == Invalid then Error else Fetch(next.(step := s))
  }

  lemma StartIs(env: Environment, next: State, step: Option<Step>)
    requires (next, step) == NextStep(env, START)
    ensures Run(env, []) == if step.None? then Finished([]) else Concluded(next, step)
  {
  }

  method Answer(env: Environment, state: State, reply: Reply) returns (outcome: Outcome)
    ensures outcome == Resume(env, state, reply)
  {
    if !reply.accepted || reply.size > MAX_CATALOG_BYTES || state.bytes + reply.size > MAX_CATALOG_BYTES {
      return Error;
    }
    var consumed := ConsumeBody(state.(bytes := state.bytes + reply.size), reply.content);
    if consumed.None? {
      return Error;
    }
    var next, step := FindNextStep(env, consumed.value);
    return Concluded(next, step);
  }
}
