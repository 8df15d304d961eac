/** A metadata run, answer by answer: what it asks for, which bodies it takes in, and when it goes on. */
module MetadataTrace {
  import opened Options
  import opened MetadataRun

  // ---------- what is said about a run ----------

  /** The question fits the configuration of its channel. */
  predicate Asks(env: Environment, step: Step) {
    && step.channel < |env.channels| && env.channels[step.channel].enabled
    && var channel := env.channels[step.channel];
       var listed := channel.upstreamMeta || exists i :: 0 <= i < |channel.sources| && channel.sources[i].ModelsdevSource?;
       match step.kind
       case OpenAiModels => listed && !channel.claude && step.page == 0 && step.after == ""
       case ClaudeModels => listed && channel.claude && (step.page == 0 <==> step.after == "")
       case ModelparamsFetch => step.source < |channel.sources| && channel.sources[step.source].ModelparamsSource?
       case ModelsdevFetch => step.source < |channel.sources| && channel.sources[step.source].ModelsdevSource?
       case _ => false
  }

  function Total(replies: seq<Reply>): nat {
    if replies == [] then 0 else Total(replies[..|replies| - 1]) + replies[|replies| - 1].size
  }

  predicate PageBefore(log: Log, i: int, step: Step) {
    0 <= i < |log| && log[i].step.channel == step.channel && log[i].content.ClaudePage?
  }

  ghost predicate NewModels(log: Log, step: Step, content: Content)
    requires content.ClaudePage?
  {
    forall i, model :: PageBefore(log, i, step) && model in log[i].content.entries ==> model !in content.entries
  }

  ghost predicate NewCursor(log: Log, step: Step, content: Content)
    requires content.ClaudePage?
  {
    forall i :: PageBefore(log, i, step) ==> content.lastId != log[i].content.lastId
  }

  /** The body answers the question: of its kind, and a page has no model of an earlier page of the channel, and leads
      to a new page if it leads on. */
  ghost predicate Answers(log: Log, step: Step, content: Content) {
    match step.kind
    case OpenAiModels => content.OpenAiCatalog?
    case ClaudeModels =>
      && content.ClaudePage? && NewModels(log, step, content)
      && (content.hasMore ==> content.lastId != "" && step.page < 99 && NewCursor(log, step, content))
    case ModelparamsFetch => content.ModelparamsCatalog?
    case ModelsdevFetch => content.ModelsdevCatalog?
    case _ => false
  }

  /** Every enabled channel is found in the snapshot, and its models can be read. */
  ghost predicate SnapshotServes(env: Environment) {
    forall c :: 0 <= c < |env.channels| && env.channels[c].enabled ==> env.located(c) && env.models(c).Some?
  }

  // ---------- the log ----------

  predicate LoggedAt(env: Environment, replies: seq<Reply>, taken: Taken, i: nat)
    requires i < |replies|
  {
    Run(env, replies[..i]).Fetch? && taken == Taken(Run(env, replies[..i]).state.step, replies[i].content, replies[i].size)
  }

  /** Every answer is logged under the question it was given to. */
  lemma {:induction false} EveryAnswerIsLogged(env: Environment, replies: seq<Reply>)
    requires Run(env, replies) != Error
    ensures |LogOf(env, replies)| == |replies|
    ensures forall i :: 0 <= i < |replies| ==> LoggedAt(env, replies, LogOf(env, replies)[i], i)
    decreases |replies|
  {
    hide Run, LogOf, LoggedAt;
    if replies == [] {
      NothingLogged(env);
    } else {
      var n := |replies| - 1;
      LogNext(env, replies);
      EveryAnswerIsLogged(env, replies[..n]);
      var log := LogOf(env, replies);
      forall i | 0 <= i < n ensures LoggedAt(env, replies, log[i], i) {
        assert log[i] == LogOf(env, replies[..n])[i];
        SameLogged(env, replies, log[i], i);
      }
    }
  }

  lemma NothingLogged(env: Environment)
    ensures LogOf(env, []) == []
  {
    hide Run;
  }

  lemma LogNext(env: Environment, replies: seq<Reply>)
    requires replies != [] && Run(env, replies) != Error
    ensures var n := |replies| - 1;
      && Run(env, replies[..n]).Fetch?
      && LogOf(env, replies) == LogOf(env, replies[..n]) + [Taken(Run(env, replies[..n]).state.step, replies[n].content, replies[n].size)]
      && LoggedAt(env, replies, Taken(Run(env, replies[..n]).state.step, replies[n].content, replies[n].size), n)
  {
  }

  lemma SameLogged(env: Environment, replies: seq<Reply>, taken: Taken, i: nat)
    requires i < |replies| - 1
    ensures LoggedAt(env, replies[..|replies| - 1], taken, i) <==> LoggedAt(env, replies, taken, i)
  {
    assert replies[..|replies| - 1][..i] == replies[..i];
  }

  lemma {:induction false} BytesAreSizes(env: Environment, replies: seq<Reply>)
    requires Run(env, replies) != Error
    ensures Bytes(LogOf(env, replies)) == Total(replies)
    decreases |replies|
  {
    if replies != [] {
      var n := |replies| - 1;
      LogNext(env, replies);
      BytesAreSizes(env, replies[..n]);
      hide Run, LogOf;
      var log := LogOf(env, replies);
      assert log[..|log| - 1] == LogOf(env, replies[..n]);
    }
  }

  // ---------- the questions ----------

  lemma {:induction false} ScanAsks(env: Environment, state: State, c: nat)
    requires c <= |env.channels|
    ensures var step := Scan(env, state, c).1; step.Some? && step.value.kind != Invalid ==> Asks(env, step.value)
    ensures var step := Scan(env, state, c).1; SnapshotServes(env) && step.Some? ==> step.value.kind != Invalid
    decreases |env.channels| - c
  {
    hide Direct, HasResult;
    if c < |env.channels| {
      var channel := env.channels[c];
      ScanAsks(env, state, c + 1);
      if env.models(c).Some? {
        var result := Direct(env, c, state.upstream, state.modelparams, state.modelsdev);
        ScanAsks(env, state.(results := state.results + [result], upstream := map[], step := IDLE), c + 1);
      }
    }
  }

  lemma AdvanceAsks(env: Environment, state: State)
    requires state.step.kind == Idle || state.step.channel <= |env.channels|
    requires state.step.kind == ClaudeModels && state.step.after != "" ==> Asks(env, state.step)
    ensures Advance(env, state).Fetch? ==> Asks(env, Advance(env, state).state.step)
    ensures SnapshotServes(env) ==> Advance(env, state) != Error
  {
    ScanAsks(env, state, if state.step.kind == Idle then 0 else state.step.channel);
    hide Scan;
  }

  /** Every question fits the configuration. */
  lemma {:induction false} EveryQuestionFits(env: Environment, replies: seq<Reply>)
    requires Run(env, replies).Fetch?
    ensures Asks(env, Run(env, replies).state.step)
    decreases |replies|
  {
    if replies == [] {
      AdvanceAsks(env, START);
    } else {
      var before, reply := Run(env, replies[..|replies| - 1]), replies[|replies| - 1];
      EveryQuestionFits(env, replies[..|replies| - 1]);
      assert Run(env, replies) == Resume(env, before.state, reply);
      hide Run;
      QuestionAfter(env, before.state, reply);
    }
  }

  lemma QuestionAfter(env: Environment, state: State, reply: Reply)
    requires Asks(env, state.step) && Resume(env, state, reply).Fetch?
    ensures Asks(env, Resume(env, state, reply).state.step)
  {
    var counted := state.(bytes := state.bytes + reply.size);
    ConsumedStep(counted, reply.content);
    hide ConsumeFetch, Advance;
    AdvanceAsks(env, ConsumeFetch(counted, reply.content).value);
  }

  /** A page that leads on is followed by the next page; after any other body the step is as it was. */
  lemma ConsumedStep(state: State, content: Content)
    requires ConsumeFetch(state, content).Some?
    ensures var next := ConsumeFetch(state, content).value.step;
      if content.ClaudePage? then
        && state.step.kind == ClaudeModels
        && next == if content.hasMore then state.step.(page := state.step.page + 1, after := content.lastId) else state.step.(after := "")
      else next == state.step && state.step.kind != ClaudeModels
    ensures content.ClaudePage? && content.hasMore ==> content.lastId != ""
  {
  }

  /** With a snapshot that serves, a run can begin. */
  lemma CanBegin(env: Environment)
    requires SnapshotServes(env)
    ensures Run(env, []) != Error
  {
    AdvanceAsks(env, START);
    hide Advance;
  }

  // ---------- the answers ----------

  /** The cursors are those of the pages of this channel. */
  ghost predicate CursorsAre(log: Log, state: State) {
    state.step.kind == ClaudeModels ==>
      && (forall id :: id in state.cursors ==> exists i :: PageBefore(log, i, state.step) && log[i].content.lastId == id)
      && (state.step.after != "" ==> state.step.after in state.cursors)
  }

  lemma {:induction false} CursorsOfRun(env: Environment, replies: seq<Reply>)
    requires Run(env, replies).Fetch?
    ensures Waiting(env, LogOf(env, replies), Run(env, replies).state)
    ensures CursorsAre(LogOf(env, replies), Run(env, replies).state)
    decreases |replies|
  {
    RunSound(env, replies);
    if replies == [] {
      FreshCursors(env, LogOf(env, []), Run(env, []).state);
    } else {
      var before, reply := Run(env, replies[..|replies| - 1]), replies[|replies| - 1];
      var log := LogOf(env, replies[..|replies| - 1]);
      CursorsOfRun(env, replies[..|replies| - 1]);
      assert LogOf(env, replies) == log + [Taken(before.state.step, reply.content, reply.size)];
      hide Begin, Waiting;
      CursorsNext(env, log, before.state, reply);
    }
  }

  lemma FreshCursors(env: Environment, log: Log, state: State)
    requires Waiting(env, log, state) && (state.step.kind == ClaudeModels ==> state.step.after == "")
    ensures CursorsAre(log, state)
  {
    hide LogSound, DoneBelow, Agrees;
  }

  lemma CursorsNext(env: Environment, log: Log, state: State, reply: Reply)
    requires Waiting(env, log, state) && CursorsAre(log, state) && Resume(env, state, reply).Fetch?
    requires Waiting(env, log + [Taken(state.step, reply.content, reply.size)], Resume(env, state, reply).state)
    ensures CursorsAre(log + [Taken(state.step, reply.content, reply.size)], Resume(env, state, reply).state)
  {
    var taken := Taken(state.step, reply.content, reply.size);
    AfterAnswer(env, state, reply);
    hide Waiting, Resume, CursorsAre;
    if reply.content.ClaudePage? && reply.content.hasMore {
      OneMoreCursor(log, state, Resume(env, state, reply).state, taken);
    } else {
      FreshCursors(env, log + [taken], Resume(env, state, reply).state);
    }
  }

  lemma AfterAnswer(env: Environment, state: State, reply: Reply)
    requires Resume(env, state, reply).Fetch?
    ensures var next := Resume(env, state, reply).state;
      if reply.content.ClaudePage? && reply.content.hasMore then
        && state.step.kind == ClaudeModels && next.step.channel == state.step.channel
        && next.cursors == state.cursors + {reply.content.lastId} && next.step.after == reply.content.lastId
      else next.step.kind == ClaudeModels ==> next.step.after == ""
  {
    var counted := state.(bytes := state.bytes + reply.size);
    ConsumedStep(counted, reply.content);
    var next := ConsumeFetch(counted, reply.content).value;
    ScanFresh(env, next, next.step.channel);
    hide Scan;
  }

  lemma OneMoreCursor(log: Log, state: State, next: State, taken: Taken)
    requires CursorsAre(log, state) && state.step.kind == ClaudeModels && taken.step == state.step && taken.content.ClaudePage?
    requires next.step.channel == state.step.channel && next.cursors == state.cursors + {taken.content.lastId} && next.step.after == taken.content.lastId
    ensures CursorsAre(log + [taken], next)
  {
    var longer := log + [taken];
    forall id | id in next.cursors ensures exists i :: PageBefore(longer, i, next.step) && longer[i].content.lastId == id {
      if id in state.cursors {
        var i :| PageBefore(log, i, state.step) && log[i].content.lastId == id;
        assert PageBefore(longer, i, next.step) && longer[i] == log[i];
      } else {
        assert PageBefore(longer, |log|, next.step) && longer[|log|] == taken;
      }
    }
  }

  lemma {:induction false} ScanFresh(env: Environment, state: State, c: nat)
    ensures var step := Scan(env, state, c).1; step.Some? && step.value.kind == ClaudeModels ==> step.value.after == ""
    decreases |env.channels| - c
  {
    hide Direct, HasResult;
    if c < |env.channels| {
      ScanFresh(env, state, c + 1);
      if env.models(c).Some? {
        var result := Direct(env, c, state.upstream, state.modelparams, state.modelsdev);
        ScanFresh(env, state.(results := state.results + [result], upstream := map[], step := IDLE), c + 1);
      }
    }
  }

  lemma {:induction false} UpstreamIs(log: Log, c: nat, model: string)
    ensures model in UpstreamOf(log, c) <==> exists i :: 0 <= i < |log| && IsCatalog(log[i], c) && model in log[i].content.entries
    decreases |log|
  {
    if log != [] {
      UpstreamIs(log[..|log| - 1], c, model);
      assert forall i :: 0 <= i < |log| - 1 ==> log[..|log| - 1][i] == log[i];
    }
  }

  lemma AnswersExactly(env: Environment, log: Log, state: State, content: Content)
    requires Waiting(env, log, state) && CursorsAre(log, state)
    ensures ConsumeFetch(state, content).Some? <==> Answers(log, state.step, content)
  {
    hide LogSound, DoneBelow;
    if state.step.kind == ClaudeModels && content.ClaudePage? {
      forall model {
        UpstreamIs(log, state.step.channel, model);
      }
      hide UpstreamOf;
      assert state.upstream == UpstreamOf(log, state.step.channel);
      NewModelsAre(log, state, content);
      if content.hasMore && content.lastId != "" {
        NewCursorIs(log, state, content);
      }
    }
  }

  lemma NewModelsAre(log: Log, state: State, content: Content)
    requires content.ClaudePage?
    requires forall i :: 0 <= i < |log| && log[i].step.channel == state.step.channel ==> log[i].content.ClaudePage?
    requires forall model :: model in state.upstream <==>
      exists i :: 0 <= i < |log| && IsCatalog(log[i], state.step.channel) && model in log[i].content.entries
    ensures content.entries.Keys * state.upstream.Keys == {} <==> NewModels(log, state.step, content)
  {
    Disjoint(content.entries, state.upstream);
    forall model ensures model in state.upstream <==> exists i :: PageBefore(log, i, state.step) && model in log[i].content.entries {
      if model in state.upstream {
        var i :| 0 <= i < |log| && IsCatalog(log[i], state.step.channel) && model in log[i].content.entries;
        assert PageBefore(log, i, state.step);
      }
    }
  }

  lemma Disjoint(one: Entries, two: Entries)
    ensures one.Keys * two.Keys == {} <==> forall model :: model in one ==> model !in two
  {
    if one.Keys * two.Keys == {} {
      forall model | model in one ensures model !in two {
        assert model !in one.Keys * two.Keys;
      }
    }
  }

  lemma NewCursorIs(log: Log, state: State, content: Content)
    requires content.ClaudePage? && state.step.kind == ClaudeModels && CursorsAre(log, state) && content.lastId != ""
    requires forall i :: 0 <= i < |log| && log[i].step.channel == state.step.channel ==> log[i].content.ClaudePage? && log[i].content.lastId in state.cursors
    ensures content.lastId != state.step.after && content.lastId !in state.cursors <==> NewCursor(log, state.step, content)
  {
  }

  /** A run goes on with an answer exactly when the call accepts it, all bodies together have at most 8 MiB, and it
      answers the question. */
  lemma GoesOnExactly(env: Environment, replies: seq<Reply>, reply: Reply)
    requires Run(env, replies).Fetch? && SnapshotServes(env)
    ensures Run(env, replies + [reply]) != Error <==>
      reply.accepted && Total(replies) + reply.size <= 8388608 && Answers(LogOf(env, replies), Run(env, replies).state.step, reply.content)
    ensures Run(env, replies + [reply]) != Error && reply.content.ClaudePage? && reply.content.hasMore ==>
      var step := Run(env, replies).state.step;
      Run(env, replies + [reply]).Fetch?
      && Run(env, replies + [reply]).state.step == step.(page := step.page + 1, after := reply.content.lastId)
  {
    var log, state := LogOf(env, replies), Run(env, replies).state;
    CursorsOfRun(env, replies);
    BytesAreSizes(env, replies);
    EveryQuestionFits(env, replies);
    RunOn(env, replies, reply);
    BytesKnown(env, log, state);
    hide Run, LogOf, Waiting, Answers, CursorsAre, SnapshotServes, Resume, Asks;
    ResumesExactly(env, log, state, reply);
  }

  lemma RunOn(env: Environment, replies: seq<Reply>, reply: Reply)
    requires Run(env, replies).Fetch?
    ensures Run(env, replies + [reply]) == Resume(env, Run(env, replies).state, reply)
  {
    hide Resume, Begin;
    assert (replies + [reply])[..|replies|] == replies;
  }

  lemma BytesKnown(env: Environment, log: Log, state: State)
    requires Waiting(env, log, state)
    ensures state.bytes == Bytes(log)
  {
    hide LogSound, DoneBelow, Bytes;
  }

  lemma ResumesExactly(env: Environment, log: Log, state: State, reply: Reply)
    requires Waiting(env, log, state) && CursorsAre(log, state) && Asks(env, state.step) && SnapshotServes(env)
    ensures Resume(env, state, reply) != Error <==>
      reply.accepted && state.bytes + reply.size <= 8388608 && Answers(log, state.step, reply.content)
    ensures Resume(env, state, reply) != Error && reply.content.ClaudePage? && reply.content.hasMore ==>
      Resume(env, state, reply).Fetch?
      && Resume(env, state, reply).state.step == state.step.(page := state.step.page + 1, after := reply.content.lastId)
  {
    var counted := state.(bytes := state.bytes + reply.size);
    SameAnswers(state, counted, reply.content);
    AnswersExactly(env, log, state, reply.content);
    if ConsumeFetch(counted, reply.content).Some? {
      ConsumedStep(counted, reply.content);
      AdvanceAsks(env, ConsumeFetch(counted, reply.content).value);
    }
    hide Waiting, Answers, ConsumeFetch, CursorsAre, Scan, SnapshotServes;
  }

  lemma SameAnswers(state: State, counted: State, content: Content)
    requires counted == state.(bytes := counted.bytes)
    ensures ConsumeFetch(state, content).Some? <==> ConsumeFetch(counted, content).Some?
  {
  }

  // ---------- one page for a model ----------

  ghost predicate OnBoth(log: Log, i: int, j: int, model: string) {
    && 0 <= i < j < |log| && log[i].step.channel == log[j].step.channel
    && IsCatalog(log[i], log[i].step.channel) && IsCatalog(log[j], log[j].step.channel)
    && model in log[i].content.entries && model in log[j].content.entries
  }

  /** No model is on two pages of its channel. */
  lemma {:induction false} NoModelTwice(env: Environment, replies: seq<Reply>)
    requires Run(env, replies) != Error
    ensures forall i, j, model :: !OnBoth(LogOf(env, replies), i, j, model)
    decreases |replies|
  {
    if replies != [] {
      var n := |replies| - 1;
      var log, state := LogOf(env, replies[..n]), Run(env, replies[..n]).state;
      NoModelTwice(env, replies[..n]);
      LogNext(env, replies);
      TakenIn(env, replies);
      CursorsOfRun(env, replies[..n]);
      hide Run, LogOf;
      AnswersExactly(env, log, state, replies[n].content);
      NothingTwice(env, log, state, replies[n]);
    }
  }

  lemma TakenIn(env: Environment, replies: seq<Reply>)
    requires replies != [] && Run(env, replies) != Error
    ensures var n := |replies| - 1;
      Run(env, replies[..n]).Fetch? && ConsumeFetch(Run(env, replies[..n]).state, replies[n].content).Some?
  {
    var n := |replies| - 1;
    var state := Run(env, replies[..n]).state;
    SameAnswers(state, state.(bytes := state.bytes + replies[n].size), replies[n].content);
    hide ConsumeFetch, Advance;
  }

  lemma NothingTwice(env: Environment, log: Log, state: State, reply: Reply)
    requires Waiting(env, log, state) && Answers(log, state.step, reply.content)
    requires forall i, j, model :: !OnBoth(log, i, j, model)
    ensures forall i, j, model :: !OnBoth(log + [Taken(state.step, reply.content, reply.size)], i, j, model)
  {
    hide LogSound, DoneBelow, Agrees, NewCursor;
    var taken := Taken(state.step, reply.content, reply.size);
    var longer := log + [taken];
    forall i, j, model ensures !OnBoth(longer, i, j, model) {
      if 0 <= i < j < |log| {
        assert longer[i] == log[i] && longer[j] == log[j] && !OnBoth(log, i, j, model);
      } else if 0 <= i < j == |log| {
        assert longer[i] == log[i] && longer[j] == taken;
        assert state.step.kind == ClaudeModels && log[i].step.channel == state.step.channel ==> PageBefore(log, i, state.step);
      }
    }
  }

  // ---------- what has been read at the end ----------

  ghost predicate LastPageOf(log: Log, i: int, c: nat) {
    0 <= i < |log| && log[i].step.channel == c && (log[i].content.OpenAiCatalog? || (log[i].content.ClaudePage? && !log[i].content.hasMore))
  }

  /** A run that finishes after a fetch has read, for every enabled channel, its catalog to the last page if it uses
      upstream metadata or a models.dev source, and the public catalogs of its sources. */
  lemma EverythingIsRead(env: Environment, replies: seq<Reply>, c: nat)
    requires Run(env, replies).Finished? && FetchNeeded(env) && c < |env.channels| && env.channels[c].enabled
    ensures var log, channel := LogOf(env, replies), env.channels[c];
      && ((channel.upstreamMeta || exists i :: 0 <= i < |channel.sources| && channel.sources[i].ModelsdevSource?) ==> exists i :: LastPageOf(log, i, c))
      && (forall i :: 0 <= i < |channel.sources| && channel.sources[i].ModelsdevSource? ==> HasModelsdevBody(log))
      && (forall i :: 0 <= i < |channel.sources| && channel.sources[i].ModelparamsSource? ==> HasModelparamsBody(log))
  {
    ResumedEqualsOneShot(env, replies);
    var log, channel := LogOf(env, replies), env.channels[c];
    hide Run, LogOf, OneShot, ModelparamsOf, ModelsdevOf, LogSound;
    if NeedsCatalog(channel) {
      assert CatalogComplete(log, c);
      var i :| 0 <= i < |log| && IsCatalog(log[i], c) && !IsMore(log[i]);
      assert LastPageOf(log, i, c);
    }
    BodiesThere(log);
  }

  ghost predicate HasModelsdevBody(log: Log) {
    exists i :: 0 <= i < |log| && log[i].content.ModelsdevCatalog?
  }

  ghost predicate HasModelparamsBody(log: Log) {
    exists i :: 0 <= i < |log| && log[i].content.ModelparamsCatalog?
  }

  lemma {:induction false} BodiesThere(log: Log)
    ensures ModelparamsOf(log).Some? ==> HasModelparamsBody(log)
    ensures ModelsdevOf(log).Some? ==> HasModelsdevBody(log)
    decreases |log|
  {
    if log != [] {
      BodiesThere(log[..|log| - 1]);
      assert log[|log| - 1] == log[|log| - 1];
    }
  }
}
