/** A membership run, call by call: which channel it asks about, when it goes on and when it is finished, and which
    continuations a call trusts. */
module MembershipTrace {
  import opened Options
  import opened TextRules
  import opened YamlTree
  import opened YamlChannels
  import opened MembershipProposal
  import opened MembershipRun

  // ---------- which continuations are trusted ----------

  predicate PlainText(text: string, bytes: nat) {
    0 < ByteLength(text) <= bytes && forall i :: 0 <= i < |text| ==> ' ' <= text[i] && text[i] != '\U{7F}'
  }

  /** At most 100000 different names of at most 1024 bytes. */
  ghost predicate NamesServe(names: seq<string>) {
    && |names| <= 100000
    && (forall i :: 0 <= i < |names| ==> PlainText(names[i], 1024) && NoSpaceAround(names[i]))
    && (forall i, j :: 0 <= i < j < |names| ==> names[i] != names[j])
  }

  ghost predicate OneResultEach(env: Environment, c: nat, results: seq<ChannelResult>) {
    && (forall i :: 0 <= i < |results| ==>
         && results[i].channel < c && results[i].channel < |env.channels| && env.channels[results[i].channel].enabled
         && results[i].selector == env.channels[results[i].channel].selector && NamesServe(results[i].desired))
    && (forall i, j :: 0 <= i < j < |results| ==> results[i].channel < results[j].channel)
    && (forall k :: 0 <= k < c && k < |env.channels| && env.channels[k].enabled ==> exists i :: 0 <= i < |results| && results[i].channel == k)
  }

  /** It is of this attempt, waits for an enabled channel, and has the results of exactly those before it. */
  ghost predicate Trusted(env: Environment, state: Continuation) {
    && state.stamp.version == env.stamp.version && state.stamp.snapshot == env.stamp.snapshot && state.stamp.config == env.stamp.config
    && state.stamp.generation == env.stamp.generation && state.stamp.attempt == env.stamp.attempt
    && PlainText(state.stamp.attempt, 128) && PlainText(state.request, 128) && PlainText(state.auth, 512) && NoSpaceAround(state.auth)
    && state.channel < |env.channels| && env.channels[state.channel].enabled
    && OneResultEach(env, state.channel, state.results)
  }

  lemma {:induction false} NoBytes(text: string)
    ensures ByteLength(text) >= |text| && (ByteLength(text) == 0 <==> text == "")
  {
    if text != "" {
      NoBytes(text[1..]);
    }
  }

  lemma PlainIs(text: string, bytes: nat)
    ensures GoodText(text, bytes) <==> PlainText(text, bytes)
  {
    NoBytes(text);
    hide ByteLength;
  }

  /** Trimming leaves a text alone exactly when no space is around it. */
  lemma TrimmedIs(text: string)
    ensures TrimSpace(text) == text <==> NoSpaceAround(text)
  {
    TrimExactly(text, text);
    hide TrimSpace, IsSpace;
    if NoSpaceAround(text) {
      assert AllSpace("") && text == "" + text + "";
    }
  }

  lemma NamesAre(names: seq<string>)
    ensures GoodNames(names) <==> NamesServe(names)
  {
    forall name {
      PlainIs(name, 1024);
    }
    forall name {
      TrimmedIs(name);
    }
    forall name | GoodText(name, 1024) ensures name != "" {
    }
    hide GoodText, PlainText, TrimSpace, NoSpaceAround;
  }

  lemma ResultsAre(env: Environment, c: nat, results: seq<ChannelResult>)
    requires c <= |env.channels|
    ensures OneResultEach(env, c, results) <==>
      (forall i :: 0 <= i < |results| ==> GoodResult(env, c, results[i])) && Increasing(results) && Covers(env, c, results)
  {
    forall names {
      NamesAre(names);
    }
    hide GoodNames, NamesServe;
  }

  lemma {:induction false} NotMoreThanChannels(results: seq<ChannelResult>, n: nat)
    requires forall i, j :: 0 <= i < j < |results| ==> results[i].channel < results[j].channel
    requires forall i :: 0 <= i < |results| ==> results[i].channel < n
    ensures |results| <= n
    decreases |results|
  {
    if results != [] {
      NotMoreThanChannels(results[..|results| - 1], results[|results| - 1].channel);
    }
  }

  /** A call trusts a continuation exactly if it is of this kind. */
  lemma TrustedExactly(env: Environment, state: Continuation)
    ensures Acceptable(env, state) <==> Trusted(env, state)
  {
    PlainIs(state.stamp.attempt, 128);
    PlainIs(state.request, 128);
    PlainIs(state.auth, 512);
    TrimmedIs(state.auth);
    if state.channel < |env.channels| {
      ResultsAre(env, state.channel, state.results);
      if OneResultEach(env, state.channel, state.results) {
        NotMoreThanChannels(state.results, state.channel);
      }
    }
    hide GoodText, PlainText, TrimSpace, NoSpaceAround, GoodResult, NamesServe;
  }

  // ---------- the steps of a run ----------

  /** The first enabled channel from c on. */
  predicate FirstFrom(env: Environment, c: nat, n: nat) {
    c <= n < |env.channels| && env.channels[n].enabled && forall k :: c <= k < n ==> !env.channels[k].enabled
  }

  /** The outcome of a call that takes in what it has to: the next fetch, if it can be made, or the end. */
  ghost predicate LeadsFrom(env: Environment, c: nat, reply: Reply, outcome: Outcome) {
    if exists n :: FirstFrom(env, c, n) then
      forall n :: FirstFrom(env, c, n) ==>
        if env.located(n) && reply.auth.Some? && reply.request.Some? then
          outcome.Fetch? && outcome.state.channel == n && outcome.state.request == reply.request.value && outcome.state.auth == reply.auth.value
        else outcome == Error
    else outcome.Finished?
  }

  /** The answer is to the question, successful and readable, and the channel is still there. */
  predicate TakenIn(env: Environment, state: Continuation, reply: Reply) {
    reply.presented == state.request && reply.ok && reply.ids.Some? && env.located(state.channel)
  }

  lemma LeadsExactly(env: Environment, c: nat, results: seq<ChannelResult>, reply: Reply)
    requires c <= |env.channels|
    ensures LeadsFrom(env, c, reply, NextFetch(env, c, results, reply))
  {
    var next := NextEnabled(env.channels, c);
    hide NextEnabled;
    forall n: nat | FirstFrom(env, c, n) ensures n == next {
    }
    if next < |env.channels| {
      assert FirstFrom(env, c, next);
    }
  }

  /** The first call asks about the first enabled channel. */
  lemma BeginsExactly(env: Environment, reply: Reply)
    ensures LeadsFrom(env, 0, reply, Run(env, [reply]))
  {
    LeadsExactly(env, 0, [], reply);
  }

  /** A later call fails, or goes on to the next enabled channel, or is the last. */
  lemma GoesOnExactly(env: Environment, replies: seq<Reply>, reply: Reply)
    requires replies != [] && GoodText(env.stamp.attempt, 128) && (forall i :: 0 <= i < |replies| ==> Proper(replies[i]))
    requires Run(env, replies).Fetch?
    ensures var state := Run(env, replies).state;
      if TakenIn(env, state, reply) then LeadsFrom(env, state.channel + 1, reply, Run(env, replies + [reply])) else Run(env, replies + [reply]) == Error
  {
    EmittedStatesAreAccepted(env, replies);
    var state := Run(env, replies).state;
    assert (replies + [reply])[..|replies|] == replies;
    assert Run(env, replies + [reply]) == Resume(env, state, reply);
    hide Run, Proper, GoodText, LeadsFrom, NextFetch;
    Unfolded(env, state, reply);
  }

  lemma Unfolded(env: Environment, state: Continuation, reply: Reply)
    requires Acceptable(env, state)
    ensures if TakenIn(env, state, reply) then LeadsFrom(env, state.channel + 1, reply, Resume(env, state, reply)) else Resume(env, state, reply) == Error
  {
    hide Kept, LeadsFrom, NextFetch;
    if TakenIn(env, state, reply) {
      var channel := env.channels[state.channel];
      LeadsExactly(env, state.channel + 1,
        state.results + [ChannelResult(state.channel, channel.selector, Kept(reply.ids.value, channel))], reply);
    }
  }
}
