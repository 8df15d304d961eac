/** The resumable membership planner: one catalog for each enabled channel, carried along in a
    continuation that the next call checks before it trusts it. */
module MembershipRun {
  import opened Options
  import opened YamlGraph
  import opened YamlTree
  import opened YamlChannels
  import opened MembershipPlanner
  import opened MembershipProposal
  import opened OwnershipCheck
  import PlannerFence
  import WriterTypes

  const MAX_NAMES: nat := 100000
  const MAX_NAME_BYTES: nat := 1024
  const MAX_ID_BYTES: nat := 128
  const MAX_AUTH_BYTES: nat := 512

  /** A compiled pattern says which identifiers it matches. */
  type Pattern = string -> bool

  datatype Channel = Channel(enabled: bool, selector: Selector, exclude: bool, patterns: seq<Pattern>)

  /** Version, snapshot and configuration digests, generation and attempt identifier of one attempt. */
  datatype Stamp = Stamp(version: string, snapshot: string, config: string, generation: nat, attempt: string)

  datatype Environment = Environment(stamp: Stamp, channels: seq<Channel>, located: nat -> bool)

  datatype ChannelResult = ChannelResult(channel: nat, selector: Selector, desired: seq<string>)

  datatype Continuation = Continuation(stamp: Stamp, channel: nat, request: string, auth: string, results: seq<ChannelResult>)

  // ---------- the filter ----------

  predicate Matched(id: string, patterns: seq<Pattern>) {
    exists i :: 0 <= i < |patterns| && patterns[i](id)
  }

  predicate Keeps(channel: Channel, id: string) {
    if channel.exclude then !Matched(id, channel.patterns) || |channel.patterns| == 0 else Matched(id, channel.patterns)
  }

  function Kept(ids: seq<string>, channel: Channel): seq<string> {
    if ids == [] then [] else Kept(ids[..|ids| - 1], channel) + if Keeps(channel, ids[|ids| - 1]) then [ids[|ids| - 1]] else []
  }

  method MatchAny(id: string, patterns: seq<Pattern>) returns (matched: bool)
    ensures matched <==> Matched(id, patterns)
  {
    var i := 0;
    while i < |patterns|
      invariant i <= |patterns| && forall k :: 0 <= k < i ==> !patterns[k](id)
    {
      if patterns[i](id) {
        return true;
      }
      i := i + 1;
    }
    return false;
  }

  method FilterIds(ids: seq<string>, channel: Channel) returns (desired: seq<string>)
    ensures desired == Kept(ids, channel)
  {
    desired := [];
    var i := 0;
    while i < |ids|
      invariant i <= |ids| && desired == Kept(ids[..i], channel)
    {
      var matched := MatchAny(ids[i], channel.patterns);
      var keep := matched;
      if channel.exclude {
        keep := !matched || |channel.patterns| == 0;
      }
      assert ids[..i + 1][..i] == ids[..i];
      if keep {
        desired := desired + [ids[i]];
      }
      i := i + 1;
    }
    assert ids[..i] == ids;
  }

  /** Which identifiers a channel wants: those some pattern matches, or, when it excludes, those none does. */
  ghost predicate Wanted(channel: Channel, id: string) {
    if channel.exclude then forall i :: 0 <= i < |channel.patterns| ==> !channel.patterns[i](id)
    else exists i :: 0 <= i < |channel.patterns| && channel.patterns[i](id)
  }

  /** The places of the wanted identifiers, in order. */
  ghost predicate Places(ids: seq<string>, channel: Channel, places: seq<nat>) {
    && (forall i, j :: 0 <= i < j < |places| ==> places[i] < places[j])
    && (forall k :: k in places <==> 0 <= k < |ids| && Wanted(channel, ids[k]))
  }

  ghost predicate Picked(ids: seq<string>, places: seq<nat>, picked: seq<string>) {
    |picked| == |places| && forall i :: 0 <= i < |places| ==> places[i] < |ids| && picked[i] == ids[places[i]]
  }

  /** What the filter leaves are the wanted identifiers, each at its place in the order. */
  lemma {:induction false} FilterExactly(ids: seq<string>, channel: Channel) returns (places: seq<nat>)
    ensures Places(ids, channel, places) && Picked(ids, places, Kept(ids, channel))
  {
    if ids == [] {
      places := [];
    } else {
      var n := |ids| - 1;
      places := FilterExactly(ids[..n], channel);
      KeepsIsWanted(channel, ids[n]);
      hide Keeps, Wanted;
      if Keeps(channel, ids[n]) {
        places := places + [n];
      }
    }
  }

  lemma KeepsIsWanted(channel: Channel, id: string)
    ensures Keeps(channel, id) <==> Wanted(channel, id)
  {
  }

  /** The filter keeps exactly the wanted identifiers, each as often and in the order it came. */
  lemma {:induction false} KeptExactly(ids: seq<string>, channel: Channel)
    ensures forall id :: id in Kept(ids, channel) <==> id in ids && Wanted(channel, id)
    ensures |Kept(ids, channel)| <= |ids|
    ensures CleanNames(ids) ==> CleanNames(Kept(ids, channel))
  {
    if ids != [] {
      var rest, last := ids[..|ids| - 1], ids[|ids| - 1];
      KeptExactly(rest, channel);
      KeepsIsWanted(channel, last);
      assert ids == rest + [last];
      if CleanNames(ids) {
        assert CleanNames(rest) && last !in rest;
      }
    }
  }

  // ---------- the continuation's check ----------

  predicate GoodText(text: string, bytes: nat) {
    text != "" && ByteLength(text) <= bytes && !HasControl(text)
  }

  ghost predicate GoodNames(names: seq<string>) {
    && |names| <= MAX_NAMES && CleanNames(names)
    && (forall i :: 0 <= i < |names| ==> GoodText(names[i], MAX_NAME_BYTES))
  }

  ghost predicate GoodResult(env: Environment, c: nat, result: ChannelResult) {
    && result.channel < c <= |env.channels| && env.channels[result.channel].enabled
    && result.selector == env.channels[result.channel].selector && GoodNames(result.desired)
  }

  ghost predicate Increasing(results: seq<ChannelResult>) {
    forall i, j :: 0 <= i < j < |results| ==> results[i].channel < results[j].channel
  }

  ghost predicate Covers(env: Environment, c: nat, results: seq<ChannelResult>) {
    c <= |env.channels| && forall k :: 0 <= k < c && env.channels[k].enabled ==> exists i :: 0 <= i < |results| && results[i].channel == k
  }

  /** The continuation belongs to this attempt and carries exactly the results it should by now. */
  ghost predicate Acceptable(env: Environment, state: Continuation) {
    && state.stamp == env.stamp && GoodText(env.stamp.attempt, MAX_ID_BYTES)
    && state.channel < |env.channels| && env.channels[state.channel].enabled
    && GoodText(state.request, MAX_ID_BYTES)
    && GoodText(state.auth, MAX_AUTH_BYTES) && TrimSpace(state.auth) == state.auth
    && |state.results| <= |env.channels|
    && (forall i :: 0 <= i < |state.results| ==> GoodResult(env, state.channel, state.results[i]))
    && Increasing(state.results) && Covers(env, state.channel, state.results)
  }

  /** The loop over the names of one result. */
  method ValidNames(names: seq<string>) returns (ok: bool)
    ensures ok <==> GoodNames(names)
  {
    hide TrimSpace, ByteLength, HasControl;
    if |names| > MAX_NAMES {
      return false;
    }
    var seen: set<string> := {};
    var i := 0;
    BlankIsBlank();
    while i < |names|
      invariant i <= |names| && CleanNames(names[..i])
      invariant forall k :: 0 <= k < i ==> GoodText(names[k], MAX_NAME_BYTES)
      invariant forall name :: name in seen <==> name in names[..i]
    {
      if TrimSpace(names[i]) == "" || names[i] != TrimSpace(names[i]) || ByteLength(names[i]) > MAX_NAME_BYTES
         || HasControl(names[i]) || names[i] in seen {
        return false;
      }
      seen := seen + {names[i]};
      i := i + 1;
    }
    assert names[..i] == names;
    return true;
  }

  lemma BlankIsBlank()
    ensures TrimSpace("") == ""
  {
  }

  method ValidContinuationState(env: Environment, state: Continuation) returns (ok: bool)
    ensures ok <==> Acceptable(env, state)
  {
    hide GoodText, GoodNames, TrimSpace;
    if state.stamp != env.stamp || !GoodText(env.stamp.attempt, MAX_ID_BYTES) || state.channel >= |env.channels|
       || !env.channels[state.channel].enabled || !GoodText(state.request, MAX_ID_BYTES)
       || TrimSpace(state.auth) != state.auth || !GoodText(state.auth, MAX_AUTH_BYTES) || |state.results| > |env.channels| {
      return false;
    }
    var seen: set<nat> := {};
    var last: int := -1;
    var i := 0;
    while i < |state.results|
      invariant i <= |state.results|
      invariant forall k :: 0 <= k < i ==> GoodResult(env, state.channel, state.results[k]) && state.results[k].channel <= last
      invariant Increasing(state.results[..i])
      invariant i > 0 ==> last == state.results[i - 1].channel
      invariant i == 0 ==> last == -1
      invariant forall c: nat :: c in seen <==> exists k :: 0 <= k < i && state.results[k].channel == c
    {
      var result := state.results[i];
      if result.channel <= last || result.channel >= state.channel || result.channel in seen
         || !env.channels[result.channel].enabled || result.selector != env.channels[result.channel].selector {
        assert i > 0 && result.channel <= last ==> !Increasing(state.results);
        assert !GoodResult(env, state.channel, result) || !Increasing(state.results);
        return false;
      }
      var named := ValidNames(result.desired);
      if !named {
        assert !GoodResult(env, state.channel, result);
        return false;
      }
      seen := seen + {result.channel};
      last := result.channel;
      i := i + 1;
    }
    assert state.results[..i] == state.results;
    ok := AllCovered(env, state.channel, state.results, seen);
  }

  /** The loop over the channels before the current one. */
  method AllCovered(env: Environment, channel: nat, results: seq<ChannelResult>, seen: set<nat>) returns (ok: bool)
    requires channel <= |env.channels| && forall c: nat :: c in seen <==> exists k :: 0 <= k < |results| && results[k].channel == c
    ensures ok <==> Covers(env, channel, results)
  {
    var c := 0;
    while c < channel
      invariant c <= channel && Covers(env, c, results)
    {
      if env.channels[c].enabled && c !in seen {
        return false;
      }
      c := c + 1;
    }
    return true;
  }

  // ---------- the machine ----------

  /** A parsed catalog: its identifiers, or None when the body cannot be read. `presented` is the request
      identifier that comes with it; `auth` and `request` are the identity and the random identifier for the
      next fetch, None when there is none; `ok` stands for the status code, the body size and the credential
      of the fetch just answered. */
  datatype Reply = Reply(presented: string, ids: Option<seq<string>>, ok: bool, auth: Option<string>, request: Option<string>)

  datatype Outcome = Fetch(state: Continuation) | Finished(results: seq<ChannelResult>) | Error

  /** The first enabled channel from c on. */
  function NextEnabled(channels: seq<Channel>, c: nat): (next: nat)
    requires c <= |channels|
    ensures c <= next <= |channels|
    ensures next < |channels| ==> channels[next].enabled
    ensures forall k :: c <= k < next ==> !channels[k].enabled
    decreases |channels| - c
  {
    if c == |channels| || channels[c].enabled then c else NextEnabled(channels, c + 1)
  }

  function NextFetch(env: Environment, c: nat, results: seq<ChannelResult>, reply: Reply): Outcome
    requires c <= |env.channels|
  {
    var next := NextEnabled(env.channels, c);
    if next == |env.channels| then Finished(results)
    else if !env.located(next) || reply.auth.None? || reply.request.None? then Error
    else Fetch(Continuation(env.stamp, next, reply.request.value, reply.auth.value, results))
  }

  function Begin(env: Environment, reply: Reply): Outcome {
    NextFetch(env, 0, [], reply)
  }

  ghost function Resume(env: Environment, state: Continuation, reply: Reply): Outcome {
    if !Acceptable(env, state) || reply.presented != state.request || !reply.ok || !env.located(state.channel) || reply.ids.None? then Error
    else
      var channel := env.channels[state.channel];
      NextFetch(env, state.channel + 1,
        state.results + [ChannelResult(state.channel, channel.selector, Kept(reply.ids.value, channel))], reply)
  }

  /** The first reply only brings the identity and identifier for the first fetch. */
  ghost function Run(env: Environment, replies: seq<Reply>): Outcome
    requires replies != []
    decreases |replies|
  {
    if |replies| == 1 then Begin(env, replies[0])
    else
      var before := Run(env, replies[..|replies| - 1]);
      if before.Fetch? then Resume(env, before.state, replies[|replies| - 1]) else Error
  }

  method FirstEnabled(channels: seq<Channel>, start: nat) returns (index: nat)
    requires start <= |channels|
    ensures index == NextEnabled(channels, start)
  {
    index := start;
    while index < |channels|
      invariant start <= index <= |channels| && NextEnabled(channels, index) == NextEnabled(channels, start)
    {
      if channels[index].enabled {
        return;
      }
      index := index + 1;
    }
  }

  method PlanDecoded(env: Environment, state: Option<Continuation>, reply: Reply) returns (outcome: Outcome)
    ensures outcome == if state.None? then Begin(env, reply) else Resume(env, state.value, reply)
  {
    var results: seq<ChannelResult> := [];
    var start := 0;
    if state.Some? {
      var valid := ValidContinuationState(env, state.value);
      if !valid || reply.presented != state.value.request || !reply.ok || !env.located(state.value.channel) || reply.ids.None? {
        return Error;
      }
      var channel := env.channels[state.value.channel];
      var desired := FilterIds(reply.ids.value, channel);
      results := state.value.results + [ChannelResult(state.value.channel, channel.selector, desired)];
      start := state.value.channel + 1;
    }
    var next := FirstEnabled(env.channels, start);
    if next == |env.channels| {
      return Finished(results);
    }
    if !env.located(next) || reply.auth.None? || reply.request.None? {
      return Error;
    }
    return Fetch(Continuation(env.stamp, next, reply.request.value, reply.auth.value, results));
  }

  // ---------- what a run computes ----------

  /** What the other side may be relied on: catalogs of clean names, not too many, and usable identities. */
  ghost predicate Proper(reply: Reply) {
    && (reply.ids.Some? ==> GoodNames(reply.ids.value))
    && (reply.auth.Some? ==> GoodText(reply.auth.value, MAX_AUTH_BYTES) && TrimSpace(reply.auth.value) == reply.auth.value)
    && (reply.request.Some? ==> GoodText(reply.request.value, MAX_ID_BYTES))
  }

  /** The n-th result comes from the n-th catalog. */
  ghost predicate FromCatalogs(env: Environment, results: seq<ChannelResult>, catalogs: seq<seq<string>>) {
    && |results| == |catalogs|
    && (forall i :: 0 <= i < |results| ==>
         results[i].channel < |env.channels| && results[i].desired == Kept(catalogs[i], env.channels[results[i].channel]))
  }

  /** One result for each enabled channel below c, in order, each of clean names. */
  ghost predicate AllEnabledBelow(env: Environment, c: nat, results: seq<ChannelResult>) {
    && c <= |env.channels| && Increasing(results) && Covers(env, c, results)
    && (forall i :: 0 <= i < |results| ==> GoodResult(env, c, results[i]))
  }

  lemma {:induction false} CountBelow(results: seq<ChannelResult>, c: nat)
    requires Increasing(results) && forall i :: 0 <= i < |results| ==> results[i].channel < c
    ensures |results| <= c
    decreases |results|
  {
    if results != [] {
      var n := |results| - 1;
      CountBelow(results[..n], results[n].channel);
    }
  }

  lemma SkipDisabled(env: Environment, c: nat, next: nat, results: seq<ChannelResult>)
    requires AllEnabledBelow(env, c, results) && c <= next <= |env.channels|
    requires forall k :: c <= k < next ==> !env.channels[k].enabled
    ensures AllEnabledBelow(env, next, results)
  {
    hide GoodNames;
  }

  lemma AddResult(env: Environment, c: nat, results: seq<ChannelResult>, desired: seq<string>)
    requires AllEnabledBelow(env, c, results) && c < |env.channels| && env.channels[c].enabled && GoodNames(desired)
    ensures AllEnabledBelow(env, c + 1, results + [ChannelResult(c, env.channels[c].selector, desired)])
  {
    hide GoodNames;
    var longer := results + [ChannelResult(c, env.channels[c].selector, desired)];
    assert longer[|results|].channel == c;
    forall k | 0 <= k < c + 1 && env.channels[k].enabled ensures exists i :: 0 <= i < |longer| && longer[i].channel == k {
      if k < c {
        var i :| 0 <= i < |results| && results[i].channel == k;
        assert longer[i].channel == k;
      }
    }
  }

  lemma KeptGood(ids: seq<string>, channel: Channel)
    requires GoodNames(ids)
    ensures GoodNames(Kept(ids, channel))
  {
    KeptExactly(ids, channel);
    hide GoodText, CleanNames, Kept;
    forall i | 0 <= i < |Kept(ids, channel)| ensures GoodText(Kept(ids, channel)[i], MAX_NAME_BYTES) {
      assert Kept(ids, channel)[i] in ids;
    }
  }

  ghost predicate OutcomeGood(env: Environment, outcome: Outcome, catalogs: seq<seq<string>>) {
    match outcome
    case Fetch(state) => Acceptable(env, state) && FromCatalogs(env, state.results, catalogs)
    case Finished(results) => AllEnabledBelow(env, |env.channels|, results) && FromCatalogs(env, results, catalogs)
    case Error => true
  }

  lemma EmittedIsGood(env: Environment, c: nat, results: seq<ChannelResult>, reply: Reply, catalogs: seq<seq<string>>)
    requires c <= |env.channels| && AllEnabledBelow(env, c, results) && Proper(reply) && GoodText(env.stamp.attempt, MAX_ID_BYTES)
    requires FromCatalogs(env, results, catalogs)
    ensures OutcomeGood(env, NextFetch(env, c, results, reply), catalogs)
  {
    hide GoodText, GoodNames, FromCatalogs;
    SkipDisabled(env, c, NextEnabled(env.channels, c), results);
    CountBelow(results, NextEnabled(env.channels, c));
  }

  /** The catalogs taken in, in order: one with each reply after the first. */
  function Catalogs(replies: seq<Reply>): seq<seq<string>>
    decreases |replies|
  {
    if |replies| <= 1 then []
    else Catalogs(replies[..|replies| - 1]) + [if replies[|replies| - 1].ids.Some? then replies[|replies| - 1].ids.value else []]
  }

  lemma ResumedIsGood(env: Environment, state: Continuation, reply: Reply, catalogs: seq<seq<string>>)
    requires GoodText(env.stamp.attempt, MAX_ID_BYTES) && Proper(reply)
    requires Acceptable(env, state) && FromCatalogs(env, state.results, catalogs) && reply.ids.Some?
    ensures OutcomeGood(env, Resume(env, state, reply), catalogs + [reply.ids.value])
  {
    var channel := env.channels[state.channel];
    var result := ChannelResult(state.channel, channel.selector, Kept(reply.ids.value, channel));
    KeptGood(reply.ids.value, channel);
    assert AllEnabledBelow(env, state.channel, state.results);
    AddResult(env, state.channel, state.results, result.desired);
    hide Proper, GoodText, GoodNames, NextFetch, OutcomeGood, Acceptable, AllEnabledBelow;
    assert FromCatalogs(env, state.results + [result], catalogs + [reply.ids.value]);
    EmittedIsGood(env, state.channel + 1, state.results + [result], reply, catalogs + [reply.ids.value]);
    hide FromCatalogs;
    if Resume(env, state, reply) == Error {
      ErrorIsGood(env, catalogs + [reply.ids.value]);
    }
  }

  lemma ErrorIsGood(env: Environment, catalogs: seq<seq<string>>)
    ensures OutcomeGood(env, Error, catalogs)
  {
  }

  /** Whatever a run emits, the next call of the same attempt accepts: no run fails on its own state. And
      what it carries is exactly the filtered catalog of every enabled channel so far, each fetched once and
      in the order of the channels. */
  lemma {:induction false} EmittedStatesAreAccepted(env: Environment, replies: seq<Reply>)
    requires replies != [] && GoodText(env.stamp.attempt, MAX_ID_BYTES)
    requires forall i :: 0 <= i < |replies| ==> Proper(replies[i])
    ensures OutcomeGood(env, Run(env, replies), Catalogs(replies))
    decreases |replies|
  {
    var last := replies[|replies| - 1];
    hide Proper, GoodText, Resume;
    if |replies| == 1 {
      EmittedIsGood(env, 0, [], last, []);
    } else {
      EmittedStatesAreAccepted(env, replies[..|replies| - 1]);
      var before := Run(env, replies[..|replies| - 1]);
      if before.Fetch? && last.ids.Some? {
        ResumedIsGood(env, before.state, last, Catalogs(replies[..|replies| - 1]));
      } else {
        NothingToResume(env, replies);
      }
    }
  }

  lemma NothingToResume(env: Environment, replies: seq<Reply>)
    requires |replies| > 1
    requires !Run(env, replies[..|replies| - 1]).Fetch? || replies[|replies| - 1].ids.None?
    ensures Run(env, replies) == Error
  {
  }

  /** A continuation names its request, so a call that presents another identifier fails, and one that
      presents the empty identifier always does. */
  lemma PresentedIsNamed(env: Environment, state: Continuation, reply: Reply)
    requires Resume(env, state, reply) != Error
    ensures PlannerFence.Plannable(Some(reply.presented), state.request)
    ensures reply.presented == state.request != ""
  {
    hide NextFetch, Kept;
  }

  // ---------- from the run to the proposal ----------

  function PlanOf(results: seq<ChannelResult>): (plan: seq<Planned>)
    ensures |plan| == |results|
    ensures forall i :: 0 <= i < |results| ==> plan[i] == Planned(results[i].selector, results[i].desired)
  {
    seq(|results|, i requires 0 <= i < |results| => Planned(results[i].selector, results[i].desired))
  }

  /** The enabled channels below c, in order. */
  function EnabledBelow(channels: seq<Channel>, c: nat): seq<nat>
    requires c <= |channels|
  {
    if c == 0 then [] else EnabledBelow(channels, c - 1) + if channels[c - 1].enabled then [c - 1] else []
  }

  lemma {:induction false} EnabledExactly(channels: seq<Channel>, c: nat)
    requires c <= |channels|
    ensures forall i :: 0 <= i < |EnabledBelow(channels, c)| ==> EnabledBelow(channels, c)[i] < c
  {
    if c > 0 {
      EnabledExactly(channels, c - 1);
    }
  }

  /** One pass: every enabled channel in order with the wanted identifiers of its own catalog. */
  function OneShotPlan(channels: seq<Channel>, catalogs: seq<seq<string>>): seq<Planned>
    requires |catalogs| == |EnabledBelow(channels, |channels|)|
  {
    EnabledExactly(channels, |channels|);
    var enabled := EnabledBelow(channels, |channels|);
    seq(|enabled|, i requires 0 <= i < |enabled| => Planned(channels[enabled[i]].selector, Kept(catalogs[i], channels[enabled[i]])))
  }

  /** Results for all enabled channels in order are results for exactly these channels. */
  lemma {:induction false} ResultsAreEnabled(env: Environment, c: nat, results: seq<ChannelResult>)
    requires AllEnabledBelow(env, c, results)
    ensures |results| == |EnabledBelow(env.channels, c)|
    ensures forall i :: 0 <= i < |results| ==> results[i].channel == EnabledBelow(env.channels, c)[i]
    decreases c
  {
    ResultsBelow(env, c, results);
    hide GoodResult, Covers;
    if c == 0 {
      CountBelow(results, 0);
    } else if env.channels[c - 1].enabled {
      LastIsThere(env, c, results);
      DropLast(env, c, results);
      var n := |results| - 1;
      ResultsAreEnabled(env, c - 1, results[..n]);
      assert results == results[..n] + [results[n]];
    } else {
      OneFewer(env, c, results);
      ResultsAreEnabled(env, c - 1, results);
    }
  }

  lemma ResultsBelow(env: Environment, c: nat, results: seq<ChannelResult>)
    requires AllEnabledBelow(env, c, results)
    ensures forall i :: 0 <= i < |results| ==> results[i].channel < c
  {
    hide GoodNames;
  }

  lemma LastIsThere(env: Environment, c: nat, results: seq<ChannelResult>)
    requires AllEnabledBelow(env, c, results) && 0 < c && env.channels[c - 1].enabled
    ensures results != [] && results[|results| - 1].channel == c - 1
  {
    ResultsBelow(env, c, results);
    hide GoodResult;
    var i :| 0 <= i < |results| && results[i].channel == c - 1;
    assert results[|results| - 1].channel < c;
  }

  lemma OneFewer(env: Environment, c: nat, results: seq<ChannelResult>)
    requires AllEnabledBelow(env, c, results) && 0 < c && !env.channels[c - 1].enabled
    ensures AllEnabledBelow(env, c - 1, results)
  {
    hide GoodNames;
    forall i | 0 <= i < |results| ensures GoodResult(env, c - 1, results[i]) {
      assert GoodResult(env, c, results[i]);
    }
  }

  lemma DropLast(env: Environment, c: nat, results: seq<ChannelResult>)
    requires AllEnabledBelow(env, c, results) && 0 < c && results != [] && results[|results| - 1].channel == c - 1
    ensures AllEnabledBelow(env, c - 1, results[..|results| - 1])
  {
    hide GoodNames;
    var n := |results| - 1;
    var rest := results[..n];
    assert forall i :: 0 <= i < n ==> rest[i] == results[i];
    forall k | 0 <= k < c - 1 && env.channels[k].enabled ensures exists i :: 0 <= i < |rest| && rest[i].channel == k {
      var i :| 0 <= i < |results| && results[i].channel == k;
      assert rest[i].channel == k;
    }
  }

  /** Every channel with a result was found in the snapshot. */
  ghost predicate ResultsLocated(env: Environment, results: seq<ChannelResult>) {
    forall i :: 0 <= i < |results| ==> env.located(results[i].channel)
  }

  lemma {:induction false} RunLocated(env: Environment, replies: seq<Reply>)
    requires replies != []
    ensures match Run(env, replies)
      case Fetch(state) => ResultsLocated(env, state.results)
      case Finished(results) => ResultsLocated(env, results)
      case Error => true
    decreases |replies|
  {
    hide Acceptable, Kept;
    if |replies| > 1 {
      RunLocated(env, replies[..|replies| - 1]);
    }
  }

  ghost predicate SelectorsDiffer(env: Environment) {
    forall j, k :: 0 <= j < k < |env.channels| ==> env.channels[j].selector != env.channels[k].selector
  }

  /** A finished run hands over the plan of one pass over the filtered catalogs, a plan that the edit can
      rely on: different channels, all in the snapshot, clean names. */
  lemma FinishedPlanIsClean(env: Environment, replies: seq<Reply>)
    requires replies != [] && GoodText(env.stamp.attempt, MAX_ID_BYTES) && SelectorsDiffer(env)
    requires forall i :: 0 <= i < |replies| ==> Proper(replies[i])
    requires Run(env, replies).Finished?
    ensures var results := Run(env, replies).results;
      && AllEnabledBelow(env, |env.channels|, results) && FromCatalogs(env, results, Catalogs(replies))
      && DistinctSelectors(PlanOf(results)) && CleanResults(PlanOf(results)) && ResultsLocated(env, results)
    ensures |Catalogs(replies)| == |EnabledBelow(env.channels, |env.channels|)|
    ensures PlanOf(Run(env, replies).results) == OneShotPlan(env.channels, Catalogs(replies))
  {
    EmittedStatesAreAccepted(env, replies);
    RunLocated(env, replies);
    hide Proper, GoodText, Run, CleanNames, Catalogs;
    var results := Run(env, replies).results;
    ResultsAreEnabled(env, |env.channels|, results);
    EnabledExactly(env.channels, |env.channels|);
    assert PlanOf(results) == OneShotPlan(env.channels, Catalogs(replies));
  }

  /** The snapshot as the run sees it. */
  ghost predicate SnapshotOf(reader: Reader, root: Tree, env: Environment) {
    forall c: nat :: c < |env.channels| ==> (env.located(c) <==> Located(reader, root, env.channels[c].selector))
  }

  /** The end of a run: the edit of the snapshot succeeds, the document becomes what one pass over the
      filtered catalogs would make of it, and the check accepts that exactly when it would accept the
      snapshot unchanged. */
  method FinishPlan(reader: Reader, root: Tree, env: Environment, results: seq<ChannelResult>, ghost replies: seq<Reply>)
    returns (next: Tree, changed: bool, ghost places: seq<nat>)
    requires replies != [] && GoodText(env.stamp.attempt, MAX_ID_BYTES) && SelectorsDiffer(env) && SnapshotOf(reader, root, env)
    requires forall i :: 0 <= i < |replies| ==> Proper(replies[i])
    requires Run(env, replies) == Finished(results)
    ensures |Catalogs(replies)| == |EnabledBelow(env.channels, |env.channels|)|
    ensures |places| == |results| && Edited(reader, root, next, OneShotPlan(env.channels, Catalogs(replies)), places)
    ensures changed <==> Differs(root, OneShotPlan(env.channels, Catalogs(replies)), places)
    ensures FineTree(root) && root.shell.kind == MappingNode && MutablePaths(root, WriterTypes.AutoPull) ==>
      (MayPropose(WriterTypes.AutoPull, root, next) <==> MayPropose(WriterTypes.AutoPull, root, root))
  {
    FinishedPlanIsClean(env, replies);
    hide Run, Proper, Catalogs, OneShotPlan, Edited, Differs, FineTree, MutablePaths, MayPropose, Located, CleanNames;
    forall i | 0 <= i < |results| ensures Located(reader, root, PlanOf(results)[i].selector) {
      assert GoodResult(env, |env.channels|, results[i]);
    }
    var applied;
    applied, changed, places := ApplyMembership(reader, root, PlanOf(results));
    next := applied.value;
    if FineTree(root) && root.shell.kind == MappingNode && MutablePaths(root, WriterTypes.AutoPull) {
      ProposalMeetsCheck(reader, root, next, PlanOf(results), places);
    }
  }
}
