/** The membership planner's edit: the model list of each selected channel becomes the desired list,
    keeping the nodes of models that stay. It is written without knowledge of the ownership check, and
    shown to propose only what that check accepts, with the same verdict on whether anything changed. */
module MembershipPlanner {
  import opened Options
  import opened YamlGraph
  import opened YamlTree
  import opened YamlClone
  import opened Ownership
  import opened YamlChannels

  datatype Planned = Planned(selector: Selector, desired: seq<string>)

  /** The planner's reading of a model's name: trimmed. */
  function PlannedName(model: Tree): Option<string> {
    match Text(model, "name")
    case None => None
    case Some(text) => if TrimSpace(text) != "" then Some(TrimSpace(text)) else None
  }

  ghost predicate PlannerNamed(models: seq<Tree>) {
    && (forall i :: 0 <= i < |models| ==> PlannedName(models[i]).Some?)
    && (forall i, j :: 0 <= i < j < |models| ==> PlannedName(models[i]) != PlannedName(models[j]))
  }

  ghost predicate Usable(reader: Reader, channel: Tree) {
    Unambiguous(channel) && HasModels(channel) && PlannerNamed(Models(channel)) && reader.headers(ValueOf(channel, "headers"))
  }

  /** Channel k is the one the selector names, and it can be edited. */
  ghost predicate Locates(reader: Reader, root: Tree, selector: Selector, k: nat) {
    && HasChannels(root, OPENAI) && OneSelected(reader, Channels(root, OPENAI), selector, k)
    && Usable(reader, Channels(root, OPENAI)[k])
  }

  method LocateSnapshotChannel(reader: Reader, root: Tree, selector: Selector) returns (index: Option<nat>)
    ensures index.None? ==> forall k :: !Locates(reader, root, selector, k)
    ensures index.Some? ==> Locates(reader, root, selector, index.value)
  {
    hide Selects, FlagReadable, Usable, PlannerNamed;
    if !HasChannels(root, OPENAI) {
      return None;
    }
    index := TheOneSelected(reader, Channels(root, OPENAI), selector);
    if index.None? {
      return;
    }
    var usable := ChannelUsable(reader, Channels(root, OPENAI)[index.value]);
    return if usable then index else None;
  }

  method ChannelUsable(reader: Reader, channel: Tree) returns (usable: bool)
    ensures usable <==> Usable(reader, channel)
  {
    var direct := HasNoIndirection(channel);
    if !direct || !HasModels(channel) {
      return false;
    }
    var names := NamesOf(Models(channel));
    return names.Some? && reader.headers(ValueOf(channel, "headers"));
  }

  /** The models by planned name. */
  method NamesOf(models: seq<Tree>) returns (byName: Option<map<string, Tree>>)
    ensures byName.Some? <==> PlannerNamed(models)
    ensures byName.Some? ==> forall name ::
      (name in byName.value <==> Find(models, name).Some?) && (name in byName.value ==> Find(models, name) == Some(byName.value[name]))
  {
    hide PlannedName;
    var result: map<string, Tree> := map[];
    var i := 0;
    while i < |models|
      invariant i <= |models| && PlannerNamed(models[..i])
      invariant forall name :: (name in result <==> Find(models[..i], name).Some?)
      invariant forall name :: name in result ==> Find(models[..i], name) == Some(result[name])
    {
      forall name {
        FindStep(models, i, name);
      }
      var name := PlannedName(models[i]);
      if name.None? {
        return None;
      }
      if name.value in result {
        FindSpec(models[..i], name.value);
        return None;
      }
      forall k | 0 <= k < i ensures PlannedName(models[..i][k]) != name {
        FindSpec(models[..i], name.value);
      }
      result := result[name.value := models[i]];
      i := i + 1;
    }
    assert models[..i] == models;
    return Some(result);
  }

  /** The first model of that name. */
  function Find(models: seq<Tree>, name: string): Option<Tree> {
    if models == [] then None
    else if PlannedName(models[0]) == Some(name) then Some(models[0])
    else Find(models[1..], name)
  }

  lemma {:induction false} FindSpec(models: seq<Tree>, name: string)
    ensures Find(models, name).None? <==> forall k :: 0 <= k < |models| ==> PlannedName(models[k]) != Some(name)
    ensures Find(models, name).Some? ==> Find(models, name).value in models && PlannedName(Find(models, name).value) == Some(name)
  {
    hide PlannedName;
    if models != [] {
      FindSpec(models[1..], name);
      forall k | 0 < k < |models| ensures models[k] == models[1..][k - 1] {
      }
    }
  }

  lemma FindStep(models: seq<Tree>, i: nat, name: string)
    requires i < |models|
    ensures Find(models[..i + 1], name) ==
      if Find(models[..i], name).Some? then Find(models[..i], name)
      else if PlannedName(models[i]) == Some(name) then Some(models[i]) else None
  {
    assert models[..i + 1] == models[..i] + [models[i]];
    FindAppend(models[..i], models[i], name);
  }

  lemma {:induction false} FindAppend(models: seq<Tree>, model: Tree, name: string)
    ensures Find(models + [model], name) ==
      if Find(models, name).Some? then Find(models, name) else if PlannedName(model) == Some(name) then Some(model) else None
  {
    hide PlannedName;
    if models != [] {
      assert (models + [model])[1..] == models[1..] + [model];
      FindAppend(models[1..], model, name);
    } else {
      assert models + [model] == [model];
    }
  }

  // ---------- the edit ----------

  function MinimalModelNode(name: string): Tree {
    Tree(Shell(MappingNode, "!!map", NO_TEXT, 0, NO_TEXT, NO_TEXT, NO_TEXT, NO_TEXT), None, [Scalar("name"), Scalar(name)])
  }

  function ModelFor(models: seq<Tree>, name: string): Tree {
    if Find(models, name).Some? then Find(models, name).value else MinimalModelNode(name)
  }

  function DesiredModels(models: seq<Tree>, desired: seq<string>): (r: seq<Tree>)
    ensures |r| == |desired| && forall i :: 0 <= i < |desired| ==> r[i] == ModelFor(models, desired[i])
  {
    seq(|desired|, i requires 0 <= i < |desired| => ModelFor(models, desired[i]))
  }

  predicate SameOrder(models: seq<Tree>, desired: seq<string>) {
    |models| == |desired| && forall i :: 0 <= i < |models| ==> PlannedName(models[i]) == Some(desired[i])
  }

  method SameModelOrder(models: seq<Tree>, desired: seq<string>) returns (same: bool)
    ensures same <==> SameOrder(models, desired)
  {
    if |models| != |desired| {
      return false;
    }
    var i := 0;
    while i < |models|
      invariant i <= |models| && forall k :: 0 <= k < i ==> PlannedName(models[k]) == Some(desired[k])
    {
      if PlannedName(models[i]) != Some(desired[i]) {
        return false;
      }
      i := i + 1;
    }
    return true;
  }

  method NextModels(models: seq<Tree>, existing: map<string, Tree>, desired: seq<string>) returns (next: seq<Tree>)
    requires forall name :: (name in existing <==> Find(models, name).Some?) && (name in existing ==> Find(models, name) == Some(existing[name]))
    ensures next == DesiredModels(models, desired)
  {
    next := [];
    var i := 0;
    while i < |desired|
      invariant i == |next| <= |desired| && forall k :: 0 <= k < i ==> next[k] == ModelFor(models, desired[k])
    {
      next := next + [if desired[i] in existing then existing[desired[i]] else MinimalModelNode(desired[i])];
      i := i + 1;
    }
  }

  // ---------- applying a plan ----------

  ghost predicate DistinctSelectors(results: seq<Planned>) {
    forall i, j :: 0 <= i < j < |results| ==> results[i].selector != results[j].selector
  }

  function EditedChannel(channel: Tree, desired: seq<string>): Tree
    requires HasModels(channel)
  {
    if SameOrder(Models(channel), desired) then channel else SetModels(channel, DesiredModels(Models(channel), desired))
  }

  /** `now` is `root` with the channels of the results edited; result i belongs to channel places[i]. */
  ghost predicate Edited(reader: Reader, root: Tree, now: Tree, results: seq<Planned>, places: seq<nat>) {
    |places| <= |results| && if places == [] then now == root else EditedAt(reader, root, now, results, places)
  }

  ghost predicate EditedAt(reader: Reader, root: Tree, now: Tree, results: seq<Planned>, places: seq<nat>) {
    && |places| <= |results| && HasChannels(root, OPENAI) && HasChannels(now, OPENAI)
    && now == SetChannels(root, OPENAI, Channels(now, OPENAI))
    && (forall i :: 0 <= i < |places| ==> Locates(reader, root, results[i].selector, places[i]))
    && ChannelsEdited(Channels(root, OPENAI), Channels(now, OPENAI), results, places)
  }

  ghost predicate ChannelsEdited(before: seq<Tree>, after: seq<Tree>, results: seq<Planned>, places: seq<nat>) {
    && |places| <= |results| && |after| == |before|
    && (forall i, j :: 0 <= i < j < |places| ==> places[i] != places[j])
    && (forall i :: 0 <= i < |places| ==> places[i] < |before| && HasModels(before[places[i]]))
    && (forall i :: 0 <= i < |places| ==> after[places[i]] == EditedChannel(before[places[i]], results[i].desired))
    && (forall k :: 0 <= k < |before| && k !in places ==> after[k] == before[k])
  }

  /** Channel k does not list the desired models already. */
  predicate Moves(channels: seq<Tree>, k: nat, desired: seq<string>) {
    k < |channels| && HasModels(channels[k]) && !SameOrder(Models(channels[k]), desired)
  }

  ghost predicate Differs(root: Tree, results: seq<Planned>, places: seq<nat>) {
    HasChannels(root, OPENAI) && exists i :: 0 <= i < |places| <= |results| && Moves(Channels(root, OPENAI), places[i], results[i].desired)
  }

  ghost predicate Located(reader: Reader, root: Tree, selector: Selector) {
    exists k :: Locates(reader, root, selector, k)
  }

  lemma NothingEdited(reader: Reader, root: Tree, results: seq<Planned>)
    requires HasChannels(root, OPENAI)
    ensures EditedAt(reader, root, root, results, [])
  {
    var i := KeyIndex(root.content, OPENAI) + 1;
    assert root.content[i := root.content[i]] == root.content;
    hide KeyIndex;
    assert SetChannels(root, OPENAI, Channels(root, OPENAI)) == root;
  }

  /** Edits elsewhere do not matter to a search for a channel not yet edited. */
  lemma LocatesInOriginal(reader: Reader, root: Tree, now: Tree, results: seq<Planned>, places: seq<nat>, selector: Selector, k: nat)
    requires EditedAt(reader, root, now, results, places)
    requires forall i :: 0 <= i < |places| ==> results[i].selector != selector
    ensures Locates(reader, now, selector, k) <==> Locates(reader, root, selector, k)
    ensures Locates(reader, root, selector, k) ==> k !in places && Channels(now, OPENAI)[k] == Channels(root, OPENAI)[k]
  {
    hide Usable, Selects, FlagReadable, SetValue, SetChannels, SetModels, HasChannels, HasModels, SameOrder;
    forall j | 0 <= j < |Channels(root, OPENAI)|
      ensures Selects(reader, Channels(now, OPENAI)[j], selector) == Selects(reader, Channels(root, OPENAI)[j], selector)
      ensures FlagReadable(reader, Channels(now, OPENAI)[j]) == FlagReadable(reader, Channels(root, OPENAI)[j])
      ensures Selects(reader, Channels(root, OPENAI)[j], selector) ==> j !in places
    {
      if j in places {
        var i :| 0 <= i < |places| && places[i] == j;
        EditedChannelReads(reader, root, results[i], j, selector);
      }
    }
  }

  lemma EditedChannelReads(reader: Reader, root: Tree, result: Planned, k: nat, selector: Selector)
    requires Locates(reader, root, result.selector, k)
    ensures var before, after := Channels(root, OPENAI)[k], EditedChannel(Channels(root, OPENAI)[k], result.desired);
      && Selects(reader, after, selector) == Selects(reader, before, selector)
      && FlagReadable(reader, after) == FlagReadable(reader, before)
      && (Selects(reader, before, selector) ==> selector == result.selector)
  {
    var channel := Channels(root, OPENAI)[k];
    SetModelsReads(channel, DesiredModels(Models(channel), result.desired), reader, selector);
    hide SetModels, Text, Disabled, Usable;
  }

  lemma EditNextChannel(before: seq<Tree>, after: seq<Tree>, results: seq<Planned>, places: seq<nat>, k: nat, channel: Tree)
    requires ChannelsEdited(before, after, results, places) && |places| < |results|
    requires k < |before| && k !in places && HasModels(before[k])
    requires channel == EditedChannel(before[k], results[|places|].desired)
    ensures ChannelsEdited(before, after[k := channel], results, places + [k])
  {
    hide EditedChannel, HasModels;
  }

  lemma EditNext(reader: Reader, root: Tree, now: Tree, results: seq<Planned>, places: seq<nat>, k: nat, channel: Tree)
    requires EditedAt(reader, root, now, results, places) && |places| < |results|
    requires Locates(reader, root, results[|places|].selector, k) && k !in places
    requires channel == EditedChannel(Channels(root, OPENAI)[k], results[|places|].desired)
    ensures EditedAt(reader, root, SetChannel(now, OPENAI, k, channel), results, places + [k])
  {
    SetChannelReads(now, OPENAI, k, channel);
    EditNextChannel(Channels(root, OPENAI), Channels(now, OPENAI), results, places, k, channel);
    hide Locates, EditedChannel, ChannelsEdited, KeyIndex;
    SetChannelsTwice(root, now, OPENAI, Channels(SetChannel(now, OPENAI, k, channel), OPENAI));
  }

  lemma LocatedNowOrNever(reader: Reader, root: Tree, now: Tree, results: seq<Planned>, places: seq<nat>)
    requires Edited(reader, root, now, results, places) && |places| < |results| && DistinctSelectors(results)
    ensures HasChannels(root, OPENAI) ==> EditedAt(reader, root, now, results, places)
    ensures forall k: nat :: Locates(reader, now, results[|places|].selector, k) <==> Locates(reader, root, results[|places|].selector, k)
    ensures forall k: nat :: Locates(reader, root, results[|places|].selector, k) ==>
      HasChannels(root, OPENAI) && k !in places && Channels(now, OPENAI)[k] == Channels(root, OPENAI)[k]
  {
    if HasChannels(root, OPENAI) {
      NothingEdited(reader, root, results);
      forall k: nat {
        LocatesInOriginal(reader, root, now, results, places, results[|places|].selector, k);
      }
    }
  }

  /** One result: find its channel in the document as it is now, and edit it. */
  method ApplyOne(reader: Reader, now: Tree, result: Planned, ghost root: Tree, ghost results: seq<Planned>, ghost places: seq<nat>)
    returns (next: Option<Tree>, changed: bool, ghost place: nat)
    requires Edited(reader, root, now, results, places) && |places| < |results| && DistinctSelectors(results)
    requires result == results[|places|]
    ensures next.Some? <==> Located(reader, root, result.selector)
    ensures next.Some? ==> EditedAt(reader, root, next.value, results, places + [place])
    ensures next.Some? ==> HasChannels(root, OPENAI) && (changed <==> Moves(Channels(root, OPENAI), place, result.desired))
  {
    LocatedNowOrNever(reader, root, now, results, places);
    hide SetChannel, SetModels, EditedAt, Edited, PlannerNamed, SameOrder;
    next, changed, place := None, false, 0;
    var index := LocateSnapshotChannel(reader, now, result.selector);
    if index.None? {
      return;
    }
    place := index.value;
    var channel := Channels(now, OPENAI)[index.value];
    var existing := NamesOf(Models(channel));
    if existing.None? {
      return;
    }
    EditNext(reader, root, now, results, places, place, EditedChannel(channel, result.desired));
    var same := SameModelOrder(Models(channel), result.desired);
    if same {
      SetSameChannel(now, OPENAI, place);
      return Some(now), false, place;
    }
    var models := NextModels(Models(channel), existing.value, result.desired);
    return Some(SetChannel(now, OPENAI, index.value, SetModels(channel, models))), true, place;
  }

  /** The loop over the results. It succeeds when every selector finds its channel in the original
      document, and then every channel is edited as if it were the only one. */
  method ApplyMembership(reader: Reader, root: Tree, results: seq<Planned>) returns (next: Option<Tree>, changed: bool, ghost places: seq<nat>)
    requires DistinctSelectors(results)
    ensures next.Some? <==> forall i :: 0 <= i < |results| ==> Located(reader, root, results[i].selector)
    ensures next.Some? ==> |places| == |results| && Edited(reader, root, next.value, results, places)
    ensures next.Some? ==> (changed <==> Differs(root, results, places))
  {
    hide SetChannel, SetModels, EditedAt, SameOrder, Locates;
    places, changed := [], false;
    var now := root;
    var i := 0;
    while i < |results|
      invariant i == |places| <= |results| && Edited(reader, root, now, results, places)
      invariant changed <==> Differs(root, results, places)
      invariant forall j :: 0 <= j < i ==> Located(reader, root, results[j].selector)
    {
      var applied, edited, place := ApplyOne(reader, now, results[i], root, results, places);
      if applied.None? {
        return None, false, places;
      }
      DiffersNext(root, results, places, place);
      now, changed, places := applied.value, changed || edited, places + [place];
      i := i + 1;
    }
    next := Some(now);
  }

  lemma DiffersNext(root: Tree, results: seq<Planned>, places: seq<nat>, place: nat)
    requires HasChannels(root, OPENAI) && |places| < |results|
    ensures Differs(root, results, places + [place]) <==>
      Differs(root, results, places) || Moves(Channels(root, OPENAI), place, results[|places|].desired)
  {
    hide Moves;
    var longer := places + [place];
    assert forall i :: 0 <= i < |places| ==> longer[i] == places[i];
    assert longer[|places|] == place;
  }
}
