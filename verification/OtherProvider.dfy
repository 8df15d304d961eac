/** The check compares the models of every OpenAI channel by name, also of those the planner leaves alone. A
    channel that lists a name twice stops every proposal, whatever it proposes. */
module OtherProvider {
  import opened Options
  import opened YamlGraph
  import opened YamlTree
  import opened YamlClone
  import opened YamlChannels
  import opened OwnershipCheck
  import opened MembershipPlanner
  import opened Ownership
  import opened RootAlias
  import MC = MembershipProposal
  import WriterTypes

  /** A channel of an allowed proposal, whichever it is, has models with a name each of their own. */
  lemma AllowedIsNamed(root: Tree, i: nat, k: nat, e: nat, p: Tree)
    requires i + 1 < |root.content| && i % 2 == 0 && root.content[i].shell.value == OPENAI && k < |root.content[i + 1].content|
    requires e + 1 < |root.content[i + 1].content[k].content| && e % 2 == 0
    requires root.content[i + 1].content[k].content[e].shell.value == "models"
    ensures MembershipRoot(root, p) ==> Named(root.content[i + 1].content[k].content[e + 1].content)
  {
    hide Named;
    if MembershipRoot(root, p) {
      assert MembershipRootEntry(root, p, i);
      var channel, next := root.content[i + 1].content[k], p.content[i + 1].content[k];
      assert MembershipProvider(channel, next);
      assert MembershipEntry(channel, next, e);
    }
  }

  // ---------- a document with two channels ----------

  /** A channel no selector names. */
  function Other(models: seq<Tree>): Tree {
    Tree(MAPPING, None, [Scalar("models"), Tree(SEQUENCE, None, models)])
  }

  function TwoChannels(models: seq<Tree>, others: seq<Tree>): Tree {
    Tree(SEQUENCE, None, [Channel(models), Other(others)])
  }

  /** The plugins with one channel for the planner and another one. */
  function Two(models: seq<Tree>, others: seq<Tree>): Tree {
    Tree(MAPPING, None, [Scalar("plugins"), PLUGINS, Scalar(OPENAI), TwoChannels(models, others)])
  }

  ghost predicate CleanModels(models: seq<Tree>) {
    forall i :: 0 <= i < |models| ==> FineTree(models[i]) && Unambiguous(models[i])
  }

  lemma ModelClean()
    ensures FineTree(MODEL) && Unambiguous(MODEL)
  {
    assert FineEntries(MODEL.content);
    assert forall i :: 0 <= i < |MODEL.content| ==> FineTree(MODEL.content[i]) && Unambiguous(MODEL.content[i]);
  }

  lemma OtherClean(others: seq<Tree>)
    requires CleanModels(others)
    ensures FineTree(Other(others)) && Unambiguous(Other(others))
  {
    var other, list := Other(others), Tree(SEQUENCE, None, others);
    assert FineTree(list) && Unambiguous(list);
    assert FineEntries(other.content);
    assert FineTree(other.content[0]) && Unambiguous(other.content[0]);
  }

  lemma ListClean(one: Tree, two: Tree)
    requires FineTree(one) && Unambiguous(one) && FineTree(two) && Unambiguous(two)
    ensures FineTree(Tree(SEQUENCE, None, [one, two])) && Unambiguous(Tree(SEQUENCE, None, [one, two]))
  {
  }

  lemma RootKeysOf(models: seq<Tree>, others: seq<Tree>)
    ensures FineEntries(Two(models, others).content)
    ensures KeyIndex(Two(models, others).content, "plugins") == 0 && KeyIndex(Two(models, others).content, OPENAI) == 2
  {
    hide PLUGINS, TwoChannels;
    var root := Two(models, others);
    KeyIndexUnique(root.content, "plugins", 0);
    KeyIndexUnique(root.content, OPENAI, 2);
  }

  /** The check can read the document, whatever clean models the other channel lists. */
  lemma TwoReadable(others: seq<Tree>)
    requires CleanModels(others)
    ensures FineTree(Two([], others)) && MutablePaths(Two([], others), WriterTypes.AutoPull)
  {
    ChannelFine();
    OtherClean(others);
    ListClean(Channel([]), Other(others));
    PluginsFine();
    RootKeysOf([], others);
    var root := Two([], others);
    forall i | 0 <= i < |PLUGIN_NAMES| ensures PluginReadable(CONFIGS, PLUGIN_NAMES[i]) {
      RootAlias.PluginsReadable(i);
    }
    hide Channel, Other, KeyIndex, PluginReadable, FineEntries, Unambiguous, PLUGINS, CONFIGS;
    assert forall i :: 0 <= i < |root.content| ==> FineTree(root.content[i]);
    assert PluginConfigs(root) == Some(CONFIGS);
  }

  // ---------- the edit ----------

  lemma OtherIsLeftAlone(reader: Reader, others: seq<Tree>)
    ensures !Selects(reader, Other(others), SELECTOR) && FlagReadable(reader, Other(others))
  {
    var other := Other(others);
    assert KeyIndex(other.content, "name") == 2 && KeyIndex(other.content, "disabled") == 2 by {
      assert other.content[2..] == [];
    }
  }

  lemma FirstLocated(reader: Reader, root: Tree, channel: Tree, other: Tree, selector: Selector)
    requires HasChannels(root, OPENAI) && Channels(root, OPENAI) == [channel, other]
    requires Selects(reader, channel, selector) && FlagReadable(reader, channel) && Usable(reader, channel)
    requires !Selects(reader, other, selector) && FlagReadable(reader, other)
    ensures Locates(reader, root, selector, 0)
  {
    hide Selects, FlagReadable, Usable, HasChannels, Channels;
  }

  lemma FirstEdited(reader: Reader, root: Tree, next: Tree, channel: Tree, other: Tree, plan: Planned)
    requires HasChannels(root, OPENAI) && Channels(root, OPENAI) == [channel, other] && Locates(reader, root, plan.selector, 0)
    requires HasModels(channel) && HasChannels(next, OPENAI) && Channels(next, OPENAI) == [EditedChannel(channel, plan.desired), other]
    requires next == SetChannels(root, OPENAI, [EditedChannel(channel, plan.desired), other])
    ensures Edited(reader, root, next, [plan], [0])
  {
    hide Locates, HasChannels, Channels, SetChannels, HasModels, EditedChannel;
  }

  lemma TwoSet(others: seq<Tree>)
    ensures HasChannels(Two([], others), OPENAI) && HasChannels(Two([MODEL], others), OPENAI)
    ensures Channels(Two([], others), OPENAI) == [Channel([]), Other(others)]
    ensures Channels(Two([MODEL], others), OPENAI) == [Channel([MODEL]), Other(others)]
    ensures SetChannels(Two([], others), OPENAI, [Channel([MODEL]), Other(others)]) == Two([MODEL], others)
  {
    RootKeysOf([], others);
    RootKeysOf([MODEL], others);
    hide Channel, Other, KeyIndex, FineEntries, PLUGINS;
    assert SetChannels(Two([], others), OPENAI, [Channel([MODEL]), Other(others)]).content == Two([MODEL], others).content;
  }

  /** The planner adds the one model its catalog lists to its own channel. */
  lemma TwoEdited(reader: Reader, others: seq<Tree>)
    requires reader.normalUrl("u") == Some("u") && reader.headers(None)
    ensures Edited(reader, Two([], others), Two([MODEL], others), PLAN, [0])
  {
    TwoSet(others);
    ChannelSelected(reader);
    ChannelEdited();
    OtherIsLeftAlone(reader, others);
    hide Selects, FlagReadable, Usable, HasChannels, Channels, SetChannels, HasModels, Channel, Other, EditedChannel, Two, Locates, Edited;
    FirstLocated(reader, Two([], others), Channel([]), Other(others), SELECTOR);
    FirstEdited(reader, Two([], others), Two([MODEL], others), Channel([]), Other(others), Planned(SELECTOR, ["gpt"]));
  }

  // ---------- the check ----------

  lemma OtherAccepted(others: seq<Tree>)
    requires Named(others)
    ensures MembershipProvider(Other(others), Other(others))
  {
    var other, list := Other(others), Tree(SEQUENCE, None, others);
    hide Named, NameOf;
    assert forall j :: 0 <= j < |others| ==> AllowedModel(others, others[j]);
    assert MembershipModels(list, list);
    hide MembershipModels;
    forall k | 0 <= k < |other.content| - 1 && k % 2 == 0 ensures MembershipEntry(other, other, k) {
    }
  }

  lemma TwoAccepted(others: seq<Tree>)
    requires Named(others)
    ensures MembershipRoot(Two([], others), Two([], others))
  {
    ChannelAccepted();
    OtherAccepted(others);
    var root := Two([], others);
    hide Channel, Other, MembershipProvider, PLUGINS;
    assert MembershipProviders(TwoChannels([], others), TwoChannels([], others));
    hide MembershipProviders, TwoChannels;
    forall k | 0 <= k < |root.content| - 1 && k % 2 == 0 ensures MembershipRootEntry(root, root, k) {
    }
  }

  lemma OneIsNamed()
    ensures Named([MODEL]) && !Named([MODEL, MODEL])
  {
    assert NameOf(MODEL) == Some("gpt") by {
      ModelClean();
      PlainTrim("gpt");
      KeyIndexUnique(MODEL.content, "name", 0);
      hide TrimSpace;
    }
    hide NameOf;
    var twice := [MODEL, MODEL];
    assert NameOf(twice[0]) == NameOf(twice[1]);
  }

  /** The planner edits its channel, and the check, which can read both documents, takes the edit while the other
      channel lists the model once. Twice, it takes neither the edit nor anything else. */
  lemma NameListedTwiceStops(reader: Reader, p: Tree)
    requires reader.normalUrl("u") == Some("u") && reader.headers(None)
    ensures MayPropose(WriterTypes.AutoPull, Two([], [MODEL]), Two([MODEL], [MODEL]))
    ensures var b, e := Two([], [MODEL, MODEL]), Two([MODEL], [MODEL, MODEL]);
      && FineTree(b) && MutablePaths(b, WriterTypes.AutoPull) && FineTree(e) && MutablePaths(e, WriterTypes.AutoPull)
      && Edited(reader, b, e, PLAN, [0]) && MC.CleanResults(PLAN)
      && !MayPropose(WriterTypes.AutoPull, b, p)
  {
    var once, twice := [MODEL], [MODEL, MODEL];
    ModelClean();
    OneIsNamed();
    PlanClean();
    AllowedIsNamed(Two([], twice), 2, 1, 0, p);
    hide Named, FineTree, MutablePaths, MembershipRoot, Edited, Unambiguous, MC.CleanResults, MODEL, PLAN;
    TwoReadable(once);
    TwoReadable(twice);
    TwoEdited(reader, once);
    TwoEdited(reader, twice);
    TwoAccepted(once);
    hide Two;
    MC.ProposalMeetsCheck(reader, Two([], once), Two([MODEL], once), PLAN, [0]);
    MC.ProposalMeetsCheck(reader, Two([], twice), Two([MODEL], twice), PLAN, [0]);
  }
}
