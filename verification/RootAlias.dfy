/** A document that refers to itself: its root is anchored and aliased under a key no planner owns. The planner
    adds one model, an edit the check would take on trees, and the check refuses it. */
module RootAlias {
  import opened Options
  import opened YamlGraph
  import opened YamlTree
  import opened YamlClone
  import opened YamlChannels
  import opened OwnershipCheck
  import opened OwnershipFrozen
  import opened GraphProposal
  import opened MembershipPlanner
  import opened Ownership
  import MC = MembershipProposal
  import WriterTypes

  // ---------- the nodes ----------

  const MAPPING := Shell(MappingNode, "!!map", "", 0, "", "", "", "")
  const SEQUENCE := Shell(SequenceNode, "!!seq", "", 0, "", "", "", "")
  const ANCHORED := MAPPING.(anchor := "r")
  const ALIAS := Shell(AliasNode, "", "r", 0, "", "", "", "")

  function Word(text: string): Node {
    Node(Shell(ScalarNode, "!!str", text, 0, "", "", "", ""), None, [])
  }

  /** The configuration at 0, its proposal at 30; what the planner does not own they share. */
  function Nodes(): Graph {
    map[
      0 := Node(ANCHORED, None, [Some(1), Some(2), Some(3), Some(4), Some(12), Some(13)]),
      1 := Word("self"), 2 := Node(ALIAS, Some(0), []),
      3 := Word("plugins"), 4 := Node(MAPPING, None, [Some(5), Some(6)]),
      5 := Word("configs"), 6 := Node(MAPPING, None, [Some(7), Some(8), Some(9), Some(8), Some(10), Some(8), Some(11), Some(8)]),
      7 := Word("sync-config-write"), 8 := Node(MAPPING, None, []),
      9 := Word("auto-pull-models"), 10 := Word("model-metadata-sync"), 11 := Word("model-info"),
      12 := Word(OPENAI), 13 := Node(SEQUENCE, None, [Some(14)]),
      14 := Node(MAPPING, None, [Some(15), Some(16), Some(17), Some(18), Some(19), Some(20)]),
      15 := Word("name"), 16 := Word("a"), 17 := Word("base-url"), 18 := Word("u"),
      19 := Word("models"), 20 := Node(SEQUENCE, None, []),
      30 := Node(ANCHORED, None, [Some(1), Some(31), Some(3), Some(4), Some(12), Some(32)]),
      31 := Node(ALIAS, Some(30), []), 32 := Node(SEQUENCE, None, [Some(33)]),
      33 := Node(MAPPING, None, [Some(15), Some(16), Some(17), Some(18), Some(19), Some(34)]),
      34 := Node(SEQUENCE, None, [Some(35)]), 35 := Node(MAPPING, None, [Some(15), Some(36)]), 36 := Word("gpt")
    ]
  }

  function Copy(): map<NodeId, NodeId> {
    map[0 := 30, 1 := 1, 2 := 31, 3 := 3, 4 := 4, 5 := 5, 6 := 6, 7 := 7, 8 := 8, 9 := 9, 10 := 10, 11 := 11, 12 := 12]
  }

  predicate At(g: Graph, id: NodeId, node: Node) {
    id in g && g[id] == node
  }

  predicate PluginNodes(g: Graph) {
    && At(g, 4, Node(MAPPING, None, [Some(5), Some(6)])) && At(g, 5, Word("configs"))
    && At(g, 6, Node(MAPPING, None, [Some(7), Some(8), Some(9), Some(8), Some(10), Some(8), Some(11), Some(8)]))
    && At(g, 7, Word("sync-config-write")) && At(g, 8, Node(MAPPING, None, []))
    && At(g, 9, Word("auto-pull-models")) && At(g, 10, Word("model-metadata-sync")) && At(g, 11, Word("model-info"))
  }

  predicate ChannelWords(g: Graph) {
    && At(g, 15, Word("name")) && At(g, 16, Word("a")) && At(g, 17, Word("base-url")) && At(g, 18, Word("u"))
    && At(g, 19, Word("models"))
  }

  predicate RootNodes(g: Graph) {
    && At(g, 0, Node(ANCHORED, None, [Some(1), Some(2), Some(3), Some(4), Some(12), Some(13)]))
    && At(g, 30, Node(ANCHORED, None, [Some(1), Some(31), Some(3), Some(4), Some(12), Some(32)]))
    && At(g, 2, Node(ALIAS, Some(0), [])) && At(g, 31, Node(ALIAS, Some(30), []))
    && At(g, 1, Word("self")) && At(g, 3, Word("plugins")) && At(g, 12, Word(OPENAI))
  }

  predicate ListNodes(g: Graph) {
    && At(g, 13, Node(SEQUENCE, None, [Some(14)])) && At(g, 20, Node(SEQUENCE, None, []))
    && At(g, 14, Node(MAPPING, None, [Some(15), Some(16), Some(17), Some(18), Some(19), Some(20)]))
    && At(g, 32, Node(SEQUENCE, None, [Some(33)])) && At(g, 34, Node(SEQUENCE, None, [Some(35)]))
    && At(g, 33, Node(MAPPING, None, [Some(15), Some(16), Some(17), Some(18), Some(19), Some(34)]))
    && At(g, 35, Node(MAPPING, None, [Some(15), Some(36)])) && At(g, 36, Word("gpt"))
  }

  lemma PluginsLaid(g: Graph)
    requires g == Nodes()
    ensures PluginNodes(g)
  {
  }

  lemma ChannelsLaid(g: Graph)
    requires g == Nodes()
    ensures ChannelWords(g) && ListNodes(g)
  {
  }

  lemma RootsLaid(g: Graph)
    requires g == Nodes()
    ensures RootNodes(g)
  {
  }

  // ---------- the trees ----------

  const EMPTY := Tree(MAPPING, None, [])
  const PLUGINS := Tree(MAPPING, None, [Scalar("configs"), CONFIGS])
  const CONFIGS := Tree(MAPPING, None, [
    Scalar("sync-config-write"), EMPTY, Scalar("auto-pull-models"), EMPTY,
    Scalar("model-metadata-sync"), EMPTY, Scalar("model-info"), EMPTY])

  function Channel(models: seq<Tree>): Tree {
    Tree(MAPPING, None, [Scalar("name"), Scalar("a"), Scalar("base-url"), Scalar("u"),
      Scalar("models"), Tree(SEQUENCE, None, models)])
  }

  function Providers(models: seq<Tree>): Tree {
    Tree(SEQUENCE, None, [Channel(models)])
  }

  function Root(target: set<NodeId>, models: seq<Tree>): Tree {
    Tree(ANCHORED, None, [Scalar("self"), Tree(ALIAS, Some(target), []), Scalar("plugins"), PLUGINS, Scalar(OPENAI), Providers(models)])
  }

  const MODEL := Tree(MAPPING, None, [Scalar("name"), Scalar("gpt")])

  lemma WordStands(g: Graph, id: NodeId, text: string)
    requires id in g && g[id] == Word(text)
    ensures Represents(g, id, Scalar(text))
  {
  }

  lemma PluginsStand(g: Graph)
    requires PluginNodes(g)
    ensures Represents(g, 4, PLUGINS)
  {
    WordStands(g, 5, "configs");
    WordStands(g, 7, "sync-config-write");
    WordStands(g, 9, "auto-pull-models");
    WordStands(g, 10, "model-metadata-sync");
    WordStands(g, 11, "model-info");
    hide Represents;
    NodeStands(g, 8, EMPTY);
    NodeStands(g, 6, CONFIGS);
    NodeStands(g, 4, PLUGINS);
  }

  lemma ChannelStands(g: Graph, id: NodeId, list: NodeId, models: seq<Tree>)
    requires ChannelWords(g) && At(g, id, Node(MAPPING, None, [Some(15), Some(16), Some(17), Some(18), Some(19), Some(list)]))
    requires Represents(g, list, Tree(SEQUENCE, None, models))
    ensures Represents(g, id, Channel(models))
  {
    WordStands(g, 15, "name");
    WordStands(g, 16, "a");
    WordStands(g, 17, "base-url");
    WordStands(g, 18, "u");
    WordStands(g, 19, "models");
    hide Represents;
    NodeStands(g, id, Channel(models));
  }

  lemma NodeStands(g: Graph, id: NodeId, tree: Tree)
    requires id in g && g[id].shell == tree.shell && g[id].alias.None? && tree.alias.None? && |g[id].content| == |tree.content|
    requires forall i :: 0 <= i < |tree.content| ==> g[id].content[i].Some? && Represents(g, g[id].content[i].value, tree.content[i])
    ensures Represents(g, id, tree)
  {
  }

  lemma AliasStands(g: Graph, id: NodeId, target: NodeId)
    requires id in g && target in g && g[id] == Node(ALIAS, Some(target), [])
    ensures Represents(g, id, Tree(ALIAS, Some(ClassOf(g, target)), []))
  {
  }

  lemma RootStands(g: Graph, id: NodeId, alias: NodeId, list: NodeId, models: seq<Tree>)
    requires PluginNodes(g) && RootNodes(g) && At(g, alias, Node(ALIAS, Some(id), [])) && Represents(g, list, Providers(models))
    requires At(g, id, Node(ANCHORED, None, [Some(1), Some(alias), Some(3), Some(4), Some(12), Some(list)]))
    ensures Represents(g, id, Root(ClassOf(g, id), models))
  {
    WordStands(g, 1, "self");
    WordStands(g, 3, "plugins");
    WordStands(g, 12, OPENAI);
    PluginsStand(g);
    AliasStands(g, alias, id);
    hide Represents, ClassOf, PluginNodes, Providers;
    NodeStands(g, id, Root(ClassOf(g, id), models));
  }

  lemma BaseStands(g: Graph)
    requires PluginNodes(g) && ChannelWords(g) && RootNodes(g) && ListNodes(g)
    ensures Represents(g, 0, Root(ClassOf(g, 0), []))
  {
    hide Represents, PluginNodes, ChannelWords, Channel;
    NodeStands(g, 20, Tree(SEQUENCE, None, []));
    ChannelStands(g, 14, 20, []);
    NodeStands(g, 13, Providers([]));
    RootStands(g, 0, 2, 13, []);
  }

  lemma ProposalStands(g: Graph)
    requires PluginNodes(g) && ChannelWords(g) && RootNodes(g) && ListNodes(g)
    ensures Represents(g, 30, Root(ClassOf(g, 30), [MODEL]))
  {
    WordStands(g, 15, "name");
    WordStands(g, 36, "gpt");
    hide Represents, PluginNodes, Channel;
    NodeStands(g, 35, MODEL);
    NodeStands(g, 34, Tree(SEQUENCE, None, [MODEL]));
    ChannelStands(g, 33, 34, [MODEL]);
    NodeStands(g, 32, Providers([MODEL]));
    RootStands(g, 30, 31, 32, [MODEL]);
  }

  // ---------- what the check makes of the trees ----------

  lemma ChannelFine()
    ensures FineTree(Channel([])) && Unambiguous(Channel([]))
    ensures KeyIndex(Channel([]).content, "name") == 0 && KeyIndex(Channel([]).content, "base-url") == 2
    ensures KeyIndex(Channel([]).content, "models") == 4
  {
    var channel := Channel([]);
    assert FineEntries(channel.content);
    KeyIndexUnique(channel.content, "name", 0);
    KeyIndexUnique(channel.content, "base-url", 2);
    KeyIndexUnique(channel.content, "models", 4);
    assert FineTree(Tree(SEQUENCE, None, [])) && Unambiguous(Tree(SEQUENCE, None, []));
    assert forall i :: 0 <= i < |channel.content| ==> FineTree(channel.content[i]) && Unambiguous(channel.content[i]);
  }

  lemma ConfigsFine()
    ensures FineEntries(CONFIGS.content) && FineTree(CONFIGS)
  {
    assert FineTree(EMPTY);
    assert forall i :: 0 <= i < |CONFIGS.content| ==> FineTree(CONFIGS.content[i]);
  }

  lemma PluginsReadable(i: nat)
    requires i < |PLUGIN_NAMES|
    ensures PluginReadable(CONFIGS, PLUGIN_NAMES[i])
  {
    ConfigsFine();
    assert Unambiguous(EMPTY);
    hide FineTree;
    KeyIndexUnique(CONFIGS.content, PLUGIN_NAMES[i], 2 * i);
    hide FineEntries;
  }

  lemma PluginsFine()
    ensures FineTree(PLUGINS) && ValueOf(PLUGINS, "configs") == Some(CONFIGS)
  {
    ConfigsFine();
    hide CONFIGS;
    assert FineEntries(PLUGINS.content);
    KeyIndexUnique(PLUGINS.content, "configs", 0);
    assert FineTree(PLUGINS.content[0]) && FineTree(PLUGINS.content[1]);
  }

  lemma RootKeys(target: set<NodeId>, models: seq<Tree>)
    ensures FineEntries(Root(target, models).content)
    ensures KeyIndex(Root(target, models).content, "plugins") == 2 && KeyIndex(Root(target, models).content, OPENAI) == 4
  {
    hide Providers, PLUGINS;
    var root := Root(target, models);
    assert FineEntries(root.content);
    KeyIndexUnique(root.content, "plugins", 2);
    KeyIndexUnique(root.content, OPENAI, 4);
  }

  lemma ProvidersFine()
    ensures FineTree(Providers([])) && Unambiguous(Providers([]))
  {
    ChannelFine();
    hide Channel;
  }

  lemma RootFine(target: set<NodeId>)
    ensures FineTree(Root(target, [])) && MutablePaths(Root(target, []), WriterTypes.AutoPull)
  {
    ProvidersFine();
    PluginsFine();
    RootKeys(target, []);
    var root := Root(target, []);
    forall i | 0 <= i < |PLUGIN_NAMES| ensures PluginReadable(CONFIGS, PLUGIN_NAMES[i]) {
      PluginsReadable(i);
    }
    assert FineTree(Tree(ALIAS, Some(target), []));
    hide Providers, KeyIndex, PluginReadable, FineEntries, Unambiguous, PLUGINS, CONFIGS;
    assert forall i :: 0 <= i < |root.content| ==> FineTree(root.content[i]);
    assert PluginConfigs(root) == Some(CONFIGS);
  }

  lemma ChannelAccepted()
    ensures MembershipProvider(Channel([]), Channel([]))
  {
    var channel := Channel([]);
    assert MembershipModels(Tree(SEQUENCE, None, []), Tree(SEQUENCE, None, []));
    hide MembershipModels;
    forall k | 0 <= k < |channel.content| - 1 && k % 2 == 0 ensures MembershipEntry(channel, channel, k) {
    }
  }

  /** The check takes the document as it is. */
  lemma BaseAccepted(target: set<NodeId>)
    ensures MayPropose(WriterTypes.AutoPull, Root(target, []), Root(target, []))
  {
    RootFine(target);
    ChannelAccepted();
    var root := Root(target, []);
    hide Channel, MembershipProvider, MutablePaths, PLUGINS;
    assert MembershipProviders(Providers([]), Providers([]));
    hide MembershipProviders, Providers;
    forall k | 0 <= k < |root.content| - 1 && k % 2 == 0 ensures MembershipRootEntry(root, root, k) {
    }
  }

  // ---------- the edit ----------

  const SELECTOR := Selector("a", "u")
  const PLAN: seq<Planned> := [Planned(SELECTOR, ["gpt"])]

  lemma PlainTrim(text: string)
    requires text != "" && 'a' <= text[0] <= 'z' && 'a' <= text[|text| - 1] <= 'z'
    ensures TrimSpace(text) == text
  {
    assert TrimLeft(text) == text && TrimRight(text) == text;
  }

  lemma PlanClean()
    ensures MC.CleanResults(PLAN)
  {
    PlainTrim("gpt");
    hide TrimSpace;
  }

  lemma ChannelSelected(reader: Reader)
    requires reader.normalUrl("u") == Some("u") && reader.headers(None)
    ensures Selects(reader, Channel([]), SELECTOR) && FlagReadable(reader, Channel([])) && Usable(reader, Channel([]))
  {
    ChannelFine();
    PlainTrim("a");
    var channel := Channel([]);
    assert ValueOf(channel, "disabled").None? && ValueOf(channel, "headers").None?;
    hide TrimSpace, KeyIndex, Unambiguous;
  }

  lemma OnlyChannelLocated(reader: Reader, root: Tree, channel: Tree, selector: Selector)
    requires HasChannels(root, OPENAI) && Channels(root, OPENAI) == [channel]
    requires Selects(reader, channel, selector) && FlagReadable(reader, channel) && Usable(reader, channel)
    ensures Locates(reader, root, selector, 0)
  {
    hide Selects, FlagReadable, Usable, HasChannels, Channels;
  }

  lemma OnlyChannelEdited(reader: Reader, root: Tree, next: Tree, channel: Tree, plan: Planned)
    requires HasChannels(root, OPENAI) && Channels(root, OPENAI) == [channel] && Locates(reader, root, plan.selector, 0)
    requires HasModels(channel) && HasChannels(next, OPENAI) && Channels(next, OPENAI) == [EditedChannel(channel, plan.desired)]
    requires next == SetChannels(root, OPENAI, [EditedChannel(channel, plan.desired)])
    ensures Edited(reader, root, next, [plan], [0])
  {
    hide Locates, HasChannels, Channels, SetChannels, HasModels, EditedChannel;
  }

  lemma RootEdited(target: set<NodeId>)
    ensures HasChannels(Root(target, []), OPENAI) && HasChannels(Root(target, [MODEL]), OPENAI)
    ensures Channels(Root(target, []), OPENAI) == [Channel([])] && Channels(Root(target, [MODEL]), OPENAI) == [Channel([MODEL])]
    ensures SetChannels(Root(target, []), OPENAI, [Channel([MODEL])]) == Root(target, [MODEL])
  {
    RootKeys(target, []);
    RootKeys(target, [MODEL]);
    var b, e := Root(target, []), Root(target, [MODEL]);
    hide Channel, KeyIndex, FineEntries, PLUGINS;
    assert SetChannels(b, OPENAI, [Channel([MODEL])]).content == e.content;
  }

  /** The planner adds the one model its catalog lists. */
  lemma PlannerEdits(reader: Reader, target: set<NodeId>)
    requires reader.normalUrl("u") == Some("u") && reader.headers(None)
    ensures Edited(reader, Root(target, []), Root(target, [MODEL]), PLAN, [0])
  {
    RootEdited(target);
    ChannelSelected(reader);
    ChannelEdited();
    hide Selects, FlagReadable, Usable, HasChannels, Channels, SetChannels, HasModels, Channel, EditedChannel, Root, Locates, Edited;
    OnlyChannelLocated(reader, Root(target, []), Channel([]), SELECTOR);
    OnlyChannelEdited(reader, Root(target, []), Root(target, [MODEL]), Channel([]), Planned(SELECTOR, ["gpt"]));
  }

  lemma ChannelEdited()
    ensures HasModels(Channel([])) && EditedChannel(Channel([]), ["gpt"]) == Channel([MODEL])
  {
    ChannelFine();
    hide KeyIndex;
    assert DesiredModels([], ["gpt"]) == [MODEL];
    assert SetModels(Channel([]), [MODEL]).content == Channel([MODEL]).content;
  }

  // ---------- the refusal ----------

  lemma KeysLaid(g: Graph)
    requires g == Nodes()
    ensures forall id :: id in g ==> id <= 20 || 30 <= id <= 36
  {
  }

  predicate ClosedAt(g: Graph, id: NodeId) {
    id in g && InGraph(g, g[id].alias) && forall i :: 0 <= i < |g[id].content| ==> InGraph(g, g[id].content[i])
  }

  lemma PluginsClosed(g: Graph, id: NodeId)
    requires PluginNodes(g) && 4 <= id <= 11
    ensures ClosedAt(g, id)
  {
  }

  lemma ChannelsClosed(g: Graph, id: NodeId)
    requires ChannelWords(g) && ListNodes(g) && (13 <= id <= 20 || 32 <= id <= 36)
    ensures ClosedAt(g, id)
  {
  }

  lemma RootsClosed(g: Graph, id: NodeId)
    requires RootNodes(g) && PluginNodes(g) && ListNodes(g) && (id <= 3 || id == 12 || id == 30 || id == 31)
    ensures ClosedAt(g, id)
  {
  }

  lemma NodesClosed(g: Graph)
    requires PluginNodes(g) && ChannelWords(g) && RootNodes(g) && ListNodes(g)
    requires forall id :: id in g ==> id <= 20 || 30 <= id <= 36
    ensures Closed(g)
  {
    hide PluginNodes, ChannelWords, RootNodes, ListNodes;
    forall id | id in g ensures ClosedAt(g, id) {
      if 4 <= id <= 11 {
        PluginsClosed(g, id);
      } else if 13 <= id <= 20 || 32 <= id <= 36 {
        ChannelsClosed(g, id);
      } else {
        RootsClosed(g, id);
      }
    }
  }

  predicate Kept(f: map<NodeId, NodeId>) {
    && f.Keys == {0, 1, 2, 3, 4, 5, 6, 7, 8, 9, 10, 11, 12}
    && f[0] == 30 && f[1] == 1 && f[2] == 31 && f[3] == 3 && f[4] == 4 && f[5] == 5 && f[6] == 6 && f[7] == 7 && f[8] == 8
    && f[9] == 9 && f[10] == 10 && f[11] == 11 && f[12] == 12
  }

  lemma LeafCopied(g: Graph, f: map<NodeId, NodeId>, id: NodeId)
    requires id in g && id in f && f[id] == id && g[id].alias.None? && g[id].content == []
    ensures CopiedNode(g, f, id)
  {
  }

  lemma LeavesCopied(g: Graph, f: map<NodeId, NodeId>)
    requires PluginNodes(g) && RootNodes(g) && Kept(f)
    ensures forall id :: id in {1, 3, 5, 7, 8, 9, 10, 11, 12} ==> CopiedNode(g, f, id)
  {
    hide CopiedNode;
    LeafCopied(g, f, 1);
    LeafCopied(g, f, 3);
    LeafCopied(g, f, 5);
    LeafCopied(g, f, 7);
    LeafCopied(g, f, 8);
    LeafCopied(g, f, 9);
    LeafCopied(g, f, 10);
    LeafCopied(g, f, 11);
    LeafCopied(g, f, 12);
  }

  lemma OthersCopied(g: Graph, f: map<NodeId, NodeId>)
    requires PluginNodes(g) && RootNodes(g) && Kept(f)
    ensures CopiedNode(g, f, 2) && CopiedNode(g, f, 4) && CopiedNode(g, f, 6)
  {
  }

  lemma NodesCopied(g: Graph, b: Tree)
    requires PluginNodes(g) && RootNodes(g) && |b.content| == 6 && b.content[4] == Scalar(OPENAI)
    ensures Copied(g, WriterTypes.AutoPull, 0, 30, b, Copy())
  {
    var f := Copy();
    assert Kept(f);
    LeavesCopied(g, f);
    OthersCopied(g, f);
    hide CopiedNode;
    assert forall id :: id in f ==> id == 0 || id in {1, 3, 5, 7, 8, 9, 10, 11, 12} || id == 2 || id == 4 || id == 6;
    assert !FreeChild(WriterTypes.AutoPull, b, 5);
  }

  lemma RefersToItself(g: Graph, b: Tree)
    requires RootNodes(g) && |b.content| == 6 && b.content[0] == Scalar("self")
    ensures SelfRefers(g, WriterTypes.AutoPull, 0, b)
  {
    OneHop(g, 2);
    hide Walk;
    assert LeadsBy(g, WriterTypes.AutoPull, 0, b, 0, 1, [ToAlias]);
  }

  /** The planner edits the document and proposes a faithful copy of everything else. On trees the check would
      take the edit, and it takes the document unchanged. It does not take the proposal. */
  lemma OneModelRefused(g: Graph, reader: Reader)
    requires g == Nodes() && reader.normalUrl("u") == Some("u") && reader.headers(None)
    ensures var b, e, p := Root(ClassOf(g, 0), []), Root(ClassOf(g, 0), [MODEL]), Root(ClassOf(g, 30), [MODEL]);
      && Closed(g) && Represents(g, 0, b) && Represents(g, 30, p)
      && Copied(g, WriterTypes.AutoPull, 0, 30, b, Copy()) && EditedAs(WriterTypes.AutoPull, b, e, p)
      && Edited(reader, b, e, PLAN, [0]) && MC.CleanResults(PLAN)
      && MayPropose(WriterTypes.AutoPull, b, b) && MayPropose(WriterTypes.AutoPull, b, e)
      && !MayPropose(WriterTypes.AutoPull, b, p)
  {
    var zero, thirty := ClassOf(g, 0), ClassOf(g, 30);
    var b, e, p := Root(zero, []), Root(zero, [MODEL]), Root(thirty, [MODEL]);
    hide *;
    PluginsLaid(g);
    ChannelsLaid(g);
    RootsLaid(g);
    KeysLaid(g);
    NodesClosed(g);
    BaseStands(g);
    ProposalStands(g);
    NodesCopied(g, b);
    RefersToItself(g, b);
    BaseAccepted(zero);
    RootFine(zero);
    PlannerEdits(reader, zero);
    PlanClean();
    ItIsAnEdit(zero, thirty);
    MC.ProposalMeetsCheck(reader, b, e, PLAN, [0]);
    AcceptedExactly(g, WriterTypes.AutoPull, 0, 30, b, p, e, Copy());
  }

  lemma ItIsAnEdit(zero: set<NodeId>, thirty: set<NodeId>)
    ensures EditedAs(WriterTypes.AutoPull, Root(zero, []), Root(zero, [MODEL]), Root(thirty, [MODEL]))
    ensures Root(zero, []) != Root(zero, [MODEL])
  {
    assert Channel([]).content[5] != Channel([MODEL]).content[5];
    hide Channel, PLUGINS;
  }
}
