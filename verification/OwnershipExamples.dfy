/** The ownership check on a configuration with one model: of the keys of a model exactly six may be added, changed
    and removed by the metadata planner. */
module OwnershipExamples {
  import opened Options
  import opened YamlGraph
  import opened YamlTree
  import opened YamlClone
  import opened OwnershipCheck
  import opened OwnershipRules
  import opened YamlChannels
  import opened RootAlias
  import WriterTypes

  /** plugins, and under openai-compatibility one channel with one model. */
  function Document(model: Tree): Tree {
    Tree(MAPPING, None, [Scalar("plugins"), PLUGINS, Scalar("openai-compatibility"), OneChannel(model)])
  }

  function OneChannel(model: Tree): Tree {
    Tree(SEQUENCE, None, [ChannelOf(model)])
  }

  function ChannelOf(model: Tree): Tree {
    Tree(MAPPING, None, [Scalar("models"), Tree(SEQUENCE, None, [model])])
  }

  function Named(name: string): Tree {
    Tree(MAPPING, None, [Scalar("name"), Scalar(name)])
  }

  function With(name: string, key: string, value: Tree): Tree {
    Tree(MAPPING, None, [Scalar("name"), Scalar(name), Scalar(key), value])
  }

  // ---------- the document around the model ----------

  lemma WordIsFine(text: string)
    ensures FineTree(Scalar(text)) && NoIndirection(Scalar(text))
  {
  }

  lemma PluginsFine()
    ensures FineTree(PLUGINS) && FineTree(CONFIGS) && FineTree(EMPTY) && NoIndirection(EMPTY)
  {
    WordIsFine("sync-config-write");
    WordIsFine("auto-pull-models");
    WordIsFine("model-metadata-sync");
    WordIsFine("model-info");
    WordIsFine("configs");
    assert FineTree(EMPTY);
    hide Scalar;
    assert FineTree(CONFIGS);
  }

  lemma DocumentFine(model: Tree)
    requires FineTree(model)
    ensures FineTree(Document(model))
  {
    PluginsFine();
    WordIsFine("plugins");
    WordIsFine("openai-compatibility");
    WordIsFine("models");
    hide PLUGINS;
    assert FineTree(Tree(SEQUENCE, None, [model]));
    assert FineTree(ChannelOf(model));
    assert FineTree(OneChannel(model));
  }

  lemma PluginsThere(model: Tree)
    ensures HasPlugins(Document(model))
  {
    PluginsFine();
    SectionThere(0, "sync-config-write");
    SectionThere(2, "auto-pull-models");
    SectionThere(4, "model-metadata-sync");
    SectionThere(6, "model-info");
    assert CONFIGS.shell.kind == MappingNode;
    assert HoldsAt(PLUGINS.content, 0, "configs", CONFIGS);
    assert HoldsAt(Document(model).content, 0, "plugins", PLUGINS);
    hide HasSection, OneChannel;
    assert Holds(Document(model), "plugins", PLUGINS) && Holds(PLUGINS, "configs", CONFIGS) && HasSections(CONFIGS);
  }

  lemma SectionThere(i: nat, name: string)
    requires HoldsAt(CONFIGS.content, i, name, EMPTY)
    ensures HasSection(CONFIGS, name)
  {
    PluginsFine();
    assert CONFIGS.shell.kind == MappingNode && EMPTY.shell.kind == MappingNode;
    hide NoIndirection, HoldsAt;
    assert Holds(CONFIGS, name, EMPTY);
  }

  lemma ListDirect(list: Tree, model: Tree)
    requires list == Tree(SEQUENCE, None, [model])
    ensures NoIndirection(list) <==> NoIndirection(model)
  {
    assert list.content[0] == model;
  }

  lemma ChannelDirect(model: Tree)
    ensures NoIndirection(ChannelOf(model)) <==> NoIndirection(model)
  {
    var list := Tree(SEQUENCE, None, [model]);
    ListDirect(list, model);
    WordIsFine("models");
    hide NoIndirection;
    TwoDirect(ChannelOf(model), "models", list);
  }

  lemma TwoDirect(mapping: Tree, key: string, value: Tree)
    requires mapping == Tree(MAPPING, None, [Scalar(key), value]) && key != "<<" && NoIndirection(Scalar(key))
    ensures NoIndirection(mapping) <==> NoIndirection(value)
  {
    assert mapping.content[1] == value;
  }

  lemma DocumentDirect(model: Tree)
    ensures Direct(Document(model), {"openai-compatibility", "claude-api-key"}) <==> NoIndirection(model)
  {
    ChannelDirect(model);
    ListDirect(OneChannel(model), ChannelOf(model));
    hide NoIndirection, OneChannel, PLUGINS;
    assert Document(model).content[3] == OneChannel(model) && Document(model).content[2].shell.value == "openai-compatibility";
    assert Document(model).content[0].shell.value == "plugins";
  }

  // ---------- the model ----------

  lemma RulesAre(b: Tree, p: Tree)
    ensures MetadataRules(Document(b), Document(p)) <==> ModelAllowed(b, p)
  {
    hide ModelAllowed, PLUGINS;
    var bl, pl := Tree(SEQUENCE, None, [b]), Tree(SEQUENCE, None, [p]);
    assert bl.content[0] == b && pl.content[0] == p;
    assert OwnershipRules.ModelsAllowed(bl, pl) <==> ModelAllowed(b, p);
    ProviderRules(b, p);
    hide ProviderAllowed;
    assert OneChannel(b).content[0] == ChannelOf(b) && OneChannel(p).content[0] == ChannelOf(p);
    assert ProvidersAllowed(OneChannel(b), OneChannel(p)) <==> ProviderAllowed(ChannelOf(b), ChannelOf(p));
    hide ProvidersAllowed;
    RootRules(b, p);
  }

  lemma ProviderRules(b: Tree, p: Tree)
    ensures ProviderAllowed(ChannelOf(b), ChannelOf(p)) <==> OwnershipRules.ModelsAllowed(Tree(SEQUENCE, None, [b]), Tree(SEQUENCE, None, [p]))
  {
    hide OwnershipRules.ModelsAllowed;
    assert ProviderNode(ChannelOf(b), ChannelOf(p), 0);
    assert ProviderNode(ChannelOf(b), ChannelOf(p), 1) <==>
      OwnershipRules.ModelsAllowed(Tree(SEQUENCE, None, [b]), Tree(SEQUENCE, None, [p]));
  }

  lemma RootRules(b: Tree, p: Tree)
    ensures MetadataRules(Document(b), Document(p)) <==> ProvidersAllowed(OneChannel(b), OneChannel(p))
  {
    hide ProvidersAllowed, OneChannel, PLUGINS;
    assert MetadataNode(Document(b), Document(p), 0) && MetadataNode(Document(b), Document(p), 1) && MetadataNode(Document(b), Document(p), 2);
    assert MetadataNode(Document(b), Document(p), 3) <==> ProvidersAllowed(OneChannel(b), OneChannel(p));
  }

  /** The check of the configuration is that of its model. */
  lemma OneModelExactly(b: Tree, p: Tree)
    requires FineTree(b) && FineTree(p)
    ensures MayPropose(WriterTypes.MetadataSync, Document(b), Document(p)) <==> NoIndirection(b) && NoIndirection(p) && ModelAllowed(b, p)
  {
    DocumentFine(b);
    DocumentFine(p);
    PluginsThere(b);
    PluginsThere(p);
    DocumentDirect(b);
    DocumentDirect(p);
    RulesAre(b, p);
    MetadataExactly(Document(b), Document(p));
    hide HasPlugins, Direct, MetadataRules, MayPropose, ModelAllowed, FineTree, NoIndirection, PLUGINS, OneChannel;
  }

  // ---------- which keys ----------

  lemma NamedFine(name: string)
    ensures FineTree(Named(name)) && NoIndirection(Named(name))
  {
    WordIsFine("name");
    WordIsFine(name);
    hide Scalar;
    assert Scalar("name").shell.value == "name" && Scalar("name").shell.kind == ScalarNode && Scalar("name").shell.tag == "!!str" by {
      WordIs("name");
    }
  }

  lemma WordIs(text: string)
    ensures Scalar(text).shell.kind == ScalarNode && Scalar(text).shell.value == text && Scalar(text).shell.tag == "!!str"
    ensures NoDecoration(Scalar(text))
  {
  }

  lemma WithFine(name: string, key: string, value: Tree)
    requires key != "" && key != "name" && key != "<<" && FineTree(value) && NoIndirection(value)
    ensures FineTree(With(name, key, value)) && NoIndirection(With(name, key, value))
  {
    WordIsFine("name");
    WordIsFine(name);
    WordIsFine(key);
    WordIs("name");
    WordIs(key);
    hide Scalar;
  }

  lemma BothNamed(name: string, b: Tree, p: Tree)
    requires TrimSpace(name) != "" && b.shell.kind == MappingNode && p.shell.kind == MappingNode
    requires HoldsAt(b.content, 0, "name", Scalar(name)) && HoldsAt(p.content, 0, "name", Scalar(name))
    ensures NamedText(b, name) && NamedText(p, name)
  {
    hide TrimSpace;
    assert Holds(b, "name", Scalar(name)) && Holds(p, "name", Scalar(name));
  }

  predicate OfTheSix(key: string) {
    || key == "thinking" || key == "max-context-length" || key == "max-input-tokens" || key == "max-output-tokens"
    || key == "input-modalities" || key == "output-modalities"
  }

  lemma OthersOfNamed(name: string)
    ensures Others(Named(name).content) == [Scalar("name"), Scalar(name)]
  {
    assert Named(name).content[2..] == [];
  }

  lemma OthersOfWith(name: string, key: string, value: Tree)
    ensures Others(With(name, key, value).content) ==
      [Scalar("name"), Scalar(name)] + if OfTheSix(key) then [] else [Scalar(key), value]
  {
    var content := With(name, key, value).content;
    assert content[2..] == [Scalar(key), value] && content[2..][2..] == [];
    assert SixKey(Scalar(key)) <==> OfTheSix(key);
    assert !SixKey(Scalar("name"));
    hide SixKey, Scalar;
    assert Others(content[2..]) == (if OfTheSix(key) then [] else [Scalar(key), value]) + [];
  }

  lemma SixOfWith(name: string, key: string, value: Tree)
    requires OfTheSix(key)
    ensures forall i, text :: SixAt(With(name, key, value).content, i, text) <==> i == 2 && text == key
  {
  }

  lemma SixOfNamed(name: string)
    ensures forall i, text :: !SixAt(Named(name).content, i, text)
  {
  }

  /** Under each of the six keys a value may be changed, added and removed, whatever it is. */
  lemma TheSixMayChange(name: string, key: string, value: Tree, other: Tree)
    requires TrimSpace(name) != "" && OfTheSix(key)
    requires FineTree(value) && NoIndirection(value) && FineTree(other) && NoIndirection(other)
    ensures MayPropose(WriterTypes.MetadataSync, Document(With(name, key, value)), Document(With(name, key, other)))
    ensures MayPropose(WriterTypes.MetadataSync, Document(Named(name)), Document(With(name, key, value)))
    ensures MayPropose(WriterTypes.MetadataSync, Document(With(name, key, value)), Document(Named(name)))
  {
    var bare, one, two := Named(name), With(name, key, value), With(name, key, other);
    NamedFine(name);
    WithFine(name, key, value);
    WithFine(name, key, other);
    OneModelExactly(one, two);
    OneModelExactly(bare, one);
    OneModelExactly(one, bare);
    hide FineTree, NoIndirection, MayPropose, TrimSpace, Document;
    SixAllowed(name, key, value, other);
  }

  lemma SixAllowed(name: string, key: string, value: Tree, other: Tree)
    requires TrimSpace(name) != "" && OfTheSix(key)
    ensures ModelAllowed(With(name, key, value), With(name, key, other))
    ensures ModelAllowed(Named(name), With(name, key, value)) && ModelAllowed(With(name, key, value), Named(name))
  {
    var bare, one, two := Named(name), With(name, key, value), With(name, key, other);
    BothNamed(name, bare, one);
    BothNamed(name, one, two);
    OthersOfNamed(name);
    OthersOfWith(name, key, value);
    OthersOfWith(name, key, other);
    KeysStayWith(name, key, value, other);
    hide Scalar, NamedText, KeysStay, TrimSpace, Others;
  }

  lemma KeysStayWith(name: string, key: string, value: Tree, other: Tree)
    requires OfTheSix(key)
    ensures KeysStay(With(name, key, value).content, With(name, key, other).content)
    ensures KeysStay(Named(name).content, With(name, key, value).content) && KeysStay(With(name, key, value).content, Named(name).content)
  {
    SixOfNamed(name);
    SixOfWith(name, key, value);
    SixOfWith(name, key, other);
    WordIs(key);
    assert With(name, key, value).content[2] == With(name, key, other).content[2] == Scalar(key);
    hide Scalar, SixAt, NoDecoration, With, Named;
  }

  /** Under any other key nothing may be changed, added or removed, such as an alias. */
  lemma NoOtherMayChange(name: string, key: string, value: Tree, other: Tree)
    requires key != "" && key != "name" && key != "<<" && !OfTheSix(key) && value != other
    requires FineTree(value) && NoIndirection(value) && FineTree(other) && NoIndirection(other)
    ensures !MayPropose(WriterTypes.MetadataSync, Document(With(name, key, value)), Document(With(name, key, other)))
    ensures !MayPropose(WriterTypes.MetadataSync, Document(Named(name)), Document(With(name, key, value)))
    ensures !MayPropose(WriterTypes.MetadataSync, Document(With(name, key, value)), Document(Named(name)))
  {
    var bare, one, two := Named(name), With(name, key, value), With(name, key, other);
    NamedFine(name);
    WithFine(name, key, value);
    WithFine(name, key, other);
    OneModelExactly(one, two);
    OneModelExactly(bare, one);
    OneModelExactly(one, bare);
    OthersOfNamed(name);
    OthersOfWith(name, key, value);
    OthersOfWith(name, key, other);
    hide FineTree, NoIndirection, MayPropose, Document, Others, KeysStay, NamedText, Scalar;
    var front := [Scalar("name"), Scalar(name)];
    assert (front + [Scalar(key), value])[3] == value && (front + [Scalar(key), other])[3] == other;
    assert |front + []| == 2 && |front + [Scalar(key), value]| == 4;
  }

  lemma AliasMayNotChange()
    ensures !MayPropose(WriterTypes.MetadataSync, Document(With("a", "alias", Scalar("x"))), Document(With("a", "alias", Scalar("y"))))
  {
    WordIsFine("x");
    WordIsFine("y");
    hide MayPropose, Document, With, FineTree, NoIndirection;
    NoOtherMayChange("a", "alias", Scalar("x"), Scalar("y"));
  }
}
