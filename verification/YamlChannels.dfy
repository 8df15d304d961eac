/** Channels and model lists inside a configuration: how both planners read them and what replacing one
    changes. */
module YamlChannels {
  import opened Options
  import opened YamlGraph
  import opened YamlTree
  import opened YamlClone

  datatype Selector = Selector(name: string, baseUrl: string)

  /** Library readings of scalars: URL normalisation, YAML booleans, and whether a channel's headers can be used. */
  datatype Reader = Reader(
    normalUrl: string -> Option<string>, truth: string -> Option<bool>, headers: Option<Tree> -> bool)

  function Text(mapping: Tree, key: string): Option<string> {
    match ValueOf(mapping, key)
    case None => None
    case Some(value) =>
      if value.shell.kind == ScalarNode && value.shell.tag == "!!str" then Some(value.shell.value) else None
  }

  datatype Flag = Absent | Flag(value: bool) | Unreadable

  function Disabled(reader: Reader, channel: Tree): Flag {
    match ValueOf(channel, "disabled")
    case None => Absent
    case Some(value) =>
      if value.shell.kind != ScalarNode || value.shell.tag != "!!bool" then Unreadable
      else
        match reader.truth(value.shell.value)
        case None => Unreadable
        case Some(b) => Flag(b)
  }

  /** The channel is enabled and has the selector's name and, after normalisation, its URL. */
  predicate Selects(reader: Reader, channel: Tree, selector: Selector) {
    && channel.shell.kind == MappingNode
    && Text(channel, "name").Some? && TrimSpace(Text(channel, "name").value) == selector.name
    && Text(channel, "base-url").Some? && reader.normalUrl(Text(channel, "base-url").value) == Some(selector.baseUrl)
    && Disabled(reader, channel) != Flag(true)
  }

  predicate FlagReadable(reader: Reader, channel: Tree) {
    channel.shell.kind == MappingNode ==> !Disabled(reader, channel).Unreadable?
  }

  predicate HasChannels(root: Tree, key: string) {
    ValueOf(root, key).Some? && ValueOf(root, key).value.shell.kind == SequenceNode
  }

  function Channels(root: Tree, key: string): seq<Tree>
    requires HasChannels(root, key)
  {
    ValueOf(root, key).value.content
  }

  /** Channel k is the one and only channel of the selector, and every channel says readably whether it is disabled. */
  predicate OneSelected(reader: Reader, channels: seq<Tree>, selector: Selector, k: nat) {
    && k < |channels|
    && (forall j :: 0 <= j < |channels| ==> FlagReadable(reader, channels[j]))
    && (forall j :: 0 <= j < |channels| ==> (Selects(reader, channels[j], selector) <==> j == k))
  }

  /** The loop over the channels. */
  method TheOneSelected(reader: Reader, channels: seq<Tree>, selector: Selector) returns (index: Option<nat>)
    ensures index.Some? ==> OneSelected(reader, channels, selector, index.value)
    ensures index.None? ==> forall k: nat :: !OneSelected(reader, channels, selector, k)
  {
    hide Selects, FlagReadable;
    index := None;
    var count := 0;
    var i := 0;
    while i < |channels|
      invariant i <= |channels|
      invariant forall j :: 0 <= j < i ==> FlagReadable(reader, channels[j])
      invariant count == 0 <==> index.None?
      invariant index.Some? ==> index.value < i && Selects(reader, channels[index.value], selector)
      invariant count == 0 ==> forall j :: 0 <= j < i ==> !Selects(reader, channels[j], selector)
      invariant count == 1 ==> forall j :: 0 <= j < i && Selects(reader, channels[j], selector) ==> j == index.value
      invariant count > 1 ==> exists j, k :: 0 <= j < k < i && Selects(reader, channels[j], selector) && Selects(reader, channels[k], selector)
    {
      if !FlagReadable(reader, channels[i]) {
        return None;
      }
      if Selects(reader, channels[i], selector) {
        index, count := Some(i), count + 1;
      }
      i := i + 1;
    }
    if count > 1 {
      ghost var a, b :| 0 <= a < b < i && Selects(reader, channels[a], selector) && Selects(reader, channels[b], selector);
      TwoSelected(reader, channels, selector, a, b);
      index := None;
    } else if count == 0 {
      NoneSelected(reader, channels, selector);
    }
  }

  lemma TwoSelected(reader: Reader, channels: seq<Tree>, selector: Selector, a: nat, b: nat)
    requires a < b < |channels| && Selects(reader, channels[a], selector) && Selects(reader, channels[b], selector)
    ensures forall k: nat :: !OneSelected(reader, channels, selector, k)
  {
    hide Selects, FlagReadable;
  }

  lemma NoneSelected(reader: Reader, channels: seq<Tree>, selector: Selector)
    requires forall j :: 0 <= j < |channels| ==> !Selects(reader, channels[j], selector)
    ensures forall k: nat :: !OneSelected(reader, channels, selector, k)
  {
    hide Selects, FlagReadable;
    forall k: nat ensures !OneSelected(reader, channels, selector, k) {
      assert k < |channels| ==> !Selects(reader, channels[k], selector);
    }
  }

  predicate HasModels(channel: Tree) {
    ValueOf(channel, "models").Some? && ValueOf(channel, "models").value.shell.kind == SequenceNode
  }

  function Models(channel: Tree): seq<Tree>
    requires HasModels(channel)
  {
    ValueOf(channel, "models").value.content
  }

  method HasNoIndirection(tree: Tree) returns (direct: bool)
    ensures direct <==> Unambiguous(tree)
    decreases tree
  {
    if tree.shell.kind == AliasNode || tree.alias.Some? || tree.shell.anchor != "" {
      return false;
    }
    if tree.shell.kind == MappingNode {
      var i := 0;
      while i < |tree.content|
        invariant i % 2 == 0
        invariant forall k :: 0 <= k < i && k < |tree.content| && k % 2 == 0 ==> !MergeKey(tree.content[k].shell)
      {
        if MergeKey(tree.content[i].shell) {
          return false;
        }
        i := i + 2;
      }
    }
    var i := 0;
    while i < |tree.content|
      invariant i <= |tree.content|
      invariant forall k :: 0 <= k < i ==> Unambiguous(tree.content[k])
    {
      direct := HasNoIndirection(tree.content[i]);
      if !direct {
        return false;
      }
      i := i + 1;
    }
    return true;
  }

  // ---------- new nodes ----------

  const NO_TEXT := ""

  function Scalar(text: string): Tree {
    Tree(Shell(ScalarNode, "!!str", text, 0, NO_TEXT, NO_TEXT, NO_TEXT, NO_TEXT), None, [])
  }

  // ---------- replacing ----------

  function SetValue(mapping: Tree, key: string, value: Tree): (r: Tree)
    requires ValueOf(mapping, key).Some?
    ensures r.shell == mapping.shell && r.alias == mapping.alias && |r.content| == |mapping.content|
    ensures var i := KeyIndex(mapping.content, key) + 1;
      r.content == mapping.content[i := value]
  {
    mapping.(content := mapping.content[KeyIndex(mapping.content, key) + 1 := value])
  }

  function SetModels(channel: Tree, models: seq<Tree>): Tree
    requires HasModels(channel)
  {
    SetValue(channel, "models", ValueOf(channel, "models").value.(content := models))
  }

  function SetChannel(root: Tree, key: string, k: nat, channel: Tree): Tree
    requires HasChannels(root, key) && k < |Channels(root, key)|
  {
    SetValue(root, key, ValueOf(root, key).value.(content := Channels(root, key)[k := channel]))
  }

  function SetChannels(root: Tree, key: string, channels: seq<Tree>): Tree
    requires HasChannels(root, key)
  {
    SetValue(root, key, ValueOf(root, key).value.(content := channels))
  }

  // ---------- setting a value changes nothing else ----------

  lemma {:induction false} KeyIndexIgnoresValues(content: seq<Tree>, i: nat, value: Tree, key: string)
    requires i < |content| && i % 2 == 1
    ensures KeyIndex(content[i := value], key) == KeyIndex(content, key)
    decreases |content|
  {
    if content[0].shell.value != key && |content| > 2 {
      if i == 1 {
        assert content[i := value][2..] == content[2..];
      } else {
        assert content[i := value][2..] == content[2..][i - 2 := value];
        KeyIndexIgnoresValues(content[2..], i - 2, value, key);
      }
    }
  }

  lemma SetValueReads(mapping: Tree, key: string, value: Tree, other: string)
    requires ValueOf(mapping, key).Some?
    ensures ValueOf(SetValue(mapping, key, value), other) == if other == key then Some(value) else ValueOf(mapping, other)
  {
    KeyIndexIgnoresValues(mapping.content, KeyIndex(mapping.content, key) + 1, value, other);
  }

  lemma SetModelsText(channel: Tree, models: seq<Tree>, key: string)
    requires HasModels(channel) && key != "models"
    ensures Text(SetModels(channel, models), key) == Text(channel, key)
  {
    SetValueReads(channel, "models", ValueOf(channel, "models").value.(content := models), key);
    hide ValueOf, SetValue;
  }

  lemma SetModelsFlag(channel: Tree, models: seq<Tree>, reader: Reader)
    requires HasModels(channel)
    ensures Disabled(reader, SetModels(channel, models)) == Disabled(reader, channel)
  {
    SetValueReads(channel, "models", ValueOf(channel, "models").value.(content := models), "disabled");
    hide ValueOf, SetValue;
  }

  lemma SetModelsModels(channel: Tree, models: seq<Tree>)
    requires HasModels(channel)
    ensures HasModels(SetModels(channel, models)) && Models(SetModels(channel, models)) == models
    ensures SameShell(SetModels(channel, models), channel)
  {
    SetValueReads(channel, "models", ValueOf(channel, "models").value.(content := models), "models");
    hide KeyIndex;
  }

  lemma SetModelsReads(channel: Tree, models: seq<Tree>, reader: Reader, selector: Selector)
    requires HasModels(channel)
    ensures var next := SetModels(channel, models);
      && HasModels(next) && Models(next) == models
      && Selects(reader, next, selector) == Selects(reader, channel, selector)
      && FlagReadable(reader, next) == FlagReadable(reader, channel)
  {
    SetModelsModels(channel, models);
    SetModelsText(channel, models, "name");
    SetModelsText(channel, models, "base-url");
    SetModelsFlag(channel, models, reader);
    hide SetModels, Text, Disabled, TrimSpace, ValueOf, HasModels, Models;
  }

  lemma SetChannelReads(root: Tree, key: string, k: nat, channel: Tree)
    requires HasChannels(root, key) && k < |Channels(root, key)|
    ensures var next := SetChannel(root, key, k, channel);
      HasChannels(next, key) && Channels(next, key) == Channels(root, key)[k := channel]
  {
    SetValueReads(root, key, ValueOf(root, key).value.(content := Channels(root, key)[k := channel]), key);
    hide KeyIndex;
  }

  lemma SetValueTwice(mapping: Tree, key: string, first: Tree, second: Tree)
    requires ValueOf(mapping, key).Some?
    ensures ValueOf(SetValue(mapping, key, first), key).Some?
    ensures SetValue(SetValue(mapping, key, first), key, second) == SetValue(mapping, key, second)
  {
    SetValueReads(mapping, key, first, key);
    KeyIndexIgnoresValues(mapping.content, KeyIndex(mapping.content, key) + 1, first, key);
  }

  lemma SetChannelsTwice(root: Tree, now: Tree, key: string, channels: seq<Tree>)
    requires HasChannels(root, key) && HasChannels(now, key) && now == SetChannels(root, key, Channels(now, key))
    ensures SetChannels(now, key, channels) == SetChannels(root, key, channels)
  {
    var first := ValueOf(root, key).value.(content := Channels(now, key));
    SetValueReads(root, key, first, key);
    SetValueTwice(root, key, first, ValueOf(root, key).value.(content := channels));
  }

  lemma SetSameChannel(now: Tree, key: string, k: nat)
    requires HasChannels(now, key) && k < |Channels(now, key)|
    ensures SetChannel(now, key, k, Channels(now, key)[k]) == now
  {
    var i := KeyIndex(now.content, key) + 1;
    assert Channels(now, key)[k := Channels(now, key)[k]] == Channels(now, key);
    assert now.content[i := now.content[i]] == now.content;
  }

  // ---------- what stays readable ----------

  /** Fine mappings throughout, and no alias, anchor or merge key. */
  ghost predicate Clean(tree: Tree) {
    FineTree(tree) && Unambiguous(tree)
  }

  lemma CleanSetValue(mapping: Tree, key: string, value: Tree)
    requires ValueOf(mapping, key).Some?
    ensures FineTree(mapping) && FineTree(value) ==> FineTree(SetValue(mapping, key, value))
    ensures Clean(mapping) && Clean(value) ==> Clean(SetValue(mapping, key, value))
  {
    hide KeyIndex;
    var i := KeyIndex(mapping.content, key) + 1;
    var next := SetValue(mapping, key, value);
    assert next.content[i] == value && forall k :: 0 <= k < |next.content| && k != i ==> next.content[k] == mapping.content[k];
  }

  lemma CleanValue(mapping: Tree, key: string)
    requires ValueOf(mapping, key).Some?
    ensures FineTree(mapping) ==> FineTree(ValueOf(mapping, key).value)
    ensures Clean(mapping) ==> Clean(ValueOf(mapping, key).value)
  {
    hide KeyIndex;
  }

  lemma CleanContent(sequence: Tree, content: seq<Tree>)
    requires sequence.shell.kind == SequenceNode && Clean(sequence) && forall k :: 0 <= k < |content| ==> Clean(content[k])
    ensures Clean(sequence.(content := content))
  {
  }

  lemma CleanChildren(tree: Tree)
    requires Clean(tree)
    ensures forall k :: 0 <= k < |tree.content| ==> Clean(tree.content[k])
  {
  }
}
