/** The epoch the Writer puts into the four plugin sections before it sends a configuration, so that every
    plugin is configured anew and its hash becomes new. Taking the epoch out again must give back the
    configuration without its epoch. */
module RuntimeConfig {
  import opened Options
  import opened YamlGraph
  import opened YamlTree
  import opened YamlClone
  import opened YamlChannels
  import opened OwnershipCheck
  import opened MetadataEdit

  const EPOCH := "sync_epoch"

  // ---------- one mapping ----------

  function SetString(mapping: Tree, key: string, text: string): Tree {
    if ValueOf(mapping, key).Some? then SetValue(mapping, key, Scalar(text)) else Append(mapping, key, Scalar(text))
  }

  function RemoveKey(mapping: Tree, key: string): Tree {
    var i := KeyIndex(mapping.content, key);
    if i + 1 < |mapping.content| then mapping.(content := mapping.content[..i] + mapping.content[i + 2..]) else mapping
  }

  method SetMappingString(mapping: Tree, key: string, text: string) returns (next: Tree)
    requires mapping.shell.kind == MappingNode && FineEntries(mapping.content)
    ensures next == SetString(mapping, key, text)
  {
    var i := 0;
    while i < |mapping.content|
      invariant i % 2 == 0 && i <= |mapping.content| && KeyIndex(mapping.content, key) >= i
    {
      if mapping.content[i].shell.value == key {
        KeyIndexUnique(mapping.content, key, i);
        return mapping.(content := mapping.content[i + 1 := Scalar(text)]);
      }
      i := i + 2;
    }
    next := mapping.(content := mapping.content + [Scalar(key), Scalar(text)]);
  }

  method RemoveMappingKey(mapping: Tree, key: string) returns (next: Tree)
    requires FineEntries(mapping.content)
    ensures next == RemoveKey(mapping, key)
  {
    var i := 0;
    while i < |mapping.content|
      invariant i % 2 == 0 && i <= |mapping.content| && KeyIndex(mapping.content, key) >= i
    {
      if mapping.content[i].shell.value == key {
        KeyIndexUnique(mapping.content, key, i);
        return mapping.(content := mapping.content[..i] + mapping.content[i + 2..]);
      }
      i := i + 2;
    }
    next := mapping;
  }

  /** What was set can be read, and nothing else reads differently. */
  lemma SetStringReads(mapping: Tree, key: string, text: string, other: string)
    requires mapping.shell.kind == MappingNode && FineEntries(mapping.content)
    ensures ValueOf(SetString(mapping, key, text), other) == if other == key then Some(Scalar(text)) else ValueOf(mapping, other)
  {
    hide KeyIndex;
    if ValueOf(mapping, key).Some? {
      SetValueReads(mapping, key, Scalar(text), other);
    } else {
      AppendReads(mapping, key, Scalar(text), other);
    }
  }

  lemma RemoveSet(mapping: Tree, key: string, text: string)
    requires mapping.shell.kind == MappingNode && FineEntries(mapping.content)
    ensures RemoveKey(SetString(mapping, key, text), key) == RemoveKey(mapping, key)
  {
    var content, i := mapping.content, KeyIndex(mapping.content, key);
    hide KeyIndex;
    if ValueOf(mapping, key).Some? {
      KeyIndexIgnoresValues(content, i + 1, Scalar(text), key);
      var next := content[i + 1 := Scalar(text)];
      assert next[..i] == content[..i] && next[i + 2..] == content[i + 2..];
    } else {
      KeyIndexAppend(content, Scalar(key), Scalar(text), key);
      var next := content + [Scalar(key), Scalar(text)];
      assert next[..|content|] + next[|content| + 2..] == content;
    }
  }

  lemma SetStringClean(mapping: Tree, key: string, text: string)
    requires mapping.shell.kind == MappingNode && Clean(mapping) && key != "" && key != "<<"
    ensures SetString(mapping, key, text).shell.kind == MappingNode && Clean(SetString(mapping, key, text))
  {
    if ValueOf(mapping, key).Some? {
      CleanSetValue(mapping, key, Scalar(text));
    } else {
      AppendedClean(mapping, key, Scalar(text));
    }
  }

  lemma AppendedClean(mapping: Tree, key: string, value: Tree)
    requires mapping.shell.kind == MappingNode && Clean(mapping) && ValueOf(mapping, key).None?
    requires key != "" && key != "<<" && Clean(value)
    ensures Clean(Append(mapping, key, value))
  {
    hide KeyIndex;
    var content := mapping.content;
    var next := Append(mapping, key, value);
    assert Clean(Scalar(key));
    forall k | 0 <= k < |next.content| ensures Clean(next.content[k]) {
      assert k < |content| ==> next.content[k] == content[k];
    }
    assert forall k :: 0 <= k < |content| && k % 2 == 0 ==> content[k].shell.value != key;
  }

  // ---------- one plugin section ----------

  function PluginAt(root: Tree, name: string): Option<Tree> {
    match PluginConfigs(root)
    case None => None
    case Some(configs) => ValueOf(configs, name)
  }

  function WithConfigs(root: Tree, configs: Tree): Tree
    requires PluginConfigs(root).Some?
  {
    SetValue(root, "plugins", SetValue(ValueOf(root, "plugins").value, "configs", configs))
  }

  function WithPlugin(root: Tree, name: string, subtree: Tree): Tree
    requires PluginAt(root, name).Some?
  {
    WithConfigs(root, SetValue(PluginConfigs(root).value, name, subtree))
  }

  lemma WithConfigsReads(root: Tree, configs: Tree)
    requires PluginConfigs(root).Some? && configs.shell.kind == MappingNode
    ensures PluginConfigs(WithConfigs(root, configs)) == Some(configs)
    ensures forall key :: key != "plugins" ==> ValueOf(WithConfigs(root, configs), key) == ValueOf(root, key)
    ensures forall again :: WithConfigs(WithConfigs(root, configs), again) == WithConfigs(root, again)
  {
    var plugins := ValueOf(root, "plugins").value;
    var next := SetValue(plugins, "configs", configs);
    SetValueReads(plugins, "configs", configs, "configs");
    forall key {
      SetValueReads(root, "plugins", next, key);
    }
    forall again ensures WithConfigs(WithConfigs(root, configs), again) == WithConfigs(root, again) {
      SetValueTwice(plugins, "configs", configs, again);
      SetValueTwice(root, "plugins", next, SetValue(plugins, "configs", again));
    }
  }

  lemma WithPluginReads(root: Tree, name: string, subtree: Tree)
    requires PluginAt(root, name).Some?
    ensures PluginAt(WithPlugin(root, name, subtree), name) == Some(subtree)
    ensures forall other :: other != name ==> PluginAt(WithPlugin(root, name, subtree), other) == PluginAt(root, other)
    ensures forall key :: key != "plugins" ==> ValueOf(WithPlugin(root, name, subtree), key) == ValueOf(root, key)
  {
    hide WithConfigs;
    var configs := PluginConfigs(root).value;
    WithConfigsReads(root, SetValue(configs, name, subtree));
    forall other {
      SetValueReads(configs, name, subtree, other);
    }
  }

  lemma WithPluginTwice(root: Tree, name: string, first: Tree, second: Tree)
    requires PluginAt(root, name).Some? && PluginAt(WithPlugin(root, name, first), name).Some?
    ensures WithPlugin(WithPlugin(root, name, first), name, second) == WithPlugin(root, name, second)
  {
    hide WithConfigs;
    var configs := PluginConfigs(root).value;
    WithConfigsReads(root, SetValue(configs, name, first));
    SetValueTwice(configs, name, first, second);
  }

  lemma WithPluginsSwap(root: Tree, name: string, subtree: Tree, other: string, another: Tree)
    requires PluginAt(root, name).Some? && PluginAt(root, other).Some? && name != other
    requires PluginAt(WithPlugin(root, name, subtree), other).Some? && PluginAt(WithPlugin(root, other, another), name).Some?
    ensures WithPlugin(WithPlugin(root, name, subtree), other, another) == WithPlugin(WithPlugin(root, other, another), name, subtree)
  {
    hide WithConfigs;
    var configs := PluginConfigs(root).value;
    WithConfigsReads(root, SetValue(configs, name, subtree));
    WithConfigsReads(root, SetValue(configs, other, another));
    ValuesSwap(configs, name, subtree, other, another);
  }

  lemma ValuesSwap(mapping: Tree, key: string, value: Tree, other: string, another: Tree)
    requires ValueOf(mapping, key).Some? && ValueOf(mapping, other).Some? && key != other
    ensures ValueOf(SetValue(mapping, key, value), other).Some? && ValueOf(SetValue(mapping, other, another), key).Some?
    ensures SetValue(SetValue(mapping, key, value), other, another) == SetValue(SetValue(mapping, other, another), key, value)
  {
    hide KeyIndex;
    var i, j := KeyIndex(mapping.content, key), KeyIndex(mapping.content, other);
    KeyIndexIgnoresValues(mapping.content, i + 1, value, other);
    KeyIndexIgnoresValues(mapping.content, j + 1, another, key);
    assert i != j;
    assert mapping.content[i + 1 := value][j + 1 := another] == mapping.content[j + 1 := another][i + 1 := value];
  }

  // ---------- without the epoch ----------

  /** The configuration without the epoch in the first n plugin sections; None when one is missing. */
  function Stripped(root: Tree, n: nat): Option<Tree>
    requires n <= |PLUGIN_NAMES|
  {
    if n == 0 then Some(root)
    else
      match Stripped(root, n - 1)
      case None => None
      case Some(now) =>
        var name := PLUGIN_NAMES[n - 1];
        if PluginAt(now, name).None? then None else Some(WithPlugin(now, name, RemoveKey(PluginAt(now, name).value, EPOCH)))
  }

  ghost predicate AllPlugins(root: Tree) {
    forall i :: 0 <= i < |PLUGIN_NAMES| ==> PluginAt(root, PLUGIN_NAMES[i]).Some?
  }

  lemma NamesDiffer(i: nat, j: nat)
    requires i < j < |PLUGIN_NAMES|
    ensures PLUGIN_NAMES[i] != PLUGIN_NAMES[j]
  {
  }

  lemma {:induction false} StrippedReads(root: Tree, n: nat)
    requires n <= |PLUGIN_NAMES| && AllPlugins(root)
    ensures Stripped(root, n).Some? && AllPlugins(Stripped(root, n).value)
    ensures forall i :: n <= i < |PLUGIN_NAMES| ==> PluginAt(Stripped(root, n).value, PLUGIN_NAMES[i]) == PluginAt(root, PLUGIN_NAMES[i])
  {
    hide PluginAt, WithPlugin, RemoveKey;
    if n > 0 {
      StrippedReads(root, n - 1);
      var now, name := Stripped(root, n - 1).value, PLUGIN_NAMES[n - 1];
      WithPluginReads(now, name, RemoveKey(PluginAt(now, name).value, EPOCH));
      forall i | 0 <= i < |PLUGIN_NAMES| && i != n - 1 ensures PLUGIN_NAMES[i] != name {
        if i < n - 1 { NamesDiffer(i, n - 1); } else { NamesDiffer(n - 1, i); }
      }
    }
  }

  /** Replacing a plugin section that the first n strips do not touch commutes with them. */
  lemma {:induction false} StrippedElsewhere(root: Tree, j: nat, subtree: Tree, n: nat)
    requires n <= j < |PLUGIN_NAMES| && AllPlugins(root)
    ensures var next := WithPlugin(root, PLUGIN_NAMES[j], subtree);
      && AllPlugins(next) && Stripped(root, n).Some? && PluginAt(Stripped(root, n).value, PLUGIN_NAMES[j]).Some?
      && Stripped(next, n) == Some(WithPlugin(Stripped(root, n).value, PLUGIN_NAMES[j], subtree))
    decreases n
  {
    hide PluginAt, WithPlugin, RemoveKey;
    var name := PLUGIN_NAMES[j];
    WithPluginReads(root, name, subtree);
    StrippedReads(root, n);
    if n > 0 {
      NamesDiffer(n - 1, j);
      StrippedElsewhere(root, j, subtree, n - 1);
      StrippedReads(root, n - 1);
      var now, other := Stripped(root, n - 1).value, PLUGIN_NAMES[n - 1];
      var removed := RemoveKey(PluginAt(now, other).value, EPOCH);
      WithPluginReads(now, name, subtree);
      WithPluginReads(now, other, removed);
      WithPluginsSwap(now, name, subtree, other, removed);
    }
  }

  /** The strips do not see a change of a plugin section that its own strip does not see. */
  lemma {:induction false} StripsBlind(root: Tree, j: nat, subtree: Tree, n: nat)
    requires j < n <= |PLUGIN_NAMES| && AllPlugins(root)
    requires RemoveKey(subtree, EPOCH) == RemoveKey(PluginAt(root, PLUGIN_NAMES[j]).value, EPOCH)
    ensures Stripped(WithPlugin(root, PLUGIN_NAMES[j], subtree), n) == Stripped(root, n)
    decreases n
  {
    hide PluginAt, WithPlugin, RemoveKey;
    if n - 1 > j {
      StripsBlind(root, j, subtree, n - 1);
    } else {
      var name := PLUGIN_NAMES[j];
      StrippedElsewhere(root, j, subtree, j);
      StrippedReads(root, j);
      var now := Stripped(root, j).value;
      WithPluginReads(now, name, subtree);
      WithPluginTwice(now, name, subtree, RemoveKey(subtree, EPOCH));
    }
  }

  // ---------- the injection ----------

  /** The first n sections carry the epoch, the others are as before, and nothing else has changed. */
  ghost predicate InjectedUpTo(root: Tree, now: Tree, epoch: string, n: nat) {
    && AllPlugins(root) && AllPlugins(now) && Stripped(now, |PLUGIN_NAMES|) == Stripped(root, |PLUGIN_NAMES|)
    && (forall i :: 0 <= i < |PLUGIN_NAMES| ==>
         PluginAt(now, PLUGIN_NAMES[i]).value ==
           var before := PluginAt(root, PLUGIN_NAMES[i]).value;
           if i < n then SetString(before, EPOCH, epoch) else before)
    && (forall key :: key != "plugins" ==> ValueOf(now, key) == ValueOf(root, key))
  }

  ghost predicate Injectable(root: Tree) {
    PluginConfigs(root).Some? && forall i :: 0 <= i < |PLUGIN_NAMES| ==> PluginReadable(PluginConfigs(root).value, PLUGIN_NAMES[i])
  }

  /** `valid` says that the epoch is the text of sixteen random bytes. */
  method InjectSyncEpoch(root: Tree, epoch: string, valid: string -> bool) returns (adjusted: Option<Tree>)
    requires FineTree(root)
    ensures adjusted.Some? <==> valid(epoch) && Injectable(root)
    ensures adjusted.Some? ==> InjectedUpTo(root, adjusted.value, epoch, |PLUGIN_NAMES|)
  {
    hide PluginConfigs, PluginAt, PluginReadable, Unambiguous, Stripped, WithPlugin, SetString, InjectedUpTo, AllPlugins, FineTree, FineEntries;
    if !valid(epoch) || PluginConfigs(root).None? {
      return None;
    }
    NothingInjected(root, epoch);
    var now := root;
    var i := 0;
    while i < |PLUGIN_NAMES|
      invariant i <= |PLUGIN_NAMES| && InjectedFrom(root, now, epoch, i)
      invariant forall k :: 0 <= k < i ==> PluginReadable(PluginConfigs(root).value, PLUGIN_NAMES[k])
    {
      var name := PLUGIN_NAMES[i];
      var subtree := PluginAt(now, name);
      SectionReadable(root, name);
      if subtree.None? || subtree.value.shell.kind != MappingNode {
        return None;
      }
      var direct := HasNoIndirection(subtree.value);
      if !direct {
        return None;
      }
      PluginFine(root, name);
      var marked := SetMappingString(subtree.value, EPOCH, epoch);
      InjectNext(root, now, epoch, i);
      now := WithPlugin(now, name, marked);
      i := i + 1;
    }
    forall k | 0 <= k < |PLUGIN_NAMES| ensures PluginAt(root, PLUGIN_NAMES[k]).Some? {
      SectionReadable(root, PLUGIN_NAMES[k]);
    }
    assert AllPlugins(root) by { EveryPlugin(root); }
    return Some(now);
  }

  lemma EveryPlugin(root: Tree)
    requires forall k :: 0 <= k < |PLUGIN_NAMES| ==> PluginAt(root, PLUGIN_NAMES[k]).Some?
    ensures AllPlugins(root)
  {
  }

  lemma PluginFine(root: Tree, name: string)
    requires FineTree(root) && PluginAt(root, name).Some? && PluginAt(root, name).value.shell.kind == MappingNode
    ensures FineEntries(PluginAt(root, name).value.content)
  {
    SectionClean(root, name);
  }

  /** As InjectedUpTo, while it is not yet known whether the later sections exist. */
  ghost predicate InjectedFrom(root: Tree, now: Tree, epoch: string, n: nat) {
    && (AllPlugins(root) ==> InjectedUpTo(root, now, epoch, n))
    && (forall i :: n <= i < |PLUGIN_NAMES| ==> PluginAt(now, PLUGIN_NAMES[i]) == PluginAt(root, PLUGIN_NAMES[i]))
  }

  lemma InjectNext(root: Tree, now: Tree, epoch: string, n: nat)
    requires n < |PLUGIN_NAMES| && InjectedFrom(root, now, epoch, n) && PluginAt(root, PLUGIN_NAMES[n]).Some?
    requires PluginAt(root, PLUGIN_NAMES[n]).value.shell.kind == MappingNode && FineEntries(PluginAt(root, PLUGIN_NAMES[n]).value.content)
    ensures var name := PLUGIN_NAMES[n];
      && PluginAt(now, name) == PluginAt(root, name)
      && InjectedFrom(root, WithPlugin(now, name, SetString(PluginAt(now, name).value, EPOCH, epoch)), epoch, n + 1)
  {
    hide PluginAt, WithPlugin, SetString, RemoveKey, Stripped;
    var name := PLUGIN_NAMES[n];
    var subtree := PluginAt(now, name).value;
    var marked := SetString(subtree, EPOCH, epoch);
    WithPluginReads(now, name, marked);
    forall i | 0 <= i < |PLUGIN_NAMES| && i != n ensures PLUGIN_NAMES[i] != name {
      if i < n { NamesDiffer(i, n); } else { NamesDiffer(n, i); }
    }
    if AllPlugins(root) {
      RemoveSet(subtree, EPOCH, epoch);
      StripsBlind(now, n, marked, |PLUGIN_NAMES|);
    }
  }

  lemma NothingInjected(root: Tree, epoch: string)
    ensures InjectedFrom(root, root, epoch, 0)
  {
    hide PluginAt, Stripped;
  }

  lemma SectionReadable(root: Tree, name: string)
    requires PluginConfigs(root).Some?
    ensures PluginReadable(PluginConfigs(root).value, name) <==>
      PluginAt(root, name).Some? && PluginAt(root, name).value.shell.kind == MappingNode && Unambiguous(PluginAt(root, name).value)
  {
  }

  // ---------- what the injection means ----------

  /** Every plugin reads the epoch, every other setting of it reads as before, and so does every other
      section of the configuration. */
  lemma EpochReads(root: Tree, adjusted: Tree, epoch: string, i: nat)
    requires FineTree(root) && Injectable(root) && InjectedUpTo(root, adjusted, epoch, |PLUGIN_NAMES|) && i < |PLUGIN_NAMES|
    ensures var before, after := PluginAt(root, PLUGIN_NAMES[i]).value, PluginAt(adjusted, PLUGIN_NAMES[i]).value;
      && ValueOf(after, EPOCH) == Some(Scalar(epoch))
      && (forall key :: key != EPOCH ==> ValueOf(after, key) == ValueOf(before, key))
    ensures forall key :: key != "plugins" ==> ValueOf(adjusted, key) == ValueOf(root, key)
  {
    hide Stripped, SetString, ValueOf;
    var name := PLUGIN_NAMES[i];
    SectionReadable(root, name);
    PluginFine(root, name);
    var before := PluginAt(root, name).value;
    forall key {
      SetStringReads(before, EPOCH, epoch, key);
    }
  }

  /** The adjusted sections can be read and adjusted again: the runtime hashes are computed from them. */
  lemma StillInjectable(root: Tree, adjusted: Tree, epoch: string)
    requires FineTree(root) && Injectable(root) && InjectedUpTo(root, adjusted, epoch, |PLUGIN_NAMES|)
    ensures Injectable(adjusted)
  {
    hide PluginAt, Stripped, SetString, Unambiguous, FineTree, PluginReadable;
    forall i | 0 <= i < |PLUGIN_NAMES| ensures PluginConfigs(adjusted).Some? && PluginReadable(PluginConfigs(adjusted).value, PLUGIN_NAMES[i]) {
      var name := PLUGIN_NAMES[i];
      SectionReadable(root, name);
      SectionClean(root, name);
      SetStringClean(PluginAt(root, name).value, EPOCH, epoch);
      ConfigsThere(adjusted, name);
      SectionReadable(adjusted, name);
    }
    assert PluginConfigs(adjusted).Some? by { ConfigsThere(adjusted, PLUGIN_NAMES[0]); }
  }

  lemma ConfigsThere(root: Tree, name: string)
    requires PluginAt(root, name).Some?
    ensures PluginConfigs(root).Some?
  {
  }

  lemma SectionClean(root: Tree, name: string)
    requires FineTree(root) && PluginAt(root, name).Some?
    ensures FineTree(PluginAt(root, name).value)
  {
    CleanValue(root, "plugins");
    CleanValue(ValueOf(root, "plugins").value, "configs");
    CleanValue(PluginConfigs(root).value, name);
    hide ValueOf;
  }

  /** The later epoch wins: injecting a second epoch leaves nothing of the first. */
  lemma EpochReplaced(mapping: Tree, first: string, second: string)
    requires mapping.shell.kind == MappingNode && FineEntries(mapping.content)
    ensures SetString(SetString(mapping, EPOCH, first), EPOCH, second) == SetString(mapping, EPOCH, second)
  {
    SetStringReads(mapping, EPOCH, first, EPOCH);
    hide KeyIndex;
    var content, i := mapping.content, KeyIndex(mapping.content, EPOCH);
    if ValueOf(mapping, EPOCH).Some? {
      SetValueTwice(mapping, EPOCH, Scalar(first), Scalar(second));
    } else {
      KeyIndexAppend(content, Scalar(EPOCH), Scalar(first), EPOCH);
      assert (content + [Scalar(EPOCH), Scalar(first)])[|content| + 1 := Scalar(second)] == content + [Scalar(EPOCH), Scalar(second)];
    }
  }
}
