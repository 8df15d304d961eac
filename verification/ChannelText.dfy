/** Which channel a planner edits, key by key: where the list of channels is, what makes a channel the configured
    one, and what a planner asks of it before it edits it. */
module ChannelText {
  import opened Options
  import opened YamlGraph
  import opened YamlTree
  import opened YamlClone
  import opened YamlChannels
  import opened OwnershipRules
  import opened ModelText
  import MB = MembershipPlanner
  import MD = MetadataPlanner

  // ---------- is it the configured channel ----------

  ghost predicate SaysDisabled(reader: Reader, node: Tree, disabled: bool) {
    exists value :: Holds(node, "disabled", value) && value.shell.kind == ScalarNode && value.shell.tag == "!!bool"
      && reader.truth(value.shell.value) == Some(disabled)
  }

  ghost predicate FlagFine(reader: Reader, node: Tree) {
    node.shell.kind == MappingNode && HasKey(node, "disabled") ==> SaysDisabled(reader, node, true) || SaysDisabled(reader, node, false)
  }

  ghost predicate NamedAs(node: Tree, name: string) {
    exists text :: TextAt(node, "name", text) && TrimSpace(text) == name
  }

  ghost predicate ServedAt(reader: Reader, node: Tree, url: string) {
    exists text :: TextAt(node, "base-url", text) && reader.normalUrl(text) == Some(url)
  }

  /** Name and URL are the selector's, and the channel does not say that it is disabled. */
  ghost predicate IsOpenAi(reader: Reader, node: Tree, selector: Selector) {
    node.shell.kind == MappingNode && NamedAs(node, selector.name) && ServedAt(reader, node, selector.baseUrl) && !SaysDisabled(reader, node, true)
  }

  ghost predicate HasUrl(node: Tree) {
    exists text :: TextAt(node, "base-url", text) && TrimSpace(text) != ""
  }

  predicate Slashes(text: string) {
    forall i :: 0 <= i < |text| ==> text[i] == '/'
  }

  /** The text without the slashes around it. */
  ghost predicate Unslashed(text: string, inner: string) {
    && (exists a, b :: Slashes(a) && Slashes(b) && text == a + inner + b)
    && (inner != "" ==> inner[0] != '/' && inner[|inner| - 1] != '/')
  }

  ghost predicate PrefixedBy(node: Tree, prefix: string) {
    || (exists text :: TextAt(node, "prefix", text) && Unslashed(TrimSpace(text), prefix))
    || ((forall text :: !TextAt(node, "prefix", text)) && prefix == "")
  }

  ghost predicate IsClaude(reader: Reader, node: Tree, url: string, prefix: string) {
    && node.shell.kind == MappingNode
    && (if HasUrl(node) then ServedAt(reader, node, url) else reader.normalUrl("https://api.anthropic.com") == Some(url))
    && PrefixedBy(node, prefix) && (HasKey(node, "disabled") ==> SaysDisabled(reader, node, false))
  }

  // ---------- can it be edited ----------

  /** The channel has a list of models and no alias, anchor or merge key, and its headers can be used. */
  ghost predicate HasList(reader: Reader, node: Tree, models: Tree) {
    && NoIndirection(node) && Holds(node, "models", models) && models.shell.kind == SequenceNode && reader.headers(ValueOf(node, "headers"))
  }

  ghost predicate ExactText(model: Tree, name: string) {
    TextAt(model, "name", name) && name != "" && TrimSpace(name) == name && ByteLength(name) <= 1024 && NoControl(name)
  }

  ghost predicate TrimmedText(model: Tree, name: string) {
    name != "" && NamedAs(model, name)
  }

  ghost predicate HasNameBy(model: Tree, names: (Tree, string) -> bool) {
    exists name :: names(model, name)
  }

  ghost predicate ShareName(one: Tree, two: Tree, names: (Tree, string) -> bool) {
    exists name :: names(one, name) && names(two, name)
  }

  /** Every model has a name of this kind, and no two have the same. */
  ghost predicate ApartBy(models: seq<Tree>, names: (Tree, string) -> bool) {
    && (forall i :: 0 <= i < |models| ==> HasNameBy(models[i], names))
    && (forall i, j :: 0 <= i < j < |models| ==> !ShareName(models[i], models[j], names))
  }

  ghost predicate EditableBy(reader: Reader, node: Tree, names: (Tree, string) -> bool) {
    exists models :: HasList(reader, node, models) && ApartBy(models.content, names)
  }

  // ---------- where it is ----------

  ghost predicate TheOne(reader: Reader, channels: seq<Tree>, selector: Selector, k: nat) {
    && k < |channels| && (forall j :: 0 <= j < |channels| ==> FlagFine(reader, channels[j]))
    && (forall j :: 0 <= j < |channels| ==> (IsOpenAi(reader, channels[j], selector) <==> j == k))
  }

  ghost predicate MembershipPlace(reader: Reader, root: Tree, selector: Selector, k: nat) {
    exists list :: Holds(root, "openai-compatibility", list) && list.shell.kind == SequenceNode
      && TheOne(reader, list.content, selector, k) && EditableBy(reader, list.content[k], TrimmedText)
  }

  ghost predicate MetadataPlace(reader: Reader, root: Tree, spec: MD.ChannelSpec, k: nat) {
    match spec
    case OpenAi(selector) =>
      exists list :: Holds(root, "openai-compatibility", list) && list.shell.kind == SequenceNode
        && TheOne(reader, list.content, selector, k) && EditableBy(reader, list.content[k], ExactText)
    case Claude(index, url, prefix) =>
      exists list :: Holds(root, "claude-api-key", list) && list.shell.kind == SequenceNode
        && k == index < |list.content| && IsClaude(reader, list.content[k], url, prefix) && EditableBy(reader, list.content[k], ExactText)
  }

  // ---------- the planners' reading ----------

  lemma DisabledIs(reader: Reader, node: Tree)
    requires FineTree(node)
    ensures Disabled(reader, node) == Absent <==> !HasKey(node, "disabled")
    ensures forall b :: Disabled(reader, node) == Flag(b) <==> SaysDisabled(reader, node, b)
  {
    HasKeyIs(node, "disabled");
    hide Holds, HasKey, FineTree;
  }

  lemma TextsAre(node: Tree, key: string)
    requires FineTree(node)
    ensures forall text :: TextAt(node, key, text) <==> Text(node, key) == Some(text)
  {
    forall text ensures TextAt(node, key, text) <==> Text(node, key) == Some(text) {
      TextReads(node, key, text);
    }
  }

  lemma OpenAiIs(reader: Reader, node: Tree, selector: Selector)
    requires FineTree(node)
    ensures Selects(reader, node, selector) <==> IsOpenAi(reader, node, selector)
    ensures FlagReadable(reader, node) <==> FlagFine(reader, node)
  {
    DisabledIs(reader, node);
    TextsAre(node, "name");
    TextsAre(node, "base-url");
    hide Text, TextAt, TrimSpace, FineTree, SaysDisabled, HasKey;
    assert Disabled(reader, node).Flag? ==> Disabled(reader, node) == Flag(true) || Disabled(reader, node) == Flag(false);
  }

  lemma {:induction false} LeftSlashes(text: string)
    ensures exists a :: Slashes(a) && text == a + MD.TrimSlashesLeft(text)
    ensures MD.TrimSlashesLeft(text) != "" ==> MD.TrimSlashesLeft(text)[0] != '/'
  {
    if text != [] && text[0] == '/' {
      LeftSlashes(text[1..]);
      var a :| Slashes(a) && text[1..] == a + MD.TrimSlashesLeft(text[1..]);
      assert Slashes(['/'] + a) && text == ['/'] + a + MD.TrimSlashesLeft(text);
    } else {
      assert Slashes("") && text == "" + text;
    }
  }

  lemma {:induction false} RightSlashes(text: string)
    ensures exists b :: Slashes(b) && text == MD.TrimSlashesRight(text) + b
    ensures MD.TrimSlashesRight(text) != "" ==> MD.TrimSlashesRight(text)[|MD.TrimSlashesRight(text)| - 1] != '/'
    ensures MD.TrimSlashesRight(text) != "" ==> MD.TrimSlashesRight(text)[0] == text[0]
  {
    var n := |text| - 1;
    if text != [] && text[n] == '/' {
      RightSlashes(text[..n]);
      var b :| Slashes(b) && text[..n] == MD.TrimSlashesRight(text[..n]) + b;
      assert Slashes(b + ['/']) && text == MD.TrimSlashesRight(text) + (b + ['/']);
    } else {
      assert Slashes("") && text == text + "";
    }
  }

  lemma UnslashedIs(text: string, inner: string)
    ensures MD.TrimSlashes(text) == inner <==> Unslashed(text, inner)
  {
    var left := MD.TrimSlashesLeft(text);
    LeftSlashes(text);
    RightSlashes(left);
    hide MD.TrimSlashesLeft, MD.TrimSlashesRight;
    var a :| Slashes(a) && text == a + left;
    var b :| Slashes(b) && left == MD.TrimSlashes(text) + b;
    assert text == a + MD.TrimSlashes(text) + b;
    assert Unslashed(text, MD.TrimSlashes(text));
    if Unslashed(text, inner) {
      UnslashedOnce(text, inner, MD.TrimSlashes(text));
    }
  }

  /** Only one text is left. */
  lemma UnslashedOnce(text: string, one: string, two: string)
    requires Unslashed(text, one) && Unslashed(text, two)
    ensures one == two
  {
    var a, b :| Slashes(a) && Slashes(b) && text == a + one + b;
    var c, d :| Slashes(c) && Slashes(d) && text == c + two + d;
    hide Unslashed;
    SplitOnce(text, a, one, b, c, two, d);
  }

  lemma SplitOnce(text: string, a: string, one: string, b: string, c: string, two: string, d: string)
    requires Slashes(a) && Slashes(b) && text == a + one + b && Slashes(c) && Slashes(d) && text == c + two + d
    requires one != "" ==> one[0] != '/' && one[|one| - 1] != '/'
    requires two != "" ==> two[0] != '/' && two[|two| - 1] != '/'
    ensures one == two
  {
    if one != "" {
      assert text[|a|] == one[0] && text[|a| + |one| - 1] == one[|one| - 1];
      NotAllSlashes(text, c, two, d, |a|);
      NotAllSlashes(text, c, two, d, |a| + |one| - 1);
    }
    if two != "" {
      assert text[|c|] == two[0] && text[|c| + |two| - 1] == two[|two| - 1];
      NotAllSlashes(text, a, one, b, |c|);
      NotAllSlashes(text, a, one, b, |c| + |two| - 1);
    }
    assert one == text[|a|..|a| + |one|] && two == text[|c|..|c| + |two|];
  }

  lemma NotAllSlashes(text: string, a: string, inner: string, b: string, i: nat)
    requires Slashes(a) && Slashes(b) && text == a + inner + b && i < |text| && text[i] != '/'
    ensures |a| <= i < |a| + |inner|
  {
    if i < |a| || i >= |a| + |inner| {
      OutsideIsSlash(text, a, inner, b, i);
    }
  }

  lemma OutsideIsSlash(text: string, a: string, inner: string, b: string, i: nat)
    requires Slashes(a) && Slashes(b) && text == a + inner + b && i < |text| && (i < |a| || i >= |a| + |inner|)
    ensures text[i] == '/'
  {
    if i < |a| {
      assert text[i] == a[i];
    } else {
      assert text[i] == b[i - |a| - |inner|];
    }
  }

  lemma ClaudeIs(reader: Reader, node: Tree, spec: MD.ChannelSpec)
    requires FineTree(node) && spec.Claude?
    ensures MD.ClaudeSelects(reader, node, spec) <==> IsClaude(reader, node, spec.baseUrl, spec.prefix)
  {
    DisabledIs(reader, node);
    TextsAre(node, "base-url");
    TextsAre(node, "prefix");
    forall text, inner {
      UnslashedIs(text, inner);
    }
    hide Text, TextAt, TrimSpace, FineTree, SaysDisabled, HasKey, Unslashed, MD.TrimSlashes, Disabled;
    assert PrefixedBy(node, spec.prefix) <==> MD.ClaudePrefix(node) == spec.prefix;
  }

  lemma ExactIs(model: Tree)
    requires FineTree(model)
    ensures forall name :: ExactText(model, name) <==> MD.ExactName(model) == Some(name)
  {
    forall name ensures ExactText(model, name) <==> MD.ExactName(model) == Some(name) {
      NameReads(model, name);
    }
  }

  lemma TrimmedIs(model: Tree)
    requires FineTree(model)
    ensures forall name :: TrimmedText(model, name) <==> MB.PlannedName(model) == Some(name)
  {
    TextsAre(model, "name");
    hide Text, TextAt, TrimSpace, FineTree;
  }

  lemma ApartIs(models: seq<Tree>, names: (Tree, string) -> bool, name: Tree -> Option<string>)
    requires forall i :: 0 <= i < |models| ==> forall text :: names(models[i], text) <==> name(models[i]) == Some(text)
    ensures ApartBy(models, names) <==>
      && (forall i :: 0 <= i < |models| ==> name(models[i]).Some?)
      && (forall i, j :: 0 <= i < j < |models| ==> name(models[i]) != name(models[j]) || name(models[i]).None?)
  {
    forall i | 0 <= i < |models| ensures HasNameBy(models[i], names) <==> name(models[i]).Some? {
      NameOrNot(models[i], names, name);
    }
    forall i, j | 0 <= i < j < |models|
      ensures ShareName(models[i], models[j], names) <==> name(models[i]) == name(models[j]) && name(models[i]).Some?
    {
      SharedOrNot(models[i], models[j], names, name);
    }
  }

  lemma NameOrNot(model: Tree, names: (Tree, string) -> bool, name: Tree -> Option<string>)
    requires forall text :: names(model, text) <==> name(model) == Some(text)
    ensures HasNameBy(model, names) <==> name(model).Some?
  {
    if name(model).Some? {
      assert names(model, name(model).value);
    }
  }

  lemma SharedOrNot(one: Tree, two: Tree, names: (Tree, string) -> bool, name: Tree -> Option<string>)
    requires forall text :: names(one, text) <==> name(one) == Some(text)
    requires forall text :: names(two, text) <==> name(two) == Some(text)
    ensures ShareName(one, two, names) <==> name(one) == name(two) && name(one).Some?
  {
    if name(one).Some? {
      assert names(one, name(one).value) && (name(one) == name(two) ==> names(two, name(one).value));
    }
  }

  lemma PatchableIs(reader: Reader, node: Tree)
    requires FineTree(node)
    ensures MD.Patchable(reader, node) <==> EditableBy(reader, node, ExactText)
  {
    IndirectionIs(node);
    HasKeyIs(node, "models");
    if HasModels(node) {
      ValueFine(node, "models");
      var models := Models(node);
      ChildrenFine(ValueOf(node, "models").value);
      forall i | 0 <= i < |models| ensures forall name :: ExactText(models[i], name) <==> MD.ExactName(models[i]) == Some(name) {
        ExactIs(models[i]);
      }
      ApartIs(models, ExactText, MD.ExactName);
    }
    hide FineTree, ExactText, MD.ExactName, Unambiguous, NoIndirection, Holds, ApartBy, HasKey;
  }

  lemma UsableIs(reader: Reader, node: Tree)
    requires FineTree(node)
    ensures MB.Usable(reader, node) <==> EditableBy(reader, node, TrimmedText)
  {
    IndirectionIs(node);
    HasKeyIs(node, "models");
    if HasModels(node) {
      ValueFine(node, "models");
      var models := Models(node);
      ChildrenFine(ValueOf(node, "models").value);
      forall i | 0 <= i < |models| ensures forall name :: TrimmedText(models[i], name) <==> MB.PlannedName(models[i]) == Some(name) {
        TrimmedIs(models[i]);
      }
      ApartIs(models, TrimmedText, MB.PlannedName);
    }
    hide FineTree, TrimmedText, MB.PlannedName, Unambiguous, NoIndirection, Holds, ApartBy, HasKey;
  }

  lemma TheOneIs(reader: Reader, channels: seq<Tree>, selector: Selector, k: nat)
    requires forall j :: 0 <= j < |channels| ==> FineTree(channels[j])
    ensures OneSelected(reader, channels, selector, k) <==> TheOne(reader, channels, selector, k)
  {
    forall j | 0 <= j < |channels|
      ensures Selects(reader, channels[j], selector) <==> IsOpenAi(reader, channels[j], selector)
      ensures FlagReadable(reader, channels[j]) <==> FlagFine(reader, channels[j])
    {
      OpenAiIs(reader, channels[j], selector);
    }
    hide Selects, IsOpenAi, FlagReadable, FlagFine, FineTree;
  }

  lemma ChannelsFine(root: Tree, key: string)
    requires FineTree(root) && HasChannels(root, key)
    ensures forall j :: 0 <= j < |Channels(root, key)| ==> FineTree(Channels(root, key)[j])
  {
    ValueFine(root, key);
    ChildrenFine(ValueOf(root, key).value);
  }

  /** The membership planner edits exactly this channel. */
  lemma LocatesExactly(reader: Reader, root: Tree, selector: Selector, k: nat)
    requires FineTree(root)
    ensures MB.Locates(reader, root, selector, k) <==> MembershipPlace(reader, root, selector, k)
  {
    HasKeyIs(root, "openai-compatibility");
    if HasChannels(root, "openai-compatibility") {
      var channels := Channels(root, "openai-compatibility");
      ChannelsFine(root, "openai-compatibility");
      TheOneIs(reader, channels, selector, k);
      if k < |channels| {
        UsableIs(reader, channels[k]);
      }
    }
    hide FineTree, Holds, HasKey, OneSelected, TheOne, MB.Usable, EditableBy, ValueOf;
    assert MB.Locates(reader, root, selector, k) ==> k < |Channels(root, "openai-compatibility")| by { InRange(reader, root, selector, k); }
    assert forall list :: TheOne(reader, list, selector, k) ==> k < |list| by { InRangeToo(reader, selector, k); }
  }

  lemma InRange(reader: Reader, root: Tree, selector: Selector, k: nat)
    ensures MB.Locates(reader, root, selector, k) ==> k < |Channels(root, "openai-compatibility")|
  {
  }

  lemma InRangeToo(reader: Reader, selector: Selector, k: nat)
    ensures forall list :: TheOne(reader, list, selector, k) ==> k < |list|
  {
  }

  /** The metadata planner edits exactly this channel. */
  lemma FindsExactly(reader: Reader, root: Tree, spec: MD.ChannelSpec, k: nat)
    requires FineTree(root)
    ensures MD.Finds(reader, root, spec, k) <==> MetadataPlace(reader, root, spec, k)
  {
    var key := if spec.OpenAi? then "openai-compatibility" else "claude-api-key";
    HasKeyIs(root, key);
    if HasChannels(root, key) {
      var channels := Channels(root, key);
      ChannelsFine(root, key);
      if spec.OpenAi? {
        TheOneIs(reader, channels, spec.selector, k);
      }
      if k < |channels| {
        PatchableIs(reader, channels[k]);
        if spec.Claude? {
          ClaudeIs(reader, channels[k], spec);
        }
      }
    }
    hide FineTree, Holds, HasKey, OneSelected, TheOne, MD.Patchable, EditableBy, ValueOf, IsClaude, MD.ClaudeSelects;
    if spec.OpenAi? {
      assert forall list :: TheOne(reader, list, spec.selector, k) ==> k < |list| by { InRangeToo(reader, spec.selector, k); }
    }
  }
}
