/** The bounds on an ingested model catalog, place by place, with their numbers. */
module CatalogBounds {
  import opened Options
  import opened YamlTree
  import opened CatalogScanner

  // ---------- places ----------

  /** One step into a value: to the value under a key, or to an element. */
  datatype Hop = Key(name: string) | Item

  ghost predicate StepsTo(value: Json, hop: Hop, inner: Json) {
    match hop
    case Key(name) => value.Object? && exists i :: 0 <= i < |value.members| && value.members[i].key == name && value.members[i].value == inner
    case Item => value.Array? && exists i :: 0 <= i < |value.elements| && value.elements[i] == inner
  }

  /** The value stands at this place of the catalog. */
  ghost predicate StandsAt(root: Json, path: seq<Hop>, value: Json)
    decreases |path|, 1
  {
    if path == [] then value == root else exists outer :: StandsIn(root, path, outer, value)
  }

  ghost predicate StandsIn(root: Json, path: seq<Hop>, outer: Json, value: Json)
    requires path != []
    decreases |path|, 0
  {
    StandsAt(root, path[..|path| - 1], outer) && StepsTo(outer, path[|path| - 1], value)
  }

  // ---------- the bounds ----------

  predicate IsModel(path: seq<Hop>) {
    |path| >= 2 && path[0] == Key("models") && path[1] == Item
  }

  /** How many bytes a string may have at a place. */
  function StringBytes(path: seq<Hop>): nat {
    if IsModel(path) && |path| == 3 && (path[2] == Key("id") || path[2] == Key("slug")) then 1024
    else if IsModel(path) && |path| == 3 && path[2] == Key("display_name") then 4096
    else if IsModel(path) && |path| == 3 && path[2] == Key("visibility") then 128
    else if IsModel(path) && |path| == 4 && (path[2] == Key("input_modalities") || path[2] == Key("output_modalities")) && path[3] == Item then 128
    else if IsModel(path) && |path| == 5 && path[2] == Key("supported_reasoning_levels") && path[3] == Item && path[4] == Key("effort") then 128
    else 12582912
  }

  /** How many elements a list may have at a place. */
  function ListLength(path: seq<Hop>): nat {
    if IsModel(path) && |path| == 3 && path[2] == Key("supported_reasoning_levels") then 32
    else if IsModel(path) && |path| == 3 && (path[2] == Key("input_modalities") || path[2] == Key("output_modalities")) then 16
    else 4096
  }

  ghost predicate KeepsBounds(fold: Fold, value: Json, path: seq<Hop>) {
    && |path| <= 128
    && match value
       case Atom => true
       case Str(text) => ByteLength(text) <= StringBytes(path)
       case Array(elements) => |elements| <= ListLength(path)
       case Object(members) =>
         && |members| <= 256
         && (forall i :: 0 <= i < |members| ==> ByteLength(members[i].key) <= 256)
         && (forall i, j :: 0 <= i < j < |members| ==> fold(members[i].key) != fold(members[j].key))
  }

  /** Every place of the catalog keeps to its bounds. */
  ghost predicate EveryPlace(fold: Fold, root: Json) {
    forall path, value :: StandsAt(root, path, value) ==> KeepsBounds(fold, value, path)
  }

  // ---------- the scanner's contexts are places ----------

  function ContextAt(path: seq<Hop>): Context
    decreases |path|
  {
    if path == [] then Root
    else
      match path[|path| - 1]
      case Key(name) => ObjectChild(ContextAt(path[..|path| - 1]), name)
      case Item => ArrayChild(ContextAt(path[..|path| - 1]))
  }

  /** Which places have a context of their own. */
  predicate ContextIs(path: seq<Hop>, context: Context) {
    && (context == Root <==> path == [])
    && (context == Models <==> path == [Key("models")])
    && (context == Model <==> IsModel(path) && |path| == 2)
    && (context == ReasoningLevels <==> IsModel(path) && |path| == 3 && path[2] == Key("supported_reasoning_levels"))
    && (context == Modalities <==> IsModel(path) && |path| == 3 && (path[2] == Key("input_modalities") || path[2] == Key("output_modalities")))
    && (context == ReasoningLevel <==> IsModel(path) && |path| == 4 && path[2] == Key("supported_reasoning_levels") && path[3] == Item)
    && (context == ModelId <==> IsModel(path) && |path| == 3 && (path[2] == Key("id") || path[2] == Key("slug")))
    && (context == DisplayName <==> IsModel(path) && |path| == 3 && path[2] == Key("display_name"))
    && (context == ShortString <==>
         || (IsModel(path) && |path| == 3 && path[2] == Key("visibility"))
         || (IsModel(path) && |path| == 4 && (path[2] == Key("input_modalities") || path[2] == Key("output_modalities")) && path[3] == Item)
         || (IsModel(path) && |path| == 5 && path[2] == Key("supported_reasoning_levels") && path[3] == Item && path[4] == Key("effort")))
  }

  lemma {:induction false} ContextOf(path: seq<Hop>)
    ensures ContextIs(path, ContextAt(path))
    decreases |path|
  {
    if path != [] {
      ContextOf(path[..|path| - 1]);
      ContextNext(path, ContextAt(path[..|path| - 1]));
    }
  }

  lemma ContextNext(path: seq<Hop>, outer: Context)
    requires path != [] && ContextIs(path[..|path| - 1], outer)
    ensures ContextIs(path, match path[|path| - 1] case Key(name) => ObjectChild(outer, name) case Item => ArrayChild(outer))
  {
  }

  lemma LimitsAt(path: seq<Hop>)
    ensures MaxStringBytes(ContextAt(path)) == StringBytes(path)
    ensures ArrayLimit(ContextAt(path)) == ListLength(path)
  {
    ContextOf(path);
    hide ContextAt;
  }

  // ---------- within all bounds ----------

  lemma {:induction false} PlacesFit(fold: Fold, root: Json, path: seq<Hop>, value: Json)
    requires Fits(fold, root, 0, Root) && StandsAt(root, path, value)
    ensures Fits(fold, value, |path|, ContextAt(path))
    decreases |path|
  {
    if path != [] {
      var n := |path| - 1;
      var outer :| StandsIn(root, path, outer, value);
      PlacesFit(fold, root, path[..n], outer);
      hide StandsAt;
    }
  }

  lemma {:induction false} InsideIsBounded(fold: Fold, root: Json, path: seq<Hop>, value: Json)
    requires EveryPlace(fold, root) && StandsAt(root, path, value)
    ensures Fits(fold, value, |path|, ContextAt(path))
    decreases value
  {
    assert KeepsBounds(fold, value, path);
    LimitsAt(path);
    match value {
      case Atom =>
      case Str(text) =>
      case Object(members) =>
        forall i | 0 <= i < |members| ensures Fits(fold, members[i].value, |path| + 1, ObjectChild(ContextAt(path), members[i].key)) {
          var inner := path + [Key(members[i].key)];
          OneFurther(root, path, value, Key(members[i].key), members[i].value);
          InsideIsBounded(fold, root, inner, members[i].value);
        }
      case Array(elements) =>
        forall i | 0 <= i < |elements| ensures Fits(fold, elements[i], |path| + 1, ArrayChild(ContextAt(path))) {
          OneFurther(root, path, value, Item, elements[i]);
          InsideIsBounded(fold, root, path + [Item], elements[i]);
        }
    }
  }

  lemma OneFurther(root: Json, path: seq<Hop>, outer: Json, hop: Hop, value: Json)
    requires StandsAt(root, path, outer) && StepsTo(outer, hop, value)
    ensures StandsAt(root, path + [hop], value)
    ensures ContextAt(path + [hop]) == match hop case Key(name) => ObjectChild(ContextAt(path), name) case Item => ArrayChild(ContextAt(path))
  {
    var longer := path + [hop];
    assert longer[..|longer| - 1] == path && longer[|longer| - 1] == hop;
    assert StandsIn(root, longer, outer, value);
  }

  /** The scanner's bounds are these. */
  lemma FitsExactly(fold: Fold, root: Json)
    ensures Fits(fold, root, 0, Root) <==> EveryPlace(fold, root)
  {
    if Fits(fold, root, 0, Root) {
      forall path, value | StandsAt(root, path, value) ensures KeepsBounds(fold, value, path) {
        PlacesFit(fold, root, path, value);
        LimitsAt(path);
      }
    }
    if EveryPlace(fold, root) {
      assert StandsAt(root, [], root);
      InsideIsBounded(fold, root, [], root);
    }
  }

  // ---------- the overall count ----------

  /** The tokens that do not just close an object or a list. */
  function Counted(tokens: seq<Token>): nat {
    if tokens == [] then 0 else (if tokens[0] == CloseObject || tokens[0] == CloseArray then 0 else 1) + Counted(tokens[1..])
  }

  lemma {:induction false} CountedAppend(one: seq<Token>, two: seq<Token>)
    ensures Counted(one + two) == Counted(one) + Counted(two)
  {
    if one == [] {
      assert one + two == two;
    } else {
      assert (one + two)[1..] == one[1..] + two;
      CountedAppend(one[1..], two);
    }
  }

  lemma CountedOne(token: Token)
    ensures Counted([token]) == if token == CloseObject || token == CloseArray then 0 else 1
  {
    assert [token][1..] == [];
  }

  /** The scanner counts the tokens that open a value or a member. */
  lemma {:induction false} SizeIsCounted(value: Json)
    ensures Counted(Render(value)) == Size(value)
    decreases value, 0
  {
    match value {
      case Atom =>
      case Str(text) =>
      case Object(members) =>
        SizeOfMembersIsCounted(members);
        CountedAppend([OpenObject] + RenderMembers(members), [CloseObject]);
        CountedAppend([OpenObject], RenderMembers(members));
        CountedOne(OpenObject);
        CountedOne(CloseObject);
      case Array(elements) =>
        SizeOfElementsIsCounted(elements);
        CountedAppend([OpenArray] + RenderElements(elements), [CloseArray]);
        CountedAppend([OpenArray], RenderElements(elements));
        CountedOne(OpenArray);
        CountedOne(CloseArray);
    }
  }

  lemma {:induction false} SizeOfMembersIsCounted(members: seq<Member>)
    ensures Counted(RenderMembers(members)) == SizeOfMembers(members)
    decreases members
  {
    if members != [] {
      SizeIsCounted(members[0].value);
      SizeOfMembersIsCounted(members[1..]);
      CountedAppend([Text(members[0].key)] + Render(members[0].value), RenderMembers(members[1..]));
      CountedAppend([Text(members[0].key)], Render(members[0].value));
      CountedOne(Text(members[0].key));
    }
  }

  lemma {:induction false} SizeOfElementsIsCounted(elements: seq<Json>)
    ensures Counted(RenderElements(elements)) == SizeOfElements(elements)
    decreases elements
  {
    if elements != [] {
      SizeIsCounted(elements[0]);
      SizeOfElementsIsCounted(elements[1..]);
      CountedAppend(Render(elements[0]), RenderElements(elements[1..]));
    }
  }

  /** A catalog is accepted exactly if it is one value that keeps to the bounds at every place and has no more than
      262144 values and members. */
  lemma AcceptedExactly(fold: Fold, tokens: seq<Token>)
    ensures WithinBounds(fold, tokens, Root) <==> Counted(tokens) <= 262144 && exists value :: tokens == Render(value) && EveryPlace(fold, value)
  {
    forall value {
      FitsExactly(fold, value);
    }
    forall value {
      SizeIsCounted(value);
    }
    hide Fits, EveryPlace, Render, Size, Counted;
  }
}
