/** The bounded scan of an ingested model catalog: one counter for the whole document, a bound on depth,
    and bounds on strings, members and elements that depend on where in the catalog a value stands. */
module CatalogScanner {
  import opened Options
  import opened YamlTree

  const MAX_DEPTH: nat := 128
  const MAX_MODELS: nat := 4096
  const MAX_MEMBERS: nat := 256
  const MAX_ELEMENTS: nat := 4096
  const MAX_SCANNED: nat := 262144
  const MAX_KEY_BYTES: nat := 256
  const MAX_MODEL_ID_BYTES: nat := 1024
  const MAX_DISPLAY_NAME_BYTES: nat := 4096
  const MAX_SHORT_STRING_BYTES: nat := 128
  const MAX_REASONING_LEVELS: nat := 32
  const MAX_MODALITIES: nat := 16
  const MAX_INGEST_BODY_BYTES: nat := 12582912

  /** What the JSON decoder hands out. Plain stands for numbers, booleans and null. */
  datatype Token = OpenObject | CloseObject | OpenArray | CloseArray | Text(text: string) | Plain

  datatype Json = Atom | Str(text: string) | Object(members: seq<Member>) | Array(elements: seq<Json>)
  datatype Member = Member(key: string, value: Json)

  datatype Context =
    | Generic | Root | Models | Model | ReasoningLevels | ReasoningLevel | Modalities | ModelId | DisplayName | ShortString

  function ObjectChild(parent: Context, key: string): Context {
    match parent
    case Root => if key == "models" then Models else Generic
    case Model =>
      if key == "id" || key == "slug" then ModelId
      else if key == "display_name" then DisplayName
      else if key == "visibility" then ShortString
      else if key == "supported_reasoning_levels" then ReasoningLevels
      else if key == "input_modalities" || key == "output_modalities" then Modalities
      else Generic
    case ReasoningLevel => if key == "effort" then ShortString else Generic
    case _ => Generic
  }

  function ArrayLimit(context: Context): nat {
    match context
    case Models => MAX_MODELS
    case ReasoningLevels => MAX_REASONING_LEVELS
    case Modalities => MAX_MODALITIES
    case _ => MAX_ELEMENTS
  }

  function ArrayChild(context: Context): Context {
    match context
    case Models => Model
    case ReasoningLevels => ReasoningLevel
    case Modalities => ShortString
    case _ => Generic
  }

  function MaxStringBytes(context: Context): nat {
    match context
    case ModelId => MAX_MODEL_ID_BYTES
    case DisplayName => MAX_DISPLAY_NAME_BYTES
    case ShortString => MAX_SHORT_STRING_BYTES
    case _ => MAX_INGEST_BODY_BYTES
  }

  // ---------- what a document is, and which documents are within bounds ----------

  /** The tokens a value is written with. */
  function Render(value: Json): seq<Token>
    decreases value
  {
    match value
    case Atom => [Plain]
    case Str(text) => [Text(text)]
    case Object(members) => [OpenObject] + RenderMembers(members) + [CloseObject]
    case Array(elements) => [OpenArray] + RenderElements(elements) + [CloseArray]
  }

  function RenderMembers(members: seq<Member>): seq<Token>
    decreases members
  {
    if members == [] then [] else [Text(members[0].key)] + Render(members[0].value) + RenderMembers(members[1..])
  }

  function RenderElements(elements: seq<Json>): seq<Token>
    decreases elements
  {
    if elements == [] then [] else Render(elements[0]) + RenderElements(elements[1..])
  }

  /** The number of values and members, all the way down. */
  function Size(value: Json): nat
    decreases value
  {
    match value
    case Object(members) => 1 + SizeOfMembers(members)
    case Array(elements) => 1 + SizeOfElements(elements)
    case _ => 1
  }

  function SizeOfMembers(members: seq<Member>): nat
    decreases members
  {
    if members == [] then 0 else 1 + Size(members[0].value) + SizeOfMembers(members[1..])
  }

  function SizeOfElements(elements: seq<Json>): nat
    decreases elements
  {
    if elements == [] then 0 else Size(elements[0]) + SizeOfElements(elements[1..])
  }

  type Fold = string -> string

  /** Every bound but the overall count, at every place in the value. */
  ghost predicate Fits(fold: Fold, value: Json, depth: nat, context: Context)
    decreases value
  {
    && depth <= MAX_DEPTH
    && match value
       case Atom => true
       case Str(text) => ByteLength(text) <= MaxStringBytes(context)
       case Object(members) =>
         && |members| <= MAX_MEMBERS
         && (forall i :: 0 <= i < |members| ==> ByteLength(members[i].key) <= MAX_KEY_BYTES)
         && (forall i, j :: 0 <= i < j < |members| ==> fold(members[i].key) != fold(members[j].key))
         && (forall i :: 0 <= i < |members| ==> Fits(fold, members[i].value, depth + 1, ObjectChild(context, members[i].key)))
       case Array(elements) =>
         && |elements| <= ArrayLimit(context)
         && (forall i :: 0 <= i < |elements| ==> Fits(fold, elements[i], depth + 1, ArrayChild(context)))
  }

  // ---------- the scan, as a function of the tokens ----------

  /** Where the decoder and the counter stand. */
  datatype Mark = Mark(pos: nat, scanned: nat)

  predicate More(tokens: seq<Token>, pos: nat) {
    pos < |tokens| && tokens[pos] != CloseObject && tokens[pos] != CloseArray
  }

  function ScanValue(fold: Fold, tokens: seq<Token>, at: Mark, depth: nat, context: Context): (end: Option<Mark>)
    requires at.pos <= |tokens| && at.scanned <= MAX_SCANNED
    ensures end.Some? ==> at.pos < end.value.pos <= |tokens| && at.scanned < end.value.scanned <= MAX_SCANNED
    decreases |tokens| - at.pos, 0
  {
    if depth > MAX_DEPTH || at.scanned == MAX_SCANNED || at.pos == |tokens| then None
    else
      var next := Mark(at.pos + 1, at.scanned + 1);
      match tokens[at.pos]
      case Plain => Some(next)
      case Text(text) => if ByteLength(text) > MaxStringBytes(context) then None else Some(next)
      case OpenObject => ScanMembers(fold, tokens, next, depth, context, {}, 0)
      case OpenArray => ScanElements(fold, tokens, next, depth, context, 0)
      case _ => None
  }

  function ScanMembers(fold: Fold, tokens: seq<Token>, at: Mark, depth: nat, context: Context, seen: set<string>, members: nat)
    : (end: Option<Mark>)
    requires at.pos <= |tokens| && at.scanned <= MAX_SCANNED
    ensures end.Some? ==> at.pos < end.value.pos <= |tokens| && at.scanned <= end.value.scanned <= MAX_SCANNED
    decreases |tokens| - at.pos, 1
  {
    if !More(tokens, at.pos) then
      if at.pos < |tokens| && tokens[at.pos] == CloseObject then Some(Mark(at.pos + 1, at.scanned)) else None
    else if !tokens[at.pos].Text? || ByteLength(tokens[at.pos].text) > MAX_KEY_BYTES then None
    else
      var key := tokens[at.pos].text;
      if members + 1 > MAX_MEMBERS || fold(key) in seen || at.scanned == MAX_SCANNED then None
      else
        var child := ScanValue(fold, tokens, Mark(at.pos + 1, at.scanned + 1), depth + 1, ObjectChild(context, key));
        if child.None? then None
        else ScanMembers(fold, tokens, child.value, depth, context, seen + {fold(key)}, members + 1)
  }

  function ScanElements(fold: Fold, tokens: seq<Token>, at: Mark, depth: nat, context: Context, elements: nat): (end: Option<Mark>)
    requires at.pos <= |tokens| && at.scanned <= MAX_SCANNED
    ensures end.Some? ==> at.pos < end.value.pos <= |tokens| && at.scanned <= end.value.scanned <= MAX_SCANNED
    decreases |tokens| - at.pos, 1
  {
    if !More(tokens, at.pos) then
      if at.pos < |tokens| && tokens[at.pos] == CloseArray then Some(Mark(at.pos + 1, at.scanned)) else None
    else if elements + 1 > ArrayLimit(context) then None
    else
      var child := ScanValue(fold, tokens, at, depth + 1, ArrayChild(context));
      if child.None? then None
      else ScanElements(fold, tokens, child.value, depth, context, elements + 1)
  }

  // ---------- the scan, as the source runs it ----------

  /** The token stream; reading past the end is the decoder's error. */
  class Decoder {
    const tokens: seq<Token>
    var pos: nat

    ghost predicate Valid() reads this {
      pos <= |tokens|
    }

    constructor (tokens: seq<Token>)
      ensures Valid() && this.tokens == tokens && pos == 0
    {
      this.tokens := tokens;
      pos := 0;
    }

    method Next() returns (token: Option<Token>)
      requires Valid()
      modifies this
      ensures Valid()
      ensures token == if old(pos) == |tokens| then None else Some(tokens[old(pos)])
      ensures pos == old(pos) + if token.Some? then 1 else 0
    {
      if pos == |tokens| {
        return None;
      }
      token := Some(tokens[pos]);
      pos := pos + 1;
    }
  }

  class Scanner {
    var scanned: nat
    const fold: Fold

    constructor (fold: Fold)
      ensures scanned == 0 && this.fold == fold
    {
      this.fold := fold;
      scanned := 0;
    }

    method AddScanned(count: nat) returns (ok: bool)
      requires scanned <= MAX_SCANNED
      modifies this
      ensures ok == (old(scanned) + count <= MAX_SCANNED)
      ensures scanned == old(scanned) + if ok then count else 0
    {
      if count > MAX_SCANNED - scanned {
        return false;
      }
      scanned := scanned + count;
      return true;
    }

    ghost predicate Ready(decoder: Decoder) reads this, decoder {
      decoder.Valid() && scanned <= MAX_SCANNED
    }

    ghost function Here(decoder: Decoder): Mark reads this, decoder {
      Mark(decoder.pos, scanned)
    }

    method Scan(decoder: Decoder, depth: nat, context: Context) returns (ok: bool)
      requires Ready(decoder)
      modifies this, decoder
      ensures Ready(decoder)
      ensures ScanValue(fold, decoder.tokens, old(Here(decoder)), depth, context) == if ok then Some(Here(decoder)) else None
      decreases |decoder.tokens| - decoder.pos, 0
    {
      if depth > MAX_DEPTH {
        return false;
      }
      var counted := AddScanned(1);
      if !counted {
        return false;
      }
      var token := decoder.Next();
      match token {
        case None => return false;
        case Some(Plain) => return true;
        case Some(Text(text)) => return ByteLength(text) <= MaxStringBytes(context);
        case Some(OpenObject) => ok := ScanObject(decoder, depth, context);
        case Some(OpenArray) => ok := ScanArray(decoder, depth, context);
        case _ => return false;
      }
    }

    method ScanObject(decoder: Decoder, depth: nat, context: Context) returns (ok: bool)
      requires Ready(decoder)
      modifies this, decoder
      ensures Ready(decoder)
      ensures ScanMembers(fold, decoder.tokens, old(Here(decoder)), depth, context, {}, 0) == if ok then Some(Here(decoder)) else None
      decreases |decoder.tokens| - decoder.pos, 1
    {
      hide ScanValue, ScanMembers, ByteLength, ObjectChild;
      var seen: set<string> := {};
      var members := 0;
      while More(decoder.tokens, decoder.pos)
        invariant Ready(decoder) && old(decoder.pos) <= decoder.pos
        invariant ScanMembers(fold, decoder.tokens, old(Here(decoder)), depth, context, {}, 0)
          == ScanMembers(fold, decoder.tokens, Here(decoder), depth, context, seen, members)
        decreases |decoder.tokens| - decoder.pos
      {
        ghost var at := Here(decoder);
        var key := decoder.Next();
        if !key.value.Text? {
          NoKey(fold, decoder.tokens, at, depth, context, seen, members);
          return false;
        }
        if ByteLength(key.value.text) > MAX_KEY_BYTES {
          NextMember(fold, decoder.tokens, at, depth, context, seen, members, key.value.text);
          return false;
        }
        NextMember(fold, decoder.tokens, at, depth, context, seen, members, key.value.text);
        members := members + 1;
        var folded := fold(key.value.text);
        if members > MAX_MEMBERS || folded in seen {
          return false;
        }
        var counted := AddScanned(1);
        if !counted {
          return false;
        }
        seen := seen + {folded};
        var child := Scan(decoder, depth + 1, ObjectChild(context, key.value.text));
        if !child {
          return false;
        }
      }
      NoMoreMembers(fold, decoder.tokens, Here(decoder), depth, context, seen, members);
      var closing := decoder.Next();
      return closing == Some(CloseObject);
    }

    method ScanArray(decoder: Decoder, depth: nat, context: Context) returns (ok: bool)
      requires Ready(decoder)
      modifies this, decoder
      ensures Ready(decoder)
      ensures ScanElements(fold, decoder.tokens, old(Here(decoder)), depth, context, 0) == if ok then Some(Here(decoder)) else None
      decreases |decoder.tokens| - decoder.pos, 1
    {
      var elements := 0;
      while More(decoder.tokens, decoder.pos)
        invariant Ready(decoder) && old(decoder.pos) <= decoder.pos
        invariant ScanElements(fold, decoder.tokens, old(Here(decoder)), depth, context, 0)
          == ScanElements(fold, decoder.tokens, Here(decoder), depth, context, elements)
        decreases |decoder.tokens| - decoder.pos
      {
        elements := elements + 1;
        if elements > ArrayLimit(context) {
          return false;
        }
        var child := Scan(decoder, depth + 1, ArrayChild(context));
        if !child {
          return false;
        }
      }
      var closing := decoder.Next();
      return closing == Some(CloseArray);
    }
  }

  // ---------- the scan of one value is exact ----------

  /** The stream continues with these tokens. */
  ghost predicate Continues(tokens: seq<Token>, pos: nat, written: seq<Token>) {
    pos + |written| <= |tokens| && tokens[pos..pos + |written|] == written
  }

  lemma Splits(tokens: seq<Token>, pos: nat, first: seq<Token>, second: seq<Token>)
    requires Continues(tokens, pos, first + second)
    ensures Continues(tokens, pos, first) && Continues(tokens, pos + |first|, second)
  {
    var written := first + second;
    assert tokens[pos..pos + |first|] == written[..|first|];
    assert tokens[pos + |first|..pos + |written|] == written[|first|..];
  }

  lemma Joins(tokens: seq<Token>, pos: nat, first: seq<Token>, second: seq<Token>)
    requires Continues(tokens, pos, first) && Continues(tokens, pos + |first|, second)
    ensures Continues(tokens, pos, first + second)
  {
    assert tokens[pos..pos + |first + second|] == tokens[pos..pos + |first|] + tokens[pos + |first|..pos + |first + second|];
  }

  lemma StartsLikeAValue(value: Json)
    ensures Render(value) != [] && Render(value)[0] != CloseObject && Render(value)[0] != CloseArray
  {
  }

  /** The members still to come fit, given the folded keys and the number of members already read. */
  ghost predicate MembersFit(fold: Fold, members: seq<Member>, depth: nat, context: Context, seen: set<string>, count: nat) {
    && count + |members| <= MAX_MEMBERS
    && (forall i :: 0 <= i < |members| ==> ByteLength(members[i].key) <= MAX_KEY_BYTES)
    && (forall i :: 0 <= i < |members| ==> fold(members[i].key) !in seen)
    && (forall i, j :: 0 <= i < j < |members| ==> fold(members[i].key) != fold(members[j].key))
    && (forall i :: 0 <= i < |members| ==> Fits(fold, members[i].value, depth + 1, ObjectChild(context, members[i].key)))
  }

  ghost predicate ElementsFit(fold: Fold, elements: seq<Json>, depth: nat, context: Context, count: nat) {
    && count + |elements| <= ArrayLimit(context)
    && (forall i :: 0 <= i < |elements| ==> Fits(fold, elements[i], depth + 1, ArrayChild(context)))
  }

  lemma FirstMemberFits(fold: Fold, members: seq<Member>, depth: nat, context: Context, seen: set<string>, count: nat)
    requires members != []
    ensures MembersFit(fold, members, depth, context, seen, count) <==>
      && count + 1 <= MAX_MEMBERS && ByteLength(members[0].key) <= MAX_KEY_BYTES && fold(members[0].key) !in seen
      && Fits(fold, members[0].value, depth + 1, ObjectChild(context, members[0].key))
      && MembersFit(fold, members[1..], depth, context, seen + {fold(members[0].key)}, count + 1)
  {
    var rest, more := members[1..], seen + {fold(members[0].key)};
    hide Fits, ByteLength;
    if MembersFit(fold, rest, depth, context, more, count + 1)
      && ByteLength(members[0].key) <= MAX_KEY_BYTES && fold(members[0].key) !in seen
      && Fits(fold, members[0].value, depth + 1, ObjectChild(context, members[0].key))
    {
      forall i | 0 <= i < |members|
        ensures ByteLength(members[i].key) <= MAX_KEY_BYTES && fold(members[i].key) !in seen
        ensures Fits(fold, members[i].value, depth + 1, ObjectChild(context, members[i].key))
      {
        if i > 0 { assert members[i] == rest[i - 1]; }
      }
      forall i, j | 0 <= i < j < |members| ensures fold(members[i].key) != fold(members[j].key) {
        assert members[j] == rest[j - 1];
        if i > 0 { assert members[i] == rest[i - 1]; }
      }
    }
  }

  lemma FirstElementFits(fold: Fold, elements: seq<Json>, depth: nat, context: Context, count: nat)
    requires elements != []
    ensures ElementsFit(fold, elements, depth, context, count) <==>
      && count + 1 <= ArrayLimit(context) && Fits(fold, elements[0], depth + 1, ArrayChild(context))
      && ElementsFit(fold, elements[1..], depth, context, count + 1)
  {
    hide Fits;
    if ElementsFit(fold, elements[1..], depth, context, count + 1) && Fits(fold, elements[0], depth + 1, ArrayChild(context)) {
      forall i | 0 <= i < |elements| ensures Fits(fold, elements[i], depth + 1, ArrayChild(context)) {
        if i > 0 { assert elements[i] == elements[1..][i - 1]; }
      }
    }
  }

  /** A value at the head of the stream is accepted exactly when it fits and the budget covers its size;
      the counter then grows by that size and the decoder stops right behind the value. */
  lemma {:induction false} ValueScanned(fold: Fold, tokens: seq<Token>, at: Mark, depth: nat, context: Context, value: Json)
    requires at.pos <= |tokens| && at.scanned <= MAX_SCANNED && Continues(tokens, at.pos, Render(value))
    ensures ScanValue(fold, tokens, at, depth, context) ==
      if Fits(fold, value, depth, context) && at.scanned + Size(value) <= MAX_SCANNED
      then Some(Mark(at.pos + |Render(value)|, at.scanned + Size(value))) else None
    decreases value
  {
    assert tokens[at.pos] == tokens[at.pos..at.pos + |Render(value)|][0];
    match value {
      case Object(members) => ObjectScanned(fold, tokens, at, depth, context, members);
      case Array(elements) => ArrayScanned(fold, tokens, at, depth, context, elements);
      case _ =>
    }
  }

  lemma {:induction false} ObjectScanned(fold: Fold, tokens: seq<Token>, at: Mark, depth: nat, context: Context, members: seq<Member>)
    requires at.pos <= |tokens| && at.scanned <= MAX_SCANNED && Continues(tokens, at.pos, Render(Object(members)))
    ensures ScanValue(fold, tokens, at, depth, context) ==
      if Fits(fold, Object(members), depth, context) && at.scanned + Size(Object(members)) <= MAX_SCANNED
      then Some(Mark(at.pos + |Render(Object(members))|, at.scanned + Size(Object(members)))) else None
    decreases members, 1
  {
    hide ScanMembers, RenderMembers, SizeOfMembers, ByteLength;
    var rest := RenderMembers(members) + [CloseObject];
    assert Render(Object(members)) == [OpenObject] + rest;
    Splits(tokens, at.pos, [OpenObject], rest);
    assert tokens[at.pos] == tokens[at.pos..at.pos + 1][0];
    assert Fits(fold, Object(members), depth, context) <==> depth <= MAX_DEPTH && MembersFit(fold, members, depth, context, {}, 0);
    if at.scanned < MAX_SCANNED && depth <= MAX_DEPTH {
      hide Fits, Render, Continues, MembersFit;
      MembersScanned(fold, tokens, Mark(at.pos + 1, at.scanned + 1), depth, context, members, {}, 0);
    }
  }

  lemma {:induction false} ArrayScanned(fold: Fold, tokens: seq<Token>, at: Mark, depth: nat, context: Context, elements: seq<Json>)
    requires at.pos <= |tokens| && at.scanned <= MAX_SCANNED && Continues(tokens, at.pos, Render(Array(elements)))
    ensures ScanValue(fold, tokens, at, depth, context) ==
      if Fits(fold, Array(elements), depth, context) && at.scanned + Size(Array(elements)) <= MAX_SCANNED
      then Some(Mark(at.pos + |Render(Array(elements))|, at.scanned + Size(Array(elements)))) else None
    decreases elements, 1
  {
    hide ScanElements, RenderElements, SizeOfElements, ByteLength, ArrayLimit, ArrayChild;
    var rest := RenderElements(elements) + [CloseArray];
    assert Render(Array(elements)) == [OpenArray] + rest;
    Splits(tokens, at.pos, [OpenArray], rest);
    assert tokens[at.pos] == tokens[at.pos..at.pos + 1][0];
    assert Fits(fold, Array(elements), depth, context) <==> depth <= MAX_DEPTH && ElementsFit(fold, elements, depth, context, 0);
    if at.scanned < MAX_SCANNED && depth <= MAX_DEPTH {
      hide Fits, Render, Continues, ElementsFit;
      ElementsScanned(fold, tokens, Mark(at.pos + 1, at.scanned + 1), depth, context, elements, 0);
    }
  }

  lemma {:induction false} MembersWritten(tokens: seq<Token>, pos: nat, members: seq<Member>)
    requires members != [] && Continues(tokens, pos, RenderMembers(members) + [CloseObject])
    ensures pos < |tokens| && tokens[pos] == Text(members[0].key)
    ensures Continues(tokens, pos + 1, Render(members[0].value))
    ensures Continues(tokens, pos + 1 + |Render(members[0].value)|, RenderMembers(members[1..]) + [CloseObject])
    ensures |RenderMembers(members)| == 1 + |Render(members[0].value)| + |RenderMembers(members[1..])|
  {
    hide Render;
    var key, value, rest := [Text(members[0].key)], Render(members[0].value), RenderMembers(members[1..]) + [CloseObject];
    assert RenderMembers(members) + [CloseObject] == key + (value + rest);
    Splits(tokens, pos, key, value + rest);
    Splits(tokens, pos + 1, value, rest);
    assert tokens[pos] == tokens[pos..pos + 1][0];
  }

  lemma {:induction false} ElementsWritten(tokens: seq<Token>, pos: nat, elements: seq<Json>)
    requires elements != [] && Continues(tokens, pos, RenderElements(elements) + [CloseArray])
    ensures More(tokens, pos)
    ensures Continues(tokens, pos, Render(elements[0]))
    ensures Continues(tokens, pos + |Render(elements[0])|, RenderElements(elements[1..]) + [CloseArray])
    ensures |RenderElements(elements)| == |Render(elements[0])| + |RenderElements(elements[1..])|
  {
    StartsLikeAValue(elements[0]);
    hide Render;
    var value, rest := Render(elements[0]), RenderElements(elements[1..]) + [CloseArray];
    assert RenderElements(elements) + [CloseArray] == value + rest;
    Splits(tokens, pos, value, rest);
    assert tokens[pos] == tokens[pos..pos + |value|][0];
  }

  lemma NextMember(fold: Fold, tokens: seq<Token>, at: Mark, depth: nat, context: Context, seen: set<string>, count: nat, key: string)
    requires at.pos < |tokens| && tokens[at.pos] == Text(key) && at.scanned <= MAX_SCANNED
    ensures ScanMembers(fold, tokens, at, depth, context, seen, count) ==
      if ByteLength(key) > MAX_KEY_BYTES || count >= MAX_MEMBERS || fold(key) in seen || at.scanned == MAX_SCANNED then None
      else
        var child := ScanValue(fold, tokens, Mark(at.pos + 1, at.scanned + 1), depth + 1, ObjectChild(context, key));
        if child.None? then None
        else ScanMembers(fold, tokens, child.value, depth, context, seen + {fold(key)}, count + 1)
  {
    hide ScanValue, ByteLength, ObjectChild;
  }

  lemma NoKey(fold: Fold, tokens: seq<Token>, at: Mark, depth: nat, context: Context, seen: set<string>, count: nat)
    requires at.scanned <= MAX_SCANNED && More(tokens, at.pos) && !tokens[at.pos].Text?
    ensures ScanMembers(fold, tokens, at, depth, context, seen, count).None?
  {
  }

  lemma NoMoreMembers(fold: Fold, tokens: seq<Token>, at: Mark, depth: nat, context: Context, seen: set<string>, count: nat)
    requires at.pos <= |tokens| && at.scanned <= MAX_SCANNED && !More(tokens, at.pos)
    ensures ScanMembers(fold, tokens, at, depth, context, seen, count) ==
      if at.pos < |tokens| && tokens[at.pos] == CloseObject then Some(Mark(at.pos + 1, at.scanned)) else None
  {
  }

  lemma {:induction false} MembersScanned(fold: Fold, tokens: seq<Token>, at: Mark, depth: nat, context: Context,
      members: seq<Member>, seen: set<string>, count: nat)
    requires at.pos <= |tokens| && at.scanned <= MAX_SCANNED
    requires Continues(tokens, at.pos, RenderMembers(members) + [CloseObject]) && count <= MAX_MEMBERS
    ensures ScanMembers(fold, tokens, at, depth, context, seen, count) ==
      if MembersFit(fold, members, depth, context, seen, count) && at.scanned + SizeOfMembers(members) <= MAX_SCANNED
      then Some(Mark(at.pos + |RenderMembers(members)| + 1, at.scanned + SizeOfMembers(members))) else None
    decreases members, 0
  {
    hide Fits, ScanValue, ScanMembers, Render, RenderMembers, Size, SizeOfMembers, ByteLength, ObjectChild, Continues, MembersFit;
    if members == [] {
      MembersEnd(fold, tokens, at, depth, context, seen, count);
    } else {
      var key, value, rest := members[0].key, members[0].value, members[1..];
      FirstMemberFits(fold, members, depth, context, seen, count);
      FirstMemberSize(members);
      MembersWritten(tokens, at.pos, members);
      NextMember(fold, tokens, at, depth, context, seen, count, key);
      if ByteLength(key) <= MAX_KEY_BYTES && count < MAX_MEMBERS && fold(key) !in seen && at.scanned < MAX_SCANNED {
        var inside, child := Mark(at.pos + 1, at.scanned + 1), ObjectChild(context, key);
        ValueScanned(fold, tokens, inside, depth + 1, child, value);
        var end := ScanValue(fold, tokens, inside, depth + 1, child);
        if end.Some? {
          MembersScanned(fold, tokens, end.value, depth, context, rest, seen + {fold(key)}, count + 1);
        }
      }
    }
  }

  lemma {:induction false} FirstMemberSize(members: seq<Member>)
    requires members != []
    ensures SizeOfMembers(members) == 1 + Size(members[0].value) + SizeOfMembers(members[1..])
  {
  }

  lemma MembersEnd(fold: Fold, tokens: seq<Token>, at: Mark, depth: nat, context: Context, seen: set<string>, count: nat)
    requires at.pos <= |tokens| && at.scanned <= MAX_SCANNED && count <= MAX_MEMBERS
    requires Continues(tokens, at.pos, RenderMembers([]) + [CloseObject])
    ensures ScanMembers(fold, tokens, at, depth, context, seen, count) == Some(Mark(at.pos + 1, at.scanned))
    ensures MembersFit(fold, [], depth, context, seen, count) && RenderMembers([]) == [] && SizeOfMembers([]) == 0
  {
    assert tokens[at.pos] == tokens[at.pos..at.pos + 1][0];
  }

  lemma {:induction false} ElementsScanned(fold: Fold, tokens: seq<Token>, at: Mark, depth: nat, context: Context,
      elements: seq<Json>, count: nat)
    requires at.pos <= |tokens| && at.scanned <= MAX_SCANNED
    requires Continues(tokens, at.pos, RenderElements(elements) + [CloseArray]) && count <= ArrayLimit(context)
    ensures ScanElements(fold, tokens, at, depth, context, count) ==
      if ElementsFit(fold, elements, depth, context, count) && at.scanned + SizeOfElements(elements) <= MAX_SCANNED
      then Some(Mark(at.pos + |RenderElements(elements)| + 1, at.scanned + SizeOfElements(elements))) else None
    decreases elements, 0
  {
    hide Fits, ScanValue, Render, Size, ArrayChild, ArrayLimit;
    if elements == [] {
      assert tokens[at.pos] == tokens[at.pos..at.pos + 1][0];
    } else {
      var value, rest, child := elements[0], elements[1..], ArrayChild(context);
      FirstElementFits(fold, elements, depth, context, count);
      ElementsWritten(tokens, at.pos, elements);
      hide RenderElements, Continues, ElementsFit;
      ValueScanned(fold, tokens, at, depth + 1, child, value);
      var end := ScanValue(fold, tokens, at, depth + 1, child);
      if end.Some? && count < ArrayLimit(context) {
        ElementsScanned(fold, tokens, end.value, depth, context, rest, count + 1);
      }
    }
  }

  // ---------- nothing but values is accepted ----------

  /** What the scan accepted was a value, written from where it started to where it stopped. */
  lemma {:induction false} AcceptedValue(fold: Fold, tokens: seq<Token>, at: Mark, depth: nat, context: Context) returns (value: Json)
    requires at.pos <= |tokens| && at.scanned <= MAX_SCANNED
    requires ScanValue(fold, tokens, at, depth, context).Some?
    ensures Continues(tokens, at.pos, Render(value))
    ensures at.pos + |Render(value)| == ScanValue(fold, tokens, at, depth, context).value.pos
    decreases |tokens| - at.pos, 0
  {
    var next := Mark(at.pos + 1, at.scanned + 1);
    assert Continues(tokens, at.pos, [tokens[at.pos]]);
    match tokens[at.pos] {
      case Plain => return Atom;
      case Text(text) => return Str(text);
      case OpenObject =>
        assert ScanMembers(fold, tokens, next, depth, context, {}, 0) == ScanValue(fold, tokens, at, depth, context);
        hide ScanValue, ScanMembers, RenderMembers;
        var members := AcceptedMembers(fold, tokens, next, depth, context, {}, 0);
        assert Render(Object(members)) == [OpenObject] + (RenderMembers(members) + [CloseObject]);
        Joins(tokens, at.pos, [OpenObject], RenderMembers(members) + [CloseObject]);
        return Object(members);
      case OpenArray =>
        assert ScanElements(fold, tokens, next, depth, context, 0) == ScanValue(fold, tokens, at, depth, context);
        hide ScanValue, ScanElements, RenderElements;
        var elements := AcceptedElements(fold, tokens, next, depth, context, 0);
        assert Render(Array(elements)) == [OpenArray] + (RenderElements(elements) + [CloseArray]);
        Joins(tokens, at.pos, [OpenArray], RenderElements(elements) + [CloseArray]);
        return Array(elements);
    }
  }

  lemma {:induction false} AcceptedMembers(fold: Fold, tokens: seq<Token>, at: Mark, depth: nat, context: Context,
      seen: set<string>, count: nat) returns (members: seq<Member>)
    requires at.pos <= |tokens| && at.scanned <= MAX_SCANNED
    requires ScanMembers(fold, tokens, at, depth, context, seen, count).Some?
    ensures Continues(tokens, at.pos, RenderMembers(members) + [CloseObject])
    ensures at.pos + |RenderMembers(members)| + 1 == ScanMembers(fold, tokens, at, depth, context, seen, count).value.pos
    decreases |tokens| - at.pos, 1
  {
    hide ScanValue, Render, ByteLength, ObjectChild;
    assert Continues(tokens, at.pos, [tokens[at.pos]]);
    if !More(tokens, at.pos) {
      members := [];
      assert RenderMembers(members) + [CloseObject] == [CloseObject];
    } else {
      var key := tokens[at.pos].text;
      var inside, child := Mark(at.pos + 1, at.scanned + 1), ObjectChild(context, key);
      NextMember(fold, tokens, at, depth, context, seen, count, key);
      hide ScanMembers, Continues;
      var value := AcceptedValue(fold, tokens, inside, depth + 1, child);
      var end := ScanValue(fold, tokens, inside, depth + 1, child).value;
      var rest := AcceptedMembers(fold, tokens, end, depth, context, seen + {fold(key)}, count + 1);
      members := [Member(key, value)] + rest;
      MembersRendered(key, value, rest);
      Joins(tokens, inside.pos, Render(value), RenderMembers(rest) + [CloseObject]);
      Joins(tokens, at.pos, [Text(key)], Render(value) + (RenderMembers(rest) + [CloseObject]));
    }
  }

  lemma {:induction false} MembersRendered(key: string, value: Json, rest: seq<Member>)
    ensures RenderMembers([Member(key, value)] + rest) + [CloseObject] == [Text(key)] + (Render(value) + (RenderMembers(rest) + [CloseObject]))
  {
    hide Render;
    assert ([Member(key, value)] + rest)[1..] == rest;
  }

  lemma {:induction false} AcceptedElements(fold: Fold, tokens: seq<Token>, at: Mark, depth: nat, context: Context, count: nat)
    returns (elements: seq<Json>)
    requires at.pos <= |tokens| && at.scanned <= MAX_SCANNED
    requires ScanElements(fold, tokens, at, depth, context, count).Some?
    ensures Continues(tokens, at.pos, RenderElements(elements) + [CloseArray])
    ensures at.pos + |RenderElements(elements)| + 1 == ScanElements(fold, tokens, at, depth, context, count).value.pos
    decreases |tokens| - at.pos, 1
  {
    hide ScanValue, Render, ByteLength;
    if !More(tokens, at.pos) {
      elements := [];
      assert RenderElements(elements) + [CloseArray] == [CloseArray] == tokens[at.pos..at.pos + 1];
    } else {
      var value := AcceptedValue(fold, tokens, at, depth + 1, ArrayChild(context));
      var end := ScanValue(fold, tokens, at, depth + 1, ArrayChild(context)).value;
      var rest := AcceptedElements(fold, tokens, end, depth, context, count + 1);
      elements := [value] + rest;
      assert elements[1..] == rest;
      Joins(tokens, at.pos, Render(value), RenderElements(rest) + [CloseArray]);
      assert RenderElements(elements) + [CloseArray] == Render(value) + (RenderElements(rest) + [CloseArray]);
    }
  }

  // ---------- the whole document ----------

  /** The stream is one value that fits, within the budget. */
  ghost predicate WithinBounds(fold: Fold, tokens: seq<Token>, context: Context) {
    exists value :: tokens == Render(value) && Fits(fold, value, 0, context) && Size(value) <= MAX_SCANNED
  }

  /** Scans one value and then insists on the end of the text; `clean` says that nothing unreadable
      follows the last token. */
  method ValidateCatalogJson(fold: Fold, tokens: seq<Token>, clean: bool, context: Context) returns (valid: bool)
    ensures valid <==> clean && WithinBounds(fold, tokens, context)
  {
    var decoder := new Decoder(tokens);
    var scanner := new Scanner(fold);
    var accepted := scanner.Scan(decoder, 0, context);
    DocumentScanned(fold, tokens, context);
    if !accepted {
      return false;
    }
    var trailing := decoder.Next();
    return trailing.None? && clean;
  }

  /** The scan consumes the whole stream exactly when the stream is one value within all bounds. */
  lemma DocumentScanned(fold: Fold, tokens: seq<Token>, context: Context)
    ensures var end := ScanValue(fold, tokens, Mark(0, 0), 0, context);
      WithinBounds(fold, tokens, context) <==> end.Some? && end.value.pos == |tokens|
  {
    hide ScanValue, Fits, Render;
    var end := ScanValue(fold, tokens, Mark(0, 0), 0, context);
    if end.Some? && end.value.pos == |tokens| {
      var value := AcceptedValue(fold, tokens, Mark(0, 0), 0, context);
      assert tokens[0..|tokens|] == tokens;
      ValueScanned(fold, tokens, Mark(0, 0), 0, context, value);
      assert tokens == Render(value);
    }
    if WithinBounds(fold, tokens, context) {
      var value :| tokens == Render(value) && Fits(fold, value, 0, context) && Size(value) <= MAX_SCANNED;
      assert tokens[0..|tokens|] == tokens;
      ValueScanned(fold, tokens, Mark(0, 0), 0, context, value);
    }
  }

  /** No stream is two different values, so the bounds speak about the value the text means. */
  lemma RenderedOnce(first: Json, second: Json)
    requires Render(first) == Render(second)
    ensures first == second
  {
    PrefixFree(first, [], second, []);
  }

  lemma {:induction false} PrefixFree(first: Json, afterFirst: seq<Token>, second: Json, afterSecond: seq<Token>)
    requires Render(first) + afterFirst == Render(second) + afterSecond
    ensures first == second && afterFirst == afterSecond
    decreases first
  {
    var text := Render(first) + afterFirst;
    assert text[0] == Render(first)[0] == Render(second)[0];
    match first {
      case Object(members) =>
        MembersPrefixFree(members, afterFirst, second.members, afterSecond) by {
          assert text[1..] == RenderMembers(members) + [CloseObject] + afterFirst;
          assert text[1..] == RenderMembers(second.members) + [CloseObject] + afterSecond;
        }
      case Array(elements) =>
        ElementsPrefixFree(elements, afterFirst, second.elements, afterSecond) by {
          assert text[1..] == RenderElements(elements) + [CloseArray] + afterFirst;
          assert text[1..] == RenderElements(second.elements) + [CloseArray] + afterSecond;
        }
      case _ =>
        assert text[1..] == afterFirst == afterSecond;
    }
  }

  lemma {:induction false} MembersPrefixFree(first: seq<Member>, afterFirst: seq<Token>, second: seq<Member>, afterSecond: seq<Token>)
    requires RenderMembers(first) + [CloseObject] + afterFirst == RenderMembers(second) + [CloseObject] + afterSecond
    ensures first == second && afterFirst == afterSecond
    decreases first
  {
    hide Render;
    var text := RenderMembers(first) + [CloseObject] + afterFirst;
    assert first != [] ==> text[0] == Text(first[0].key);
    assert second != [] ==> text[0] == Text(second[0].key);
    assert first == [] ==> text[0] == CloseObject;
    assert second == [] ==> text[0] == CloseObject;
    if first == [] {
      assert text[1..] == afterFirst == afterSecond;
    } else {
      var restFirst := RenderMembers(first[1..]) + [CloseObject] + afterFirst;
      var restSecond := RenderMembers(second[1..]) + [CloseObject] + afterSecond;
      assert text[1..] == Render(first[0].value) + restFirst;
      assert text[1..] == Render(second[0].value) + restSecond;
      PrefixFree(first[0].value, restFirst, second[0].value, restSecond);
      MembersPrefixFree(first[1..], afterFirst, second[1..], afterSecond);
      assert first == [first[0]] + first[1..] && second == [second[0]] + second[1..];
    }
  }

  lemma {:induction false} ElementsPrefixFree(first: seq<Json>, afterFirst: seq<Token>, second: seq<Json>, afterSecond: seq<Token>)
    requires RenderElements(first) + [CloseArray] + afterFirst == RenderElements(second) + [CloseArray] + afterSecond
    ensures first == second && afterFirst == afterSecond
    decreases first
  {
    hide Render;
    var text := RenderElements(first) + [CloseArray] + afterFirst;
    if first != [] { StartsLikeAValue(first[0]); assert text[0] == Render(first[0])[0]; }
    if second != [] { StartsLikeAValue(second[0]); assert text[0] == Render(second[0])[0]; }
    assert first == [] ==> text[0] == CloseArray;
    assert second == [] ==> text[0] == CloseArray;
    if first == [] {
      assert text[1..] == afterFirst == afterSecond;
    } else {
      var restFirst := RenderElements(first[1..]) + [CloseArray] + afterFirst;
      var restSecond := RenderElements(second[1..]) + [CloseArray] + afterSecond;
      assert text == Render(first[0]) + restFirst;
      assert text == Render(second[0]) + restSecond;
      PrefixFree(first[0], restFirst, second[0], restSecond);
      ElementsPrefixFree(first[1..], afterFirst, second[1..], afterSecond);
      assert first == [first[0]] + first[1..] && second == [second[0]] + second[1..];
    }
  }
}
