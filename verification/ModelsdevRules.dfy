/** Which entry of a models.dev provider a model name finds, in terms of the texts alone. */
module ModelsdevRules {
  import opened Options
  import opened YamlTree
  import opened ModelsdevIndex

  predicate SameLetters(letter: Letter, one: string, two: string) {
    |one| == |two| && forall i :: 0 <= i < |one| ==> letter(one[i]) == letter(two[i])
  }

  /** An entry counts if it says anything. */
  predicate Counts(model: Model) {
    model.context > 0 || model.maxOutput > 0 || |model.inputs| > 0 || |model.outputs| > 0
  }

  /** The text is what follows the last slash. */
  ghost predicate LastPart(id: string, part: string) {
    '/' !in part && (part == id || exists front :: id == front + "/" + part)
  }

  predicate HasKeyText(letter: Letter, models: seq<Model>, text: string, model: Model) {
    model in models && Counts(model) && SameLetters(letter, model.key, text)
  }

  predicate HasIdText(letter: Letter, models: seq<Model>, text: string, model: Model) {
    model in models && Counts(model) && SameLetters(letter, model.id, text)
  }

  ghost predicate HasLastText(letter: Letter, models: seq<Model>, text: string, model: Model) {
    model in models && Counts(model) && exists part :: LastPart(model.id, part) && SameLetters(letter, part, text)
  }

  ghost predicate OnlyId(letter: Letter, models: seq<Model>, text: string, model: Model) {
    HasIdText(letter, models, text, model) && forall other :: HasIdText(letter, models, text, other) ==> other == model
  }

  ghost predicate OnlyLast(letter: Letter, models: seq<Model>, text: string, model: Model) {
    HasLastText(letter, models, text, model) && forall other :: HasLastText(letter, models, text, other) ==> other == model
  }

  /** A name in two parts. */
  predicate InTwo(id: string, provider: string, rest: string) {
    id == provider + "/" + rest && '/' !in provider && '/' !in rest
  }

  /** The name without the space around it is a key; or no key, and the identifier of one entry only; or neither, and
      after a provider and a slash the last part of the identifier of one entry only. */
  ghost predicate Finds(letter: Letter, models: seq<Model>, name: string, model: Model) {
    var id := TrimSpace(name);
    && id != ""
    && (if exists other :: HasKeyText(letter, models, id, other) then HasKeyText(letter, models, id, model)
        else if exists other :: OnlyId(letter, models, id, other) then OnlyId(letter, models, id, model)
        else exists provider, rest :: InTwo(id, provider, rest) && OnlyLast(letter, models, rest, model))
  }

  lemma LettersAre(letter: Letter, one: string, two: string)
    ensures Lower(letter, one) == Lower(letter, two) <==> SameLetters(letter, one, two)
  {
    var a, b := Lower(letter, one), Lower(letter, two);
    if a == b {
      forall i | 0 <= i < |one| ensures letter(one[i]) == letter(two[i]) {
        assert a[i] == b[i];
      }
    }
    if SameLetters(letter, one, two) {
      assert forall i :: 0 <= i < |a| ==> a[i] == b[i];
    }
  }

  lemma {:induction false} AfterFirst(id: string) returns (front: string)
    requires '/' in id
    ensures '/' !in front && id == front + "/" + AfterSlash(id)
  {
    if id[0] == '/' {
      front := "";
      assert id == "/" + id[1..];
    } else {
      assert id == [id[0]] + id[1..];
      front := AfterFirst(id[1..]);
      front := [id[0]] + front;
    }
  }

  lemma {:induction false} LastIs(id: string)
    ensures LastPart(id, Bare(id))
    decreases |id|
  {
    if '/' in id {
      var front := AfterFirst(id);
      LastIs(AfterSlash(id));
      var part, rest := Bare(id), AfterSlash(id);
      if part != rest {
        var inner :| rest == inner + "/" + part;
        assert id == (front + "/" + inner) + "/" + part;
      }
    }
  }

  lemma LastOnce(id: string, one: string, two: string)
    requires LastPart(id, one) && LastPart(id, two)
    ensures one == two
  {
    LastStarts(id, one);
    LastStarts(id, two);
    assert one == id[|id| - |one|..] && two == id[|id| - |two|..];
  }

  /** Before the last part there is a slash, or nothing. */
  lemma LastStarts(id: string, part: string)
    requires LastPart(id, part)
    ensures |part| <= |id| && part == id[|id| - |part|..]
    ensures |part| < |id| ==> id[|id| - |part| - 1] == '/'
    ensures forall i :: |id| - |part| <= i < |id| ==> id[i] != '/'
  {
    if part != id {
      var front :| id == front + "/" + part;
      assert id[|front|] == '/' && id[|front| + 1..] == part;
    }
    assert forall i :: |id| - |part| <= i < |id| ==> id[i] == part[i - (|id| - |part|)];
  }

  lemma MatchesAre(letter: Letter, models: seq<Model>, text: string, model: Model)
    ensures Candidate(letter, models, UnderKey, Lower(letter, text), model) <==> HasKeyText(letter, models, text, model)
    ensures Candidate(letter, models, UnderId, Lower(letter, text), model) <==> HasIdText(letter, models, text, model)
    ensures Candidate(letter, models, UnderBare, Lower(letter, text), model) <==> HasLastText(letter, models, text, model)
  {
    LettersAre(letter, model.key, text);
    LettersAre(letter, model.id, text);
    LettersAre(letter, Bare(model.id), text);
    LastIs(model.id);
    if HasLastText(letter, models, text, model) {
      var part :| LastPart(model.id, part) && SameLetters(letter, part, text);
      LastOnce(model.id, part, Bare(model.id));
    }
    hide Lower, SameLetters, LastPart, Bare;
  }

  lemma TwoParts(id: string)
    ensures Slashes(id) == 1 && SlashIn(id) <==> exists provider, rest :: InTwo(id, provider, rest)
    ensures forall provider, rest :: InTwo(id, provider, rest) ==> SlashIn(id) && rest == AfterSlash(id)
  {
    SlashesAre(id);
    if '/' in id {
      var front := AfterFirst(id);
      SlashesRest(id);
      SlashesAre(AfterSlash(id));
      if Slashes(id) == 1 {
        assert InTwo(id, front, AfterSlash(id));
      }
      forall provider, rest | InTwo(id, provider, rest) ensures rest == AfterSlash(id) {
        FirstOnce(id, front, AfterSlash(id), provider, rest);
      }
    }
    forall provider, rest | InTwo(id, provider, rest) ensures '/' in id {
      assert id[|provider|] == '/';
    }
  }

  lemma FirstOnce(id: string, one: string, first: string, two: string, second: string)
    requires id == one + "/" + first && id == two + "/" + second && '/' !in one && '/' !in two
    ensures first == second
  {
    FirstSlash(id, one, first);
    FirstSlash(id, two, second);
    assert |one| == |two|;
  }

  predicate SlashFirstAt(id: string, at: nat) {
    at < |id| && id[at] == '/' && forall i :: 0 <= i < at ==> id[i] != '/'
  }

  lemma FirstSlash(id: string, front: string, rest: string)
    requires id == front + "/" + rest && '/' !in front
    ensures SlashFirstAt(id, |front|) && rest == id[|front| + 1..]
  {
    assert forall i :: 0 <= i < |front| ==> id[i] == front[i];
  }

  lemma {:induction false} SlashesRest(id: string)
    requires '/' in id
    ensures Slashes(id) == 1 + Slashes(AfterSlash(id))
  {
    if id[0] != '/' {
      assert id == [id[0]] + id[1..];
      SlashesRest(id[1..]);
    }
  }

  /** A lookup finds exactly this entry. */
  lemma LookupFinds(letter: Letter, models: seq<Model>, name: string, model: Model)
    requires KeysDiffer(letter, models)
    ensures Scanned(letter, models, name) == Some(model) <==> Finds(letter, models, name, model)
  {
    LookupExactly(letter, models, name, model);
    FoundIs(letter, models, name, model);
  }

  lemma KeyMatch(letter: Letter, models: seq<Model>, text: string)
    ensures AnyCandidate(letter, models, UnderKey, Lower(letter, text)) <==> exists other :: HasKeyText(letter, models, text, other)
  {
    forall other ensures Candidate(letter, models, UnderKey, Lower(letter, text), other) <==> HasKeyText(letter, models, text, other) {
      MatchesAre(letter, models, text, other);
    }
    hide Candidate, HasKeyText, Lower;
  }

  lemma SolesAre(letter: Letter, models: seq<Model>, text: string, model: Model)
    ensures Sole(letter, models, UnderId, Lower(letter, text), model) <==> OnlyId(letter, models, text, model)
    ensures Sole(letter, models, UnderBare, Lower(letter, text), model) <==> OnlyLast(letter, models, text, model)
  {
    forall other
      ensures Candidate(letter, models, UnderId, Lower(letter, text), other) <==> HasIdText(letter, models, text, other)
      ensures Candidate(letter, models, UnderBare, Lower(letter, text), other) <==> HasLastText(letter, models, text, other)
    {
      MatchesAre(letter, models, text, other);
    }
    hide Candidate, HasIdText, HasLastText, Lower;
  }

  lemma FoundIs(letter: Letter, models: seq<Model>, name: string, model: Model)
    ensures Found(letter, models, name, model) <==> Finds(letter, models, name, model)
  {
    var id := TrimSpace(name);
    TwoParts(id);
    KeyMatch(letter, models, id);
    MatchesAre(letter, models, id, model);
    forall other ensures Sole(letter, models, UnderId, Lower(letter, id), other) <==> OnlyId(letter, models, id, other) {
      SolesAre(letter, models, id, other);
    }
    if SlashIn(id) {
      SolesAre(letter, models, AfterSlash(id), model);
    }
    hide TrimSpace, Candidate, HasKeyText, HasIdText, HasLastText, InTwo, Lower, Slashes, Sole, OnlyId, OnlyLast, AnyCandidate;
  }
}
