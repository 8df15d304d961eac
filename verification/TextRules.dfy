/** Trimming and measuring of texts, character by character. */
module TextRules {
  import opened YamlTree

  predicate AllSpace(text: string) {
    forall i :: 0 <= i < |text| ==> IsSpace(text[i])
  }

  predicate NoSpaceAround(text: string) {
    text != "" ==> !IsSpace(text[0]) && !IsSpace(text[|text| - 1])
  }

  /** What is left of a text without the space around it. */
  ghost predicate IsTrimmed(text: string, inner: string) {
    NoSpaceAround(inner) && exists front, back :: AllSpace(front) && AllSpace(back) && text == front + inner + back
  }

  /** Space are the characters with the property White_Space. */
  lemma SpaceExactly(c: char)
    ensures IsSpace(c) <==> c in {'\U{9}', '\U{A}', '\U{B}', '\U{C}', '\U{D}', '\U{20}', '\U{85}', '\U{A0}', '\U{1680}', '\U{2000}', '\U{2001}',
      '\U{2002}', '\U{2003}', '\U{2004}', '\U{2005}', '\U{2006}', '\U{2007}', '\U{2008}', '\U{2009}', '\U{200A}', '\U{2028}', '\U{2029}',
      '\U{202F}', '\U{205F}', '\U{3000}'}
  {
  }

  lemma {:induction false} LeftTrims(text: string) returns (front: string)
    ensures AllSpace(front) && text == front + TrimLeft(text)
    ensures TrimLeft(text) != "" ==> !IsSpace(TrimLeft(text)[0])
  {
    hide IsSpace;
    if text != "" && IsSpace(text[0]) {
      front := LeftTrims(text[1..]);
      front := [text[0]] + front;
    } else {
      front := "";
    }
  }

  lemma {:induction false} RightTrims(text: string) returns (back: string)
    ensures AllSpace(back) && text == TrimRight(text) + back
    ensures TrimRight(text) != "" ==> !IsSpace(TrimRight(text)[|TrimRight(text)| - 1]) && TrimRight(text)[0] == text[0]
  {
    hide IsSpace;
    var n := |text| - 1;
    if text != "" && IsSpace(text[n]) {
      back := RightTrims(text[..n]);
      assert text == TrimRight(text) + (back + [text[n]]);
      back := back + [text[n]];
    } else {
      back := "";
    }
  }

  lemma {:induction false} LeftAll(text: string)
    requires AllSpace(text)
    ensures TrimLeft(text) == ""
  {
    hide IsSpace;
    if text != "" {
      LeftAll(text[1..]);
    }
  }

  /** Trimming takes the space around a text, all of it and nothing else. */
  lemma TrimExactly(text: string, inner: string)
    ensures TrimSpace(text) == inner <==> IsTrimmed(text, inner)
  {
    hide IsSpace;
    var front := LeftTrims(text);
    var back := RightTrims(TrimLeft(text));
    assert text == front + TrimSpace(text) + back;
    assert IsTrimmed(text, TrimSpace(text));
    if IsTrimmed(text, inner) {
      TrimmedOnce(text, inner, TrimSpace(text));
    }
  }

  lemma TrimmedOnce(text: string, one: string, two: string)
    requires IsTrimmed(text, one) && IsTrimmed(text, two)
    ensures one == two
  {
    hide IsSpace;
    var a, b :| AllSpace(a) && AllSpace(b) && text == a + one + b;
    var c, d :| AllSpace(c) && AllSpace(d) && text == c + two + d;
    if one != "" {
      Inside(text, a, one, b, c, two, d);
    }
    if two != "" {
      Inside(text, c, two, d, a, one, b);
    }
    assert one == text[|a|..|a| + |one|] && two == text[|c|..|c| + |two|];
  }

  /** One inner part lies inside the other. */
  lemma Inside(text: string, a: string, one: string, b: string, c: string, two: string, d: string)
    requires text == a + one + b && text == c + two + d && AllSpace(c) && AllSpace(d) && one != "" && NoSpaceAround(one)
    ensures |c| <= |a| && |a| + |one| <= |c| + |two|
  {
    hide IsSpace;
    assert text[|a|] == one[0] && text[|a| + |one| - 1] == one[|one| - 1];
    NotInSpace(text, c, two, d, |a|);
    NotInSpace(text, c, two, d, |a| + |one| - 1);
  }

  lemma NotInSpace(text: string, front: string, inner: string, back: string, i: nat)
    requires AllSpace(front) && AllSpace(back) && text == front + inner + back && i < |text| && !IsSpace(text[i])
    ensures |front| <= i < |front| + |inner|
  {
    hide IsSpace;
    if i < |front| || i >= |front| + |inner| {
      SpaceAt(text, front, inner, back, i);
    }
  }

  lemma SpaceAt(text: string, front: string, inner: string, back: string, i: nat)
    requires AllSpace(front) && AllSpace(back) && text == front + inner + back && i < |text| && (i < |front| || i >= |front| + |inner|)
    ensures IsSpace(text[i])
  {
    hide IsSpace;
    if i < |front| {
      assert text[i] == front[i];
    } else {
      assert text[i] == back[i - |front| - |inner|];
    }
  }

  /** The length in UTF-8 is that of its characters, one to four bytes each. */
  lemma {:induction false} BytesExactly(text: string, c: char)
    ensures ByteLength("") == 0
    ensures ByteLength(text + [c]) == ByteLength(text) +
      if c as int < 0x80 then 1 else if c as int < 0x800 then 2 else if c as int < 0x1_0000 then 3 else 4
  {
    if text == "" {
      assert "" + [c] == [c] && [c][1..] == "";
    } else {
      assert (text + [c])[1..] == text[1..] + [c];
      BytesExactly(text[1..], c);
    }
  }
}
