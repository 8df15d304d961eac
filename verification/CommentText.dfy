/** Core rewrites comment lines when it saves a configuration; the Writer predicts the saved text by the
    same rewriting: a line that holds only a comment loses its indentation. */
module CommentText {

  // ---------- lines ----------

  predicate OneLine(s: string) {
    '\n' !in s
  }

  /** The text between the line feeds; a text without line feeds is one line. */
  function Lines(data: string): (lines: seq<string>)
    ensures lines != [] && forall i :: 0 <= i < |lines| ==> OneLine(lines[i])
  {
    if data == [] then [""]
    else
      var rest := Lines(data[1..]);
      if data[0] == '\n' then [""] + rest else [[data[0]] + rest[0]] + rest[1..]
  }

  function Join(lines: seq<string>): string {
    if lines == [] then ""
    else if |lines| == 1 then lines[0]
    else lines[0] + "\n" + Join(lines[1..])
  }

  lemma {:induction false} JoinLines(data: string)
    ensures Join(Lines(data)) == data
  {
    if data != [] {
      JoinLines(data[1..]);
      var rest := Lines(data[1..]);
      var lines := Lines(data);
      assert data == [data[0]] + data[1..];
      if data[0] == '\n' {
        assert lines[1..] == rest;
      } else if |rest| > 1 {
        assert lines[1..] == rest[1..];
        assert Join(lines) == [data[0]] + (rest[0] + "\n" + Join(rest[1..]));
      }
    }
  }

  lemma {:induction false} LinesJoin(lines: seq<string>)
    requires lines != [] && forall i :: 0 <= i < |lines| ==> OneLine(lines[i])
    ensures Lines(Join(lines)) == lines
    decreases |lines|
  {
    if |lines| == 1 {
      LinesPrefix(lines[0], "");
      assert lines[0] + "" == lines[0] && lines == [lines[0]];
    } else {
      var first, rest := lines[0], lines[1..];
      LinesJoin(rest);
      var tail := "\n" + Join(rest);
      assert tail[1..] == Join(rest) && Lines(tail) == [""] + rest;
      LinesPrefix(first, tail);
      assert Join(lines) == first + tail && first + "" == first;
      assert lines == [first] + rest;
    }
  }

  /** A prefix without line feeds belongs to the first line. */
  lemma {:induction false} LinesPrefix(prefix: string, data: string)
    requires OneLine(prefix)
    ensures Lines(prefix + data) == [prefix + Lines(data)[0]] + Lines(data)[1..]
  {
    if prefix == [] {
      assert prefix + data == data;
      assert prefix + Lines(data)[0] == Lines(data)[0];
    } else {
      LinesPrefix(prefix[1..], data);
      assert (prefix + data)[1..] == prefix[1..] + data;
      assert [prefix[0]] + (prefix[1..] + Lines(data)[0]) == prefix + Lines(data)[0];
    }
  }

  // ---------- the rewriting ----------

  predicate Blank(c: char) {
    c == ' ' || c == '\t'
  }

  function Unindented(line: string): string {
    if line != [] && Blank(line[0]) then Unindented(line[1..]) else line
  }

  predicate Comment(line: string) {
    Unindented(line) != [] && Unindented(line)[0] == '#'
  }

  function NormalLine(line: string): string {
    if Comment(line) then Unindented(line) else line
  }

  function NormalLines(lines: seq<string>): seq<string> {
    seq(|lines|, i requires 0 <= i < |lines| => NormalLine(lines[i]))
  }

  function Normalized(data: string): string {
    Join(NormalLines(Lines(data)))
  }

  method TrimBlanks(line: string) returns (trimmed: string)
    ensures trimmed == Unindented(line)
  {
    var start := 0;
    while start < |line| && Blank(line[start])
      invariant start <= |line| && Unindented(line[start..]) == Unindented(line)
    {
      assert line[start..][1..] == line[start + 1..];
      start := start + 1;
    }
    return line[start..];
  }

  method NormalizeCommentIndentation(data: string) returns (text: string)
    ensures text == Normalized(data)
  {
    var original := Lines(data);
    var lines := new string[|original|](i requires 0 <= i < |original| => original[i]);
    var changed := false;
    var i := 0;
    while i < lines.Length
      invariant i <= lines.Length
      invariant forall k :: 0 <= k < i ==> lines[k] == NormalLine(original[k])
      invariant forall k :: i <= k < lines.Length ==> lines[k] == original[k]
      invariant !changed ==> forall k :: 0 <= k < i ==> lines[k] == original[k]
    {
      var trimmed := TrimBlanks(lines[i]);
      UnindentedShorter(lines[i]);
      if |trimmed| != 0 && trimmed[0] == '#' && |trimmed| != |lines[i]| {
        lines[i] := trimmed;
        changed := true;
      }
      i := i + 1;
    }
    assert lines[..] == NormalLines(original);
    JoinLines(data);
    if !changed {
      assert lines[..] == original;
      return data;
    }
    return Join(lines[..]);
  }

  lemma {:induction false} UnindentedShorter(line: string)
    ensures |Unindented(line)| <= |line|
    ensures |Unindented(line)| == |line| ==> Unindented(line) == line
    ensures OneLine(line) ==> OneLine(Unindented(line))
    ensures Unindented(Unindented(line)) == Unindented(line)
  {
    if line != [] && Blank(line[0]) {
      UnindentedShorter(line[1..]);
    }
  }

  // ---------- what it keeps ----------

  /** The text keeps its lines: as many, and each either as it was or a comment without its indentation. */
  lemma {:induction false} LinesKept(data: string)
    ensures Lines(Normalized(data)) == NormalLines(Lines(data))
    ensures |Lines(Normalized(data))| == |Lines(data)|
  {
    var lines := Lines(data);
    forall i | 0 <= i < |lines| ensures OneLine(NormalLines(lines)[i]) {
      UnindentedShorter(lines[i]);
    }
    LinesJoin(NormalLines(lines));
  }

  /** Saving a saved text again changes nothing. */
  lemma {:induction false} NormalizedTwice(data: string)
    ensures Normalized(Normalized(data)) == Normalized(data)
  {
    LinesKept(data);
    var lines := Lines(data);
    forall i | 0 <= i < |lines| ensures NormalLine(NormalLine(lines[i])) == NormalLine(lines[i]) {
      UnindentedShorter(lines[i]);
    }
    assert NormalLines(NormalLines(lines)) == NormalLines(lines);
  }

  /** A text is left alone exactly when none of its comment lines is indented. */
  lemma {:induction false} UnchangedExactly(data: string)
    ensures Normalized(data) == data <==> forall i :: 0 <= i < |Lines(data)| && Comment(Lines(data)[i]) ==> !Blank(Lines(data)[i][0])
  {
    LinesKept(data);
    JoinLines(data);
    var lines := Lines(data);
    forall i | 0 <= i < |lines| && Comment(lines[i]) ensures NormalLine(lines[i]) == lines[i] <==> !Blank(lines[i][0]) {
      UnindentedShorter(lines[i][1..]);
    }
    if forall i :: 0 <= i < |lines| && Comment(lines[i]) ==> !Blank(lines[i][0]) {
      assert NormalLines(lines) == lines;
    } else {
      var i :| 0 <= i < |lines| && Comment(lines[i]) && Blank(lines[i][0]);
      assert NormalLines(lines)[i] != lines[i];
    }
  }

  predicate Blanks(s: string) {
    forall i :: 0 <= i < |s| ==> s[i] == ' ' || s[i] == '\t'
  }

  /** A comment behind blanks. */
  predicate IndentedComment(line: string, blanks: string, rest: string) {
    line == blanks + rest && Blanks(blanks) && rest != "" && rest[0] == '#'
  }

  lemma {:induction false} UnindentedIs(line: string) returns (blanks: string)
    ensures line == blanks + Unindented(line) && Blanks(blanks)
    ensures Unindented(line) != "" ==> Unindented(line)[0] != ' ' && Unindented(line)[0] != '\t'
  {
    if line != [] && Blank(line[0]) {
      blanks := UnindentedIs(line[1..]);
      blanks := [line[0]] + blanks;
      assert line == [line[0]] + line[1..];
    } else {
      blanks := "";
    }
  }

  /** A line of blanks and a comment becomes the comment; any other line stays. */
  lemma LineExactly(line: string)
    ensures forall blanks, rest :: IndentedComment(line, blanks, rest) ==> NormalLine(line) == rest
    ensures (forall blanks, rest :: !IndentedComment(line, blanks, rest)) ==> NormalLine(line) == line
  {
    var found := UnindentedIs(line);
    forall blanks, rest | IndentedComment(line, blanks, rest) ensures NormalLine(line) == rest {
      BlanksEnd(line, found, Unindented(line), blanks, rest);
    }
    if Comment(line) {
      assert IndentedComment(line, found, Unindented(line));
    }
  }

  /** The first character of the line that is no blank. */
  predicate TextStarts(line: string, at: nat) {
    at < |line| && line[at] != ' ' && line[at] != '\t' && forall i :: 0 <= i < at ==> line[i] == ' ' || line[i] == '\t'
  }

  lemma TextStartsAfter(line: string, blanks: string, rest: string)
    requires line == blanks + rest && Blanks(blanks) && rest != "" && rest[0] != ' ' && rest[0] != '\t'
    ensures TextStarts(line, |blanks|) && rest == line[|blanks|..]
  {
    assert forall i :: 0 <= i < |blanks| ==> line[i] == blanks[i];
    assert line[|blanks|] == rest[0];
  }

  lemma TextStartsOnce(line: string, one: nat, two: nat)
    requires TextStarts(line, one) && TextStarts(line, two)
    ensures one == two
  {
  }

  lemma SomethingAfter(line: string, blanks: string, rest: string, at: nat)
    requires line == blanks + rest && Blanks(blanks) && TextStarts(line, at)
    ensures rest != ""
  {
    assert forall i :: 0 <= i < |blanks| ==> line[i] == blanks[i];
  }

  lemma BlanksEnd(line: string, one: string, first: string, two: string, second: string)
    requires line == one + first && Blanks(one) && (first != "" ==> first[0] != ' ' && first[0] != '\t')
    requires IndentedComment(line, two, second)
    ensures first == second
  {
    TextStartsAfter(line, two, second);
    SomethingAfter(line, one, first, |two|);
    TextStartsAfter(line, one, first);
    TextStartsOnce(line, |one|, |two|);
  }
}
