/** Lines and `|`-separated fields, and the way back. */
module DelimitedText {
  import opened Common

  const MAXIMUM_LINE: nat := 2048

  ghost predicate Lacks(s: string, c: char) {
    forall i :: 0 <= i < |s| ==> s[i] != c
  }

  lemma LacksTail(s: string, c: char)
    requires Lacks(s, c) && s != ""
    ensures s[0] != c && Lacks(s[1..], c)
  {
  }

  /** First position of a character, or the length. */
  function Find(s: string, c: char): (n: nat)
    ensures n <= |s| && (n < |s| ==> s[n] == c)
  {
    if s == "" || s[0] == c then 0 else Find(s[1..], c) + 1
  }

  lemma {:induction false} FindLacks(s: string, c: char)
    ensures Lacks(s[..Find(s, c)], c)
  {
    if s != "" && s[0] != c {
      FindLacks(s[1..], c);
      var n := Find(s, c);
      assert s[..n] == [s[0]] + s[1..][..n - 1];
    }
  }

  lemma {:induction false} FindIn(before: string, c: char, after: string)
    requires Lacks(before, c)
    ensures Find(before, c) == |before| && Find(before + [c] + after, c) == |before|
  {
    var s := before + [c] + after;
    if before != "" {
      LacksTail(before, c);
      FindIn(before[1..], c, after);
      assert s[1..] == before[1..] + [c] + after;
    }
  }

  // ---------------------------------------------------------------------------
  // Fields.

  function Fields(line: string): (fields: seq<string>)
    ensures |fields| > 0
    decreases |line|
  {
    var d := Find(line, '|');
    if d == |line| then [line] else [line[..d]] + Fields(line[d + 1..])
  }

  function Join(fields: seq<string>): string
    requires |fields| > 0
  {
    if |fields| == 1 then fields[0] else fields[0] + ['|'] + Join(fields[1..])
  }

  /** Splitting what was joined gives the fields back. */
  lemma {:induction false} FieldsOfJoin(fields: seq<string>)
    requires |fields| > 0 && forall i :: 0 <= i < |fields| ==> Lacks(fields[i], '|')
    ensures Fields(Join(fields)) == fields
    decreases |fields|
  {
    hide Lacks, Find;
    if |fields| == 1 {
      FindIn(fields[0], '|', "");
    } else {
      var rest := Join(fields[1..]);
      FieldsOfJoin(fields[1..]);
      FieldsOfMore(fields[0], rest);
    }
  }

  lemma FieldsOfMore(first: string, rest: string)
    requires Lacks(first, '|')
    ensures Fields(first + ['|'] + rest) == [first] + Fields(rest)
  {
    hide Lacks, Find;
    var line := first + ['|'] + rest;
    FindIn(first, '|', rest);
    assert line[..|first|] == first && line[|first| + 1..] == rest;
  }

  method Split(line: string) returns (fields: seq<string>)
    ensures fields == Fields(line)
  {
    hide Find, Fields;
    fields := [];
    var begin := 0;
    assert line[0..] == line;
    while true
      invariant 0 <= begin <= |line| && fields + Fields(line[begin..]) == Fields(line)
      decreases |line| - begin
    {
      var rest := line[begin..];
      var d := Find(rest, '|');
      FieldsStep(rest, fields);
      fields := fields + [rest[..d]];
      if d == |rest| {
        return;
      }
      assert rest[d + 1..] == line[begin + d + 1..];
      begin := begin + d + 1;
    }
  }

  lemma FieldsStep(rest: string, found: seq<string>)
    ensures var d := Find(rest, '|');
            found + Fields(rest) == if d == |rest| then found + [rest[..d]] else found + [rest[..d]] + Fields(rest[d + 1..])
  {
    hide Find;
    var d := Find(rest, '|');
    if d == |rest| {
      assert rest[..d] == rest;
    } else {
      Associates(found, rest[..d], Fields(rest[d + 1..]));
      hide Fields;
    }
  }

  // ---------------------------------------------------------------------------
  // Lines.

  function Prepend(line: string, rest: Option<seq<string>>): Option<seq<string>> {
    if rest == None then None else Some([line] + rest.value)
  }

  function LinesOf(text: string): (lines: Option<seq<string>>)
    decreases |text|
  {
    if text == "" then Some([])
    else
      var n := Find(text, '\n');
      if n == |text| || n > MAXIMUM_LINE then None else Prepend(text[..n], LinesOf(text[n + 1..]))
  }

  function Unlines(lines: seq<string>): string {
    if lines == [] then "" else lines[0] + ['\n'] + Unlines(lines[1..])
  }

  /** A line the reader takes. */
  ghost predicate IsLine(s: string) {
    Lacks(s, '\n') && |s| <= MAXIMUM_LINE
  }

  lemma LinesOfMore(line: string, rest: string)
    requires IsLine(line)
    ensures LinesOf(line + ['\n'] + rest) == Prepend(line, LinesOf(rest))
  {
    hide Find, Lacks;
    var text := line + ['\n'] + rest;
    FindIn(line, '\n', rest);
    assert text[..|line|] == line && text[|line| + 1..] == rest;
  }

  lemma {:induction false} LinesOfUnlines(lines: seq<string>)
    requires forall i :: 0 <= i < |lines| ==> IsLine(lines[i])
    ensures LinesOf(Unlines(lines)) == Some(lines)
    decreases |lines|
  {
    hide IsLine, LinesOf;
    if lines == [] {
      NoLines();
    } else {
      LinesOfUnlines(lines[1..]);
      LinesOfMore(lines[0], Unlines(lines[1..]));
      assert [lines[0]] + lines[1..] == lines;
    }
  }

  lemma NoLines()
    ensures LinesOf("") == Some([])
  {
  }

  lemma {:induction false} UnlinesOfLines(text: string)
    requires LinesOf(text).Some?
    ensures Unlines(LinesOf(text).value) == text
    ensures forall i :: 0 <= i < |LinesOf(text).value| ==> IsLine(LinesOf(text).value[i])
    decreases |text|
  {
    hide Find, Lacks;
    if text != "" {
      var n := Find(text, '\n');
      FindLacks(text, '\n');
      UnlinesOfLines(text[n + 1..]);
      assert text == text[..n] + ['\n'] + text[n + 1..];
      assert LinesOf(text).value[1..] == LinesOf(text[n + 1..]).value;
    }
  }

  lemma {:induction false} UnlinesAppend(a: seq<string>, b: seq<string>)
    ensures Unlines(a + b) == Unlines(a) + Unlines(b)
    decreases |a|
  {
    if a == [] {
      assert a + b == b;
    } else {
      assert (a + b)[1..] == a[1..] + b;
      UnlinesAppend(a[1..], b);
    }
  }

  /** The lines still to come after those already found. */
  function After(found: seq<string>, rest: Option<seq<string>>): Option<seq<string>> {
    if rest == None then None else Some(found + rest.value)
  }

  method SplitLines(text: string) returns (lines: Option<seq<string>>)
    ensures lines == LinesOf(text)
  {
    hide Find, LinesOf, After;
    var begin, found: seq<string> := 0, [];
    assert text[0..] == text;
    AfterNothing(LinesOf(text));
    while begin < |text|
      invariant 0 <= begin <= |text| && LinesOf(text) == After(found, LinesOf(text[begin..]))
      decreases |text| - begin
    {
      var rest := text[begin..];
      var n := Find(rest, '\n');
      LinesStep(rest, found);
      if n == |rest| || n > MAXIMUM_LINE {
        return None;
      }
      assert rest[n + 1..] == text[begin + n + 1..];
      found := found + [rest[..n]];
      begin := begin + n + 1;
    }
    assert text[begin..] == "";
    LinesEnd(found);
    return Some(found);
  }

  lemma AfterNothing(lines: Option<seq<string>>)
    ensures After([], lines) == lines
  {
    if lines.Some? {
      assert [] + lines.value == lines.value;
    }
  }

  lemma LinesEnd(found: seq<string>)
    ensures After(found, LinesOf("")) == Some(found)
  {
    assert found + [] == found;
  }

  lemma LinesStep(rest: string, found: seq<string>)
    requires rest != ""
    ensures var n := Find(rest, '\n');
            After(found, LinesOf(rest))
            == if n == |rest| || n > MAXIMUM_LINE then None else After(found + [rest[..n]], LinesOf(rest[n + 1..]))
  {
    hide Find;
    var n := Find(rest, '\n');
    if n < |rest| && n <= MAXIMUM_LINE && LinesOf(rest[n + 1..]).Some? {
      Associates(found, rest[..n], LinesOf(rest[n + 1..]).value);
    }
  }

  lemma Associates(found: seq<string>, x: string, rest: seq<string>)
    ensures found + ([x] + rest) == found + [x] + rest
  {
  }

  // ---------------------------------------------------------------------------
  // First occurrence of a marker.

  predicate StartsWith(s: string, prefix: string) {
    |prefix| <= |s| && s[..|prefix|] == prefix
  }

  function FirstOccurrence(text: string, marker: string): (n: Option<nat>)
    requires marker != ""
    decreases |text|
  {
    if StartsWith(text, marker) then Some(0)
    else if text == "" then None
    else
      var rest := FirstOccurrence(text[1..], marker);
      if rest == None then None else Some(rest.value + 1)
  }

  lemma {:induction false} SkipTo(before: string, after: string, marker: string)
    requires marker != "" && Lacks(before, marker[0]) && FirstOccurrence(after, marker).Some?
    ensures FirstOccurrence(before + after, marker) == Some(|before| + FirstOccurrence(after, marker).value)
    decreases |before|
  {
    if before == "" {
      assert before + after == after;
    } else {
      LacksTail(before, marker[0]);
      SkipTo(before[1..], after, marker);
      OtherStart(before + after, marker);
      assert (before + after)[1..] == before[1..] + after;
    }
  }

  lemma OtherStart(text: string, marker: string)
    requires text != "" && marker != ""
    ensures StartsWith(text, marker) ==> text[0] == marker[0]
  {
    if StartsWith(text, marker) {
      assert text[0] == text[..|marker|][0];
    }
  }

  /** A word without line break starts a text exactly if it starts its first line. */
  lemma WordInFirstLine(line: string, rest: string, word: string)
    requires Lacks(word, '\n')
    ensures StartsWith(line + ['\n'] + rest, word) <==> StartsWith(line, word)
  {
    var text := line + ['\n'] + rest;
    if |word| <= |line| {
      assert text[..|word|] == line[..|word|];
    } else if |word| <= |text| {
      assert text[..|word|][|line|] == '\n';
      assert word[|line|] != '\n';
    }
  }

  lemma AfterBreak(rest: string, word: string)
    ensures StartsWith(['\n'] + rest, ['\n'] + word) <==> StartsWith(rest, word)
  {
    var text, marker := ['\n'] + rest, ['\n'] + word;
    if |word| <= |rest| {
      assert text[..|marker|] == ['\n'] + rest[..|word|];
      assert (['\n'] + rest[..|word|])[1..] == rest[..|word|];
      assert marker[1..] == word;
    }
  }

  /** A word at the start of a line is first found where the first such line begins. */
  lemma {:induction false} WordFoundAt(lines: seq<string>, rest: string, word: string)
    requires |lines| > 0 && Lacks(word, '\n') && StartsWith(rest, word)
    requires forall i :: 0 <= i < |lines| ==> Lacks(lines[i], '\n')
    requires forall i :: 1 <= i < |lines| ==> !StartsWith(lines[i], word)
    ensures |Unlines(lines)| > 0
    ensures FirstOccurrence(Unlines(lines) + rest, ['\n'] + word) == Some(|Unlines(lines)| - 1)
    decreases |lines|
  {
    hide Lacks, StartsWith, Unlines, FirstOccurrence;
    var first, tail := lines[0], Unlines(lines[1..]) + rest;
    AfterBreak(tail, word);
    OccurrenceAtBreak(tail, ['\n'] + word);
    if |lines| == 1 {
      UnlinesStep(lines);
      assert Unlines(lines[1..]) + rest == rest;
    } else {
      WordFoundAt(lines[1..], rest, word);
      UnlinesStep(lines[1..]);
      assert tail == lines[1] + ['\n'] + (Unlines(lines[1..][1..]) + rest);
      WordInFirstLine(lines[1], Unlines(lines[1..][1..]) + rest, word);
    }
    UnlinesStep(lines);
    SkipTo(first, ['\n'] + tail, ['\n'] + word);
    assert Unlines(lines) + rest == first + (['\n'] + tail);
  }

  lemma UnlinesStep(lines: seq<string>)
    requires lines != []
    ensures Unlines(lines) == lines[0] + ['\n'] + Unlines(lines[1..])
    ensures |lines| == 1 ==> Unlines(lines[1..]) == ""
  {
  }

  lemma OccurrenceAtBreak(tail: string, marker: string)
    requires marker != ""
    ensures StartsWith(['\n'] + tail, marker) ==> FirstOccurrence(['\n'] + tail, marker) == Some(0)
    ensures !StartsWith(['\n'] + tail, marker) && FirstOccurrence(tail, marker).Some? ==>
              FirstOccurrence(['\n'] + tail, marker) == Some(FirstOccurrence(tail, marker).value + 1)
  {
    hide StartsWith;
    assert (['\n'] + tail)[1..] == tail;
  }
}
