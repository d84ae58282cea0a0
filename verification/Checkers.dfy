/** The standard checker that compares a program's output with the reference, line by line. */
module Checkers {
  import opened Text
  import opened Wrappers

  /** What a checker says; the source's empty message is `Match`. */
  datatype Message =
    | Match
    | InvalidCharacters
    | StrictMismatch(reference: string, stdout: string)
    | LineCountMismatch(reference: string, stdout: string)
    | LineMismatch(expected: string, got: string)

  // ---------------------------------------------------------------- text

  function TrimAll(lines: seq<string>): seq<string> {
    seq(|lines|, i requires 0 <= i < |lines| => Trim(lines[i]))
  }

  /** The trimmed lines of the trimmed text. */
  function NormalLines(text: string): seq<string> { TrimAll(Split(TrimLeft(TrimRight(text)), '\n')) }

  function NormalForm(text: string): string { Join(NormalLines(text), '\n') }

  predicate IsStrict(options: string) { "strict" in Split(options, ' ') }

  /** The mode is set by one word among the options. */
  lemma StrictIff(words: seq<string>)
    requires words != [] && forall word | word in words :: ' ' !in word
    ensures IsStrict(Join(words, ' ')) <==> "strict" in words
  {
    SplitJoin(words, ' ');
  }

  /** Compares decoded texts; an output that cannot be decoded is None. */
  method MatchText(stdout: Option<string>, reference: string, options: string) returns (m: Message)
    ensures m.InvalidCharacters? <==> stdout.None?
    ensures stdout.Some? && IsStrict(options) ==>
              m == if TrimRight(stdout.value) == TrimRight(reference) then Match
                   else StrictMismatch(TrimRight(reference), TrimRight(stdout.value))
    ensures stdout.Some? && !IsStrict(options) ==>
              (m == Match <==> NormalForm(stdout.value) == NormalForm(reference))
    ensures stdout.Some? && !IsStrict(options) && m != Match ==>
              var a, b := NormalLines(stdout.value), NormalLines(reference);
              if |a| != |b| then m == LineCountMismatch(TrimRight(reference), TrimRight(stdout.value))
              else IsFirstMismatch(a, b, m)
  {
    if stdout.None? {
      return InvalidCharacters;
    }
    var opts := Split(options, ' ');
    var stdoutString := TrimRight(stdout.value);
    var referenceString := TrimRight(reference);
    if "strict" in opts {
      if stdoutString == referenceString {
        return Match;
      } else {
        return StrictMismatch(referenceString, stdoutString);
      }
    }
    NormalFormsAgreeIff(stdout.value, reference);
    var stdoutLines := Split(TrimLeft(stdoutString), '\n');
    var referenceLines := Split(TrimLeft(referenceString), '\n');
    if |stdoutLines| != |referenceLines| {
      return LineCountMismatch(referenceString, stdoutString);
    }
    m := MatchLines(stdoutLines, referenceLines);
  }

  /** The loop over the lines: the message names the first pair that differs. */
  method MatchLines(stdoutLines: seq<string>, referenceLines: seq<string>) returns (m: Message)
    requires |stdoutLines| == |referenceLines|
    ensures m == Match <==> TrimAll(stdoutLines) == TrimAll(referenceLines)
    ensures m != Match ==> IsFirstMismatch(TrimAll(stdoutLines), TrimAll(referenceLines), m)
  {
    for i := 0 to |stdoutLines|
      invariant forall k | 0 <= k < i :: Trim(stdoutLines[k]) == Trim(referenceLines[k])
    {
      var a := Trim(stdoutLines[i]);
      var b := Trim(referenceLines[i]);
      if a != b {
        assert TrimAll(stdoutLines)[i] == a && TrimAll(referenceLines)[i] == b;
        assert TrimAll(stdoutLines)[..i] == TrimAll(referenceLines)[..i];
        return LineMismatch(b, a);
      }
    }
    return Match;
  }

  predicate IsFirstMismatch(a: seq<string>, b: seq<string>, m: Message) {
    |a| == |b| && exists i :: 0 <= i < |a| && a[i] != b[i] && a[..i] == b[..i] && m == LineMismatch(b[i], a[i])
  }

  lemma NormalLinesAreClean(text: string)
    ensures NormalLines(text) != [] && forall line | line in NormalLines(text) :: '\n' !in line && IsTrimmed(line)
  {
    var lines := Split(TrimLeft(TrimRight(text)), '\n');
    SplitPartsAreFree(TrimLeft(TrimRight(text)), '\n');
    forall i | 0 <= i < |lines| ensures '\n' !in Trim(lines[i]) && IsTrimmed(Trim(lines[i])) {
      assert lines[i] in lines;
      TrimIsTrimmed(lines[i]);
      TrimIsPart(lines[i], '\n');
    }
  }

  lemma TrimIsPart(s: string, c: char)
    requires c !in s
    ensures c !in Trim(s)
  {
    TrimLeftIsPart(s, c);
    TrimRightShape(TrimLeft(s));
    var t, r := TrimLeft(s), Trim(s);
    assert forall i | 0 <= i < |r| :: r[i] == t[i] && t[i] in t;
  }

  lemma {:induction false} TrimLeftIsPart(s: string, c: char)
    requires c !in s
    ensures c !in TrimLeft(s)
  {
    if s != "" && IsSpace(s[0]) {
      TrimLeftIsPart(s[1..], c);
    }
  }

  /** Equal normal forms are equal lists of lines. */
  lemma NormalFormsAgreeIff(a: string, b: string)
    ensures NormalForm(a) == NormalForm(b) <==> NormalLines(a) == NormalLines(b)
  {
    NormalLinesAreClean(a);
    NormalLinesAreClean(b);
    SplitJoin(NormalLines(a), '\n');
    SplitJoin(NormalLines(b), '\n');
  }

  lemma {:induction false} JoinKeepsEnds(lines: seq<string>)
    requires lines != [] && (|lines| > 1 ==> lines[0] != "" && lines[|lines| - 1] != "")
    requires lines[0] != "" ==> !IsSpace(lines[0][0])
    requires var last := lines[|lines| - 1]; last != "" ==> !IsSpace(last[|last| - 1])
    ensures IsTrimmed(Join(lines, '\n'))
  {
    if |lines| > 1 {
      JoinLast(lines);
    }
  }

  lemma {:induction false} JoinLast(lines: seq<string>)
    requires lines != [] && lines[|lines| - 1] != ""
    ensures var text, last := Join(lines, '\n'), lines[|lines| - 1];
            text != "" && text[|text| - 1] == last[|last| - 1]
  {
    if |lines| > 1 {
      JoinLast(lines[1..]);
    }
  }

  /** The lines at the ends of a trimmed text are blank only if it is empty. */
  lemma EndLinesAreNotBlank(text: string)
    requires IsTrimmed(text)
    ensures var lines := TrimAll(Split(text, '\n'));
            |lines| > 1 ==> lines[0] != "" && lines[|lines| - 1] != ""
  {
    var lines := Split(text, '\n');
    if |lines| > 1 {
      JoinSplit(text, '\n');
      assert text != "";
      FirstLine(text, lines);
      LastLine(text, lines);
      StaysVisible(lines[0], 0);
      StaysVisible(lines[|lines| - 1], |lines[|lines| - 1]| - 1);
    }
  }

  lemma FirstLine(text: string, lines: seq<string>)
    requires text != "" && !IsSpace(text[0]) && |lines| > 1 && text == Join(lines, '\n')
    ensures lines[0] != "" && lines[0][0] == text[0]
  {
    assert text == lines[0] + "\n" + Join(lines[1..], '\n');
    assert text[|lines[0]|] == '\n';
  }

  lemma {:induction false} LastLine(text: string, lines: seq<string>)
    requires text != "" && !IsSpace(text[|text| - 1]) && |lines| > 1 && text == Join(lines, '\n')
    ensures lines[|lines| - 1] != "" && lines[|lines| - 1][|lines[|lines| - 1]| - 1] == text[|text| - 1]
    decreases |lines|
  {
    var rest := Join(lines[1..], '\n');
    assert text == lines[0] + "\n" + rest;
    assert text[|lines[0]|] == '\n';
    if |lines| > 2 {
      LastLine(rest, lines[1..]);
    }
  }

  lemma {:induction false} StaysVisible(s: string, k: nat)
    requires k < |s| && !IsSpace(s[k])
    ensures Trim(s) != ""
  {
    if IsSpace(s[0]) {
      StaysVisible(s[1..], k - 1);
    } else {
      RightStaysVisible(s);
    }
  }

  lemma {:induction false} RightStaysVisible(s: string)
    requires s != "" && !IsSpace(s[0])
    ensures TrimRight(s) != ""
  {
    if IsSpace(s[|s| - 1]) {
      RightStaysVisible(s[..|s| - 1]);
    }
  }

  /** A text in normal form is its own normal form. */
  lemma NormalFormIsFixed(text: string)
    ensures NormalForm(NormalForm(text)) == NormalForm(text)
  {
    var _, _ := TrimmedPart(text);
    NormalLinesAreClean(text);
    EndLinesAreNotBlank(TrimLeft(TrimRight(text)));
    LinesAreNormal(NormalLines(text));
  }

  /** Strict acceptance implies lax acceptance; on texts in normal form they are the same. */
  lemma StrictImpliesLax(stdout: string, reference: string)
    ensures TrimRight(stdout) == TrimRight(reference) ==> NormalForm(stdout) == NormalForm(reference)
    ensures NormalForm(stdout) == stdout && NormalForm(reference) == reference ==>
              (TrimRight(stdout) == TrimRight(reference) <==> NormalForm(stdout) == NormalForm(reference))
  {
  }

  /** The converse fails for every text that is not blank: white space in front of it is forgiven
      by lax mode and not by strict mode. */
  lemma LaxForgivesIndent(space: char, text: string)
    requires IsSpace(space) && TrimRight(text) != ""
    ensures NormalForm([space] + text) == NormalForm(text)
    ensures TrimRight([space] + text) != TrimRight(text)
  {
    IndentStays(space, text);
    var kept := TrimRight(text);
    assert ([space] + kept)[1..] == kept;
    assert |[space] + kept| != |kept|;
  }

  lemma {:induction false} IndentStays(space: char, text: string)
    requires TrimRight(text) != ""
    ensures TrimRight([space] + text) == [space] + TrimRight(text)
  {
    if IsSpace(text[|text| - 1]) {
      var shorter := text[..|text| - 1];
      assert ([space] + text)[..|text|] == [space] + shorter;
      IndentStays(space, shorter);
    }
  }

  /** White space around the lines is all that lax acceptance forgives, and it forgives it at every
      line: texts whose lines, trimmed, are `a` and `b`, the first and the last not blank, are accepted
      for each other if and only if `a` is `b`. */
  lemma LinesAreTold(padded1: seq<string>, a: seq<string>, padded2: seq<string>, b: seq<string>)
    requires IsLines(a) && IsLines(b) && Pads(padded1, a) && Pads(padded2, b)
    ensures NormalForm(Join(padded1, '\n')) == NormalForm(Join(padded2, '\n')) <==> a == b
  {
    PaddingIsForgiven(padded1, a);
    PaddingIsForgiven(padded2, b);
    SplitJoin(a, '\n');
    SplitJoin(b, '\n');
  }

  /** The same lines, each with white space around it. */
  predicate Pads(padded: seq<string>, lines: seq<string>) {
    |padded| == |lines| && forall i | 0 <= i < |lines| :: '\n' !in padded[i] && Trim(padded[i]) == lines[i]
  }

  lemma PaddingIsForgiven(padded: seq<string>, lines: seq<string>)
    requires IsLines(lines) && Pads(padded, lines)
    ensures NormalForm(Join(padded, '\n')) == Join(lines, '\n')
  {
    if |lines| == 1 {
      TrimCommutes(padded[0]);
      TrimIsTrimmed(padded[0]);
      LinesAreNormal(lines);
    } else {
      var inner := EndsTrimmed(padded, lines);
      TrimCommutes(Join(padded, '\n'));
      assert forall line | line in inner :: '\n' !in line;
      SplitJoin(inner, '\n');
      assert TrimAll(inner) == lines;
    }
  }

  /** Trimming a text of several lines trims the first on the left and the last on the right. */
  lemma EndsTrimmed(padded: seq<string>, lines: seq<string>) returns (inner: seq<string>)
    requires IsLines(lines) && Pads(padded, lines) && |lines| > 1
    ensures Pads(inner, lines) && Trim(Join(padded, '\n')) == Join(inner, '\n')
  {
    var n := |lines| - 1;
    var middle := padded[1..n];
    var before, first := LeftTrimmed(padded[0], lines[0]);
    var last, after := RightTrimmed(padded[n], lines[n]);
    inner := [first] + middle + [last];
    assert padded == [before + first] + (middle + [last + after]);
    JoinPrepends(before, first, middle + [last + after], '\n');
    assert [first] + (middle + [last + after]) == ([first] + middle) + [last + after];
    JoinAppends([first] + middle, last, after, '\n');
    InnerEnds(first, middle, last);
    assert before + (Join(inner, '\n') + after) == before + Join(inner, '\n') + after;
    TrimTakes(before, Join(inner, '\n'), after);
    assert forall i | 0 < i < n :: inner[i] == padded[i];
  }

  lemma InnerEnds(first: string, middle: seq<string>, last: string)
    requires first != "" && last != ""
    ensures var text := Join([first] + middle + [last], '\n');
            text != "" && text[0] == first[0] && text[|text| - 1] == last[|last| - 1]
  {
    assert [first] + middle + [last] == [first] + (middle + [last]);
    JoinLast([first] + middle + [last]);
  }

  lemma LeftTrimmed(s: string, core: string) returns (before: string, rest: string)
    requires Trim(s) == core && core != "" && '\n' !in s
    ensures s == before + rest && (forall i | 0 <= i < |before| :: IsSpace(before[i]))
    ensures rest != "" && !IsSpace(rest[0]) && Trim(rest) == core && '\n' !in rest
  {
    TrimLeftShape(s);
    TrimLeftIsPart(s, '\n');
    rest := TrimLeft(s);
    before := s[..|s| - |rest|];
  }

  lemma RightTrimmed(s: string, core: string) returns (rest: string, after: string)
    requires Trim(s) == core && core != "" && '\n' !in s
    ensures s == rest + after && (forall i | 0 <= i < |after| :: IsSpace(after[i]))
    ensures rest != "" && !IsSpace(rest[|rest| - 1]) && Trim(rest) == core && '\n' !in rest
  {
    TrimCommutes(s);
    TrimRightShape(s);
    rest := TrimRight(s);
    after := s[|rest|..];
    TrimCommutes(rest);
  }

  predicate IsLines(lines: seq<string>) {
    && lines != [] && (forall line | line in lines :: '\n' !in line && IsTrimmed(line))
    && (|lines| > 1 ==> lines[0] != "" && lines[|lines| - 1] != "")
  }

  lemma LinesAreNormal(lines: seq<string>)
    requires IsLines(lines)
    ensures NormalForm(Join(lines, '\n')) == Join(lines, '\n') && NormalLines(Join(lines, '\n')) == lines
  {
    assert lines[0] in lines && lines[|lines| - 1] in lines;
    JoinKeepsEnds(lines);
    TrimmedIsFixed(Join(lines, '\n'));
    SplitJoin(lines, '\n');
    forall i | 0 <= i < |lines| ensures Trim(lines[i]) == lines[i] {
      assert lines[i] in lines;
      TrimmedIsFixed(lines[i]);
    }
    assert TrimAll(lines) == lines;
  }
}
