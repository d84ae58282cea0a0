/** The string library calls that several components share. */
module Text {

  /** What the `trim` family removes. */
  predicate IsSpace(c: char) {
    || '\t' <= c <= '\r' || c == ' ' || c == '\U{85}' || c == '\U{A0}' || c == '\U{1680}'
    || '\U{2000}' <= c <= '\U{200A}' || c == '\U{2028}' || c == '\U{2029}' || c == '\U{202F}'
    || c == '\U{205F}' || c == '\U{3000}' || c == '\U{FEFF}'
  }

  function TrimLeft(s: string): string {
    if s != "" && IsSpace(s[0]) then TrimLeft(s[1..]) else s
  }

  function TrimRight(s: string): string {
    if s != "" && IsSpace(s[|s| - 1]) then TrimRight(s[..|s| - 1]) else s
  }

  function Trim(s: string): string { TrimRight(TrimLeft(s)) }

  predicate IsTrimmed(s: string) {
    s != "" ==> !IsSpace(s[0]) && !IsSpace(s[|s| - 1])
  }

  lemma {:induction false} TrimLeftShape(s: string)
    ensures TrimLeft(s) != "" ==> !IsSpace(TrimLeft(s)[0])
    ensures exists n | 0 <= n <= |s| :: TrimLeft(s) == s[n..] && forall i | 0 <= i < n :: IsSpace(s[i])
  {
    if s != "" && IsSpace(s[0]) {
      TrimLeftShape(s[1..]);
      var n :| 0 <= n <= |s[1..]| && TrimLeft(s[1..]) == s[1..][n..] && forall i | 0 <= i < n :: IsSpace(s[1..][i]);
      assert s[1..][n..] == s[n + 1..];
      assert forall i | 0 <= i < n + 1 :: i > 0 ==> s[i] == s[1..][i - 1];
    } else {
      assert s == s[0..];
    }
  }

  lemma {:induction false} TrimRightShape(s: string)
    ensures TrimRight(s) <= s
    ensures TrimRight(s) != "" ==> !IsSpace(TrimRight(s)[|TrimRight(s)| - 1])
    ensures forall i | |TrimRight(s)| <= i < |s| :: IsSpace(s[i])
  {
    if s != "" && IsSpace(s[|s| - 1]) {
      TrimRightShape(s[..|s| - 1]);
    }
  }

  lemma TrimIsTrimmed(s: string)
    ensures IsTrimmed(Trim(s))
  {
    TrimLeftShape(s);
    TrimRightShape(TrimLeft(s));
  }

  lemma TrimmedIsFixed(s: string)
    requires IsTrimmed(s)
    ensures TrimLeft(s) == s && TrimRight(s) == s && Trim(s) == s
  {
  }

  const WHITE_SPACE := "\t\n\U{0B}\U{0C}\r \U{85}\U{A0}\U{1680}\U{2000}\U{2001}\U{2002}\U{2003}\U{2004}\U{2005}\U{2006}"
    + "\U{2007}\U{2008}\U{2009}\U{200A}\U{2028}\U{2029}\U{202F}\U{205F}\U{3000}\U{FEFF}"

  lemma SpaceIff(c: char)
    ensures IsSpace(c) <==> c in WHITE_SPACE
  {
    if IsSpace(c) {
      var k := if c <= '\r' then c as int - 9 else if '\U{2000}' <= c <= '\U{200A}' then c as int - 0x2000 + 9
               else if c == ' ' then 5 else if c == '\U{85}' then 6 else if c == '\U{A0}' then 7
               else if c == '\U{1680}' then 8 else if c == '\U{2028}' then 20 else if c == '\U{2029}' then 21
               else if c == '\U{202F}' then 22 else if c == '\U{205F}' then 23 else if c == '\U{3000}' then 24 else 25;
      assert WHITE_SPACE[k] == c;
    }
  }

  /** `trim` takes all white space at both ends, and nothing else. */
  lemma {:induction false} TrimTakes(before: string, s: string, after: string)
    requires forall i | 0 <= i < |before| :: IsSpace(before[i])
    requires forall i | 0 <= i < |after| :: IsSpace(after[i])
    requires s != "" ==> !IsSpace(s[0]) && !IsSpace(s[|s| - 1])
    ensures Trim(before + s + after) == s
    decreases |before| + |after|
  {
    var all := before + s + after;
    if before != "" {
      assert all[0] == before[0] && all[1..] == before[1..] + s + after;
      TrimTakes(before[1..], s, after);
    } else if s == "" && after != "" {
      assert all[0] == after[0] && all[1..] == before + s + after[1..];
      TrimTakes(before, s, after[1..]);
    } else if s != "" {
      assert all[0] == s[0];
      TrimRightTakes(s, after);
      assert all == s + after;
    }
  }

  lemma {:induction false} TrimRightTakes(s: string, after: string)
    requires s != "" && !IsSpace(s[|s| - 1]) && forall i | 0 <= i < |after| :: IsSpace(after[i])
    ensures TrimRight(s + after) == s
    decreases |after|
  {
    if after == "" {
      assert s + after == s;
    } else {
      var n := |after| - 1;
      assert (s + after)[..|s + after| - 1] == s + after[..n];
      TrimRightTakes(s, after[..n]);
    }
  }

  /** Trimming on both sides takes white space away and nothing else. */
  lemma TrimmedPart(s: string) returns (before: string, after: string)
    ensures s == before + TrimLeft(TrimRight(s)) + after
    ensures (forall i | 0 <= i < |before| :: IsSpace(before[i])) && (forall i | 0 <= i < |after| :: IsSpace(after[i]))
    ensures IsTrimmed(TrimLeft(TrimRight(s)))
  {
    var t := TrimRight(s);
    TrimRightShape(s);
    after := s[|t|..];
    assert s == t + after;
    before := TrimmedLeftPart(t);
  }

  lemma {:induction false} TrimmedLeftPart(t: string) returns (before: string)
    requires t != "" ==> !IsSpace(t[|t| - 1])
    ensures t == before + TrimLeft(t) && forall i | 0 <= i < |before| :: IsSpace(before[i])
    ensures IsTrimmed(TrimLeft(t))
  {
    before := "";
    if t != "" && IsSpace(t[0]) {
      var rest := TrimmedLeftPart(t[1..]);
      before := [t[0]] + rest;
      assert t == [t[0]] + t[1..];
    }
  }

  /** It does not matter which end is trimmed first. */
  lemma TrimCommutes(s: string)
    ensures TrimLeft(TrimRight(s)) == Trim(s)
  {
    var before, after := TrimmedPart(s);
    TrimTakes(before, TrimLeft(TrimRight(s)), after);
  }

  /** `split` on one character; "" splits into one empty part. */
  function Split(s: string, sep: char): (parts: seq<string>)
    ensures |parts| > 0
  {
    if s == "" then [""]
    else
      var rest := Split(s[1..], sep);
      if s[0] == sep then [""] + rest else [[s[0]] + rest[0]] + rest[1..]
  }

  function Join(parts: seq<string>, sep: char): string {
    if |parts| == 0 then ""
    else if |parts| == 1 then parts[0]
    else parts[0] + [sep] + Join(parts[1..], sep)
  }

  lemma JoinPrepends(before: string, first: string, rest: seq<string>, sep: char)
    ensures Join([before + first] + rest, sep) == before + Join([first] + rest, sep)
  {
    assert ([before + first] + rest)[1..] == rest && ([first] + rest)[1..] == rest;
    if rest != [] {
      assert before + first + [sep] + Join(rest, sep) == before + (first + [sep] + Join(rest, sep));
    }
  }

  lemma {:induction false} JoinAppends(parts: seq<string>, last: string, after: string, sep: char)
    ensures Join(parts + [last + after], sep) == Join(parts + [last], sep) + after
  {
    if parts == [] {
      assert parts + [last + after] == [last + after] && parts + [last] == [last];
    } else {
      JoinAppends(parts[1..], last, after, sep);
      assert (parts + [last + after])[1..] == parts[1..] + [last + after];
      assert (parts + [last])[1..] == parts[1..] + [last];
      var front := parts[0] + [sep];
      assert front + (Join(parts[1..] + [last], sep) + after) == front + Join(parts[1..] + [last], sep) + after;
    }
  }

  lemma {:induction false} SplitPrepends(p: string, s: string, sep: char)
    requires sep !in p
    ensures Split(p + s, sep) == [p + Split(s, sep)[0]] + Split(s, sep)[1..]
  {
    var parts := Split(s, sep);
    if p == "" {
      assert p + s == s;
      assert parts == [p + parts[0]] + parts[1..] by { assert p + parts[0] == parts[0]; }
    } else {
      SplitPrepends(p[1..], s, sep);
      assert (p + s)[1..] == p[1..] + s;
      assert [p[0]] + (p[1..] + parts[0]) == p + parts[0];
    }
  }

  lemma {:induction false} SplitJoin(parts: seq<string>, sep: char)
    requires |parts| > 0 && forall p | p in parts :: sep !in p
    ensures Split(Join(parts, sep), sep) == parts
  {
    if |parts| == 1 {
      SplitPrepends(parts[0], "", sep);
      assert parts[0] + "" == parts[0];
    } else {
      var rest := Join(parts[1..], sep);
      SplitJoin(parts[1..], sep);
      SplitPrepends(parts[0], [sep] + rest, sep);
      assert ([sep] + rest)[1..] == rest;
      assert Split([sep] + rest, sep) == [""] + parts[1..];
      assert parts[0] + "" == parts[0];
      assert parts[0] + ([sep] + rest) == parts[0] + [sep] + rest;
    }
  }

  lemma {:induction false} SplitPartsAreFree(s: string, sep: char)
    ensures forall p | p in Split(s, sep) :: sep !in p
  {
    if s != "" {
      SplitPartsAreFree(s[1..], sep);
    }
  }

  lemma {:induction false} JoinSplit(s: string, sep: char)
    ensures Join(Split(s, sep), sep) == s
  {
    if s != "" {
      var rest := Split(s[1..], sep);
      JoinSplit(s[1..], sep);
      assert s == [s[0]] + s[1..];
      if s[0] == sep {
        assert ([""] + rest)[1..] == rest;
      } else {
        var parts := [[s[0]] + rest[0]] + rest[1..];
        assert parts[1..] == rest[1..];
      }
    }
  }

  /** `replaceAll` of a non-empty pattern: left to right, without overlap, no rescanning. */
  function Replace(s: string, pattern: string, value: string): string
    requires pattern != ""
    decreases |s|
  {
    if |s| == 0 then s
    else if pattern <= s then value + Replace(s[|pattern|..], pattern, value)
    else [s[0]] + Replace(s[1..], pattern, value)
  }

  /** Text without the first character of the pattern is copied. */
  lemma {:induction false} ReplaceCopies(p: string, s: string, pattern: string, value: string)
    requires pattern != "" && pattern[0] !in p
    ensures Replace(p + s, pattern, value) == p + Replace(s, pattern, value)
  {
    if p == "" {
      assert p + s == s;
    } else {
      assert (p + s)[0] == p[0] && (p + s)[1..] == p[1..] + s;
      ReplaceCopies(p[1..], s, pattern, value);
      assert [p[0]] + (p[1..] + Replace(s, pattern, value)) == p + Replace(s, pattern, value);
    }
  }
}
