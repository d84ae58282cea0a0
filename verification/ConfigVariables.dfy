/** Expanding `$NAME` in configured paths: a loop that rewrites the text, variable after
    variable, until none is left. */
module ConfigVariables {
  import opened Text
  import opened Wrappers

  type Environment = map<string, string>

  predicate IsNameChar(c: char) { 'A' <= c <= 'Z' || '0' <= c <= '9' || c == '_' || 'a' <= c <= 'z' }

  /** The longest run of name characters that `s` begins with. */
  function NameLength(s: string): (n: nat)
    ensures n <= |s| && forall i | 0 <= i < n :: IsNameChar(s[i])
    ensures n < |s| ==> !IsNameChar(s[n])
  {
    if s != "" && IsNameChar(s[0]) then 1 + NameLength(s[1..]) else 0
  }

  /** The name of the variable that a text starting with '$' begins with; "" for a lone '$'. */
  function NameAt(s: string): string
    requires s != ""
  {
    s[1..1 + NameLength(s[1..])]
  }

  function AfterName(s: string): string
    requires s != ""
  {
    s[1 + NameLength(s[1..])..]
  }

  /** The name in the leftmost match of the regular expression. */
  function FirstName(s: string): Option<string>
    decreases |s|
  {
    if s == "" then None
    else if s[0] == '$' && NameAt(s) != "" then Some(NameAt(s))
    else FirstName(s[1..])
  }

  /** The symbols of a name are the digits, the letters and the underscore. */
  lemma NameCharIff(c: char)
    ensures IsNameChar(c) <==>
              || c == '_' || c in "0123456789"
              || c in "ABCDEFGHIJKLMNOPQRSTUVWXYZ" || c in "abcdefghijklmnopqrstuvwxyz"
  {
  }

  /** The body of the loop; an undefined variable is left where it is. */
  function Rewrite(s: string, env: Environment): string {
    match FirstName(s)
    case None => s
    case Some(key) => if key in env then Replace(s, "$" + key, env[key]) else s
  }

  /** The reference: every variable at once, with the longest name, values not rescanned. */
  function Expand(s: string, env: Environment): string
    decreases |s|
  {
    if s == "" then ""
    else if s[0] == '$' && NameAt(s) != "" && NameAt(s) in env then env[NameAt(s)] + Expand(AfterName(s), env)
    else [s[0]] + Expand(s[1..], env)
  }

  /** The names of all variables of a text. */
  function Names(s: string): set<string>
    decreases |s|
  {
    if s == "" then {}
    else if s[0] == '$' then (if NameAt(s) == "" then {} else {NameAt(s)}) + Names(AfterName(s))
    else Names(s[1..])
  }

  /** No '$' stands directly behind a '$' and its name. */
  predicate Separated(s: string)
    decreases |s|
  {
    if s == "" then true
    else if s[0] == '$' then (AfterName(s) != "" ==> AfterName(s)[0] != '$') && Separated(AfterName(s))
    else Separated(s[1..])
  }

  /** A value that cannot become part of a name in front of it, as a path that begins with '/'. */
  predicate IsGuarded(value: string) { value != "" && !IsNameChar(value[0]) }

  /** Nothing can be glued: the variables stand apart, or all values in use are guarded. */
  predicate IsSafe(s: string, env: Environment) {
    Separated(s) || forall k | k in Names(s) && k in env :: IsGuarded(env[k])
  }

  /** Every variable has a value, and the value brings in no '$'. */
  predicate Defined(s: string, env: Environment) {
    forall k | k in Names(s) :: k in env && '$' !in env[k]
  }

  /** The variables that have a value bring in no '$'. */
  predicate PlainValues(s: string, env: Environment) {
    forall k | k in Names(s) && k in env :: '$' !in env[k]
  }

  /** No name of the text begins another one. */
  predicate NamesPrefixFree(s: string) {
    forall k, l | k in Names(s) && l in Names(s) && k <= l :: k == l
  }

  function Dollars(s: string): nat {
    if s == "" then 0 else (if s[0] == '$' then 1 else 0) + Dollars(s[1..])
  }

  /** The text after `n` turns of the loop. */
  function Turns(n: nat, s: string, env: Environment): string {
    if n == 0 then s else Rewrite(Turns(n - 1, s, env), env)
  }

  /** No turn changes the text any more. */
  predicate Settled(s: string, env: Environment) { FirstName(s).Some? ==> FirstName(s).value !in env }

  /** Some turn leaves no variable. */
  ghost predicate Ends(s: string, env: Environment) { exists n: nat :: FirstName(Turns(n, s, env)).None? }

  /** The loop of expandPathEnvVariables, on all inputs on which it ends. */
  method ExpandPathEnvVariables(source: string, env: Environment) returns (expanded: string)
    requires Ends(source, env)
    ensures Names(expanded) == {} && exists n: nat :: expanded == Turns(n, source, env)
    ensures IsSafe(source, env) && Defined(source, env) && NamesPrefixFree(source) ==> expanded == Expand(source, env)
  {
    ghost var last: nat :| FirstName(Turns(last, source, env)).None?;
    ghost var turn := 0;
    expanded := source;
    while FirstName(expanded).Some?
      invariant 0 <= turn <= last && expanded == Turns(turn, source, env)
      decreases last - turn
    {
      var key := FirstName(expanded).value;
      if key in env {
        FirstNameIsNamed(expanded);
        expanded := Replace(expanded, "$" + key, env[key]);
      }
      turn := turn + 1;
    }
    NothingLeft(expanded, env);
    if IsSafe(source, env) && Defined(source, env) && NamesPrefixFree(source) {
      TurnsKeepMeaning(turn, source, env);
    }
  }

  // ---------------------------------------------------------------- reading a text piece by piece

  lemma {:induction false} FirstNameIsNamed(s: string)
    ensures FirstName(s).Some? ==> FirstName(s).value != "" && FirstName(s).value in Names(s)
    decreases |s|
  {
    if s != "" && !(s[0] == '$' && NameAt(s) != "") {
      FirstNameIsNamed(s[1..]);
    }
  }

  lemma {:induction false} NothingLeft(s: string, env: Environment)
    requires FirstName(s).None?
    ensures Names(s) == {} && Expand(s, env) == s
    decreases |s|
  {
    if s != "" {
      NothingLeft(s[1..], env);
      assert s == [s[0]] + s[1..];
    }
  }

  /** Text without '$' is transparent to everything that reads variables. */
  lemma {:induction false} Plain(p: string, s: string, env: Environment)
    requires '$' !in p
    ensures Separated(p + s) == Separated(s) && Names(p + s) == Names(s) && Dollars(p + s) == Dollars(s)
    ensures Expand(p + s, env) == p + Expand(s, env)
  {
    if p == "" {
      assert p + s == s;
    } else {
      assert (p + s)[0] == p[0] && (p + s)[1..] == p[1..] + s;
      Plain(p[1..], s, env);
      assert [p[0]] + (p[1..] + Expand(s, env)) == p + Expand(s, env);
    }
  }

  predicate IsName(s: string) { forall i | 0 <= i < |s| :: IsNameChar(s[i]) }

  /** A '$', a name, and something that is no part of the name. */
  lemma {:induction false} NameEnds(name: string, rest: string)
    requires IsName(name) && (rest != "" ==> !IsNameChar(rest[0]))
    ensures NameLength(name + rest) == |name|
  {
    if name == "" {
      assert name + rest == rest;
    } else {
      assert (name + rest)[1..] == name[1..] + rest;
      NameEnds(name[1..], rest);
    }
  }

  lemma PieceIsRead(name: string, rest: string)
    requires IsName(name) && (rest != "" ==> !IsNameChar(rest[0]))
    ensures NameAt("$" + name + rest) == name && AfterName("$" + name + rest) == rest
  {
    var s := "$" + name + rest;
    assert s[1..] == name + rest;
    NameEnds(name, rest);
    assert s[1..1 + |name|] == name && s[1 + |name|..] == rest;
  }

  lemma Piece(name: string, rest: string, env: Environment)
    requires IsName(name) && (rest != "" ==> !IsNameChar(rest[0]))
    ensures var s := "$" + name + rest;
            && NameAt(s) == name && AfterName(s) == rest
            && Separated(s) == (Separated(rest) && (rest != "" ==> rest[0] != '$'))
            && Names(s) == (if name == "" then {} else {name}) + Names(rest)
            && Dollars(s) == 1 + Dollars(rest)
            && Expand(s, env) == (if name != "" && name in env then env[name] else "$" + name) + Expand(rest, env)
  {
    var s := "$" + name + rest;
    PieceIsRead(name, rest);
    assert s[1..] == name + rest;
    Plain(name, rest, env);
    assert "$" + (name + Expand(rest, env)) == "$" + name + Expand(rest, env);
  }

  /** The first variable of a text has the longest name that stands behind the '$'. */
  lemma {:induction false} FirstNameIs(before: string, name: string, after: string)
    requires '$' !in before && IsName(name) && name != "" && (after != "" ==> !IsNameChar(after[0]))
    ensures FirstName(before + ("$" + name + after)) == Some(name)
    decreases |before|
  {
    var s := "$" + name + after;
    if before == "" {
      PieceIsRead(name, after);
      assert before + s == s;
    } else {
      assert (before + s)[0] == before[0] && (before + s)[1..] == before[1..] + s && before[0] in before;
      FirstNameIs(before[1..], name, after);
    }
  }

  lemma IsPiece(s: string)
    requires s != "" && s[0] == '$'
    ensures s == "$" + NameAt(s) + AfterName(s)
    ensures IsName(NameAt(s)) && (AfterName(s) != "" ==> !IsNameChar(AfterName(s)[0]))
  {
  }

  /** What replacing `$key` does to one piece. */
  lemma ReplaceInPiece(name: string, rest: string, key: string, value: string)
    requires IsName(name) && IsName(key) && key != "" && (rest != "" ==> !IsNameChar(rest[0]))
    ensures Replace("$" + name + rest, "$" + key, value) ==
              (if key <= name then value + name[|key|..] else "$" + name) + Replace(rest, "$" + key, value)
  {
    if key <= name {
      ReplacePrefix(name, rest, key, value);
    } else {
      ReplaceElsewhere(name, rest, key, value);
    }
  }

  lemma ReplacePrefix(name: string, rest: string, key: string, value: string)
    requires IsName(name) && key != "" && key <= name
    ensures Replace("$" + name + rest, "$" + key, value) == value + name[|key|..] + Replace(rest, "$" + key, value)
  {
    var s := "$" + name + rest;
    assert "$" + key <= s;
    assert s[|"$" + key|..] == name[|key|..] + rest;
    ReplaceCopies(name[|key|..], rest, "$" + key, value);
  }

  lemma KeyIsInName(name: string, rest: string, key: string)
    requires IsName(name) && IsName(key) && "$" + key <= "$" + name + rest && (rest != "" ==> !IsNameChar(rest[0]))
    ensures key <= name
  {
    var t := name + rest;
    assert ("$" + name + rest)[1..] == t && ("$" + key)[1..] == key;
    NameEnds(name, rest);
    RunFits(t, |key|);
    assert key == t[..|key|] <= t[..|name|] == name;
  }

  lemma {:induction false} RunFits(t: string, n: nat)
    requires n <= |t| && IsName(t[..n])
    ensures n <= NameLength(t)
  {
    if n > 0 {
      assert t[..n][0] == t[0];
      assert t[1..][..n - 1] == t[..n][1..];
      RunFits(t[1..], n - 1);
    }
  }

  lemma ReplaceElsewhere(name: string, rest: string, key: string, value: string)
    requires IsName(name) && IsName(key) && key != "" && !(key <= name)
    requires rest != "" ==> !IsNameChar(rest[0])
    ensures Replace("$" + name + rest, "$" + key, value) == "$" + name + Replace(rest, "$" + key, value)
  {
    var s := "$" + name + rest;
    if "$" + key <= s {
      KeyIsInName(name, rest, key);
    }
    assert s[1..] == name + rest;
    ReplaceCopies(name, rest, "$" + key, value);
    assert "$" + (name + Replace(rest, "$" + key, value)) == "$" + name + Replace(rest, "$" + key, value);
  }

  /** What may follow a name when `value` is put in. */
  predicate IsSafeTail(rest: string, value: string) {
    rest != "" ==> !IsNameChar(rest[0]) && (rest[0] != '$' || IsGuarded(value))
  }

  lemma ReplaceKeepsHead(s: string, key: string, value: string)
    requires IsSafeTail(s, value)
    ensures var t := Replace(s, "$" + key, value);
            && (t == "" <==> s == "") && (t != "" ==> !IsNameChar(t[0]))
            && (s != "" && s[0] != '$' ==> t[0] == s[0])
  {
  }

  // ---------------------------------------------------------------- one turn of the loop

  predicate KeepsShape(s: string, key: string, value: string)
    requires key != ""
  {
    var t := Replace(s, "$" + key, value);
    && (Separated(s) ==> Separated(t)) && Names(t) <= Names(s) && Dollars(t) <= Dollars(s)
    && (key in Names(s) ==> Dollars(t) < Dollars(s))
  }

  lemma ShapeBehindPlain(c: char, s: string, key: string, value: string)
    requires c != '$' && key != "" && KeepsShape(s, key, value)
    ensures KeepsShape([c] + s, key, value)
  {
    var e: Environment := map[];
    ReplaceCopies([c], s, "$" + key, value);
    Plain([c], s, e);
    Plain([c], Replace(s, "$" + key, value), e);
  }

  lemma ShapeBehindPiece(name: string, rest: string, key: string, value: string)
    requires IsName(name) && IsSafeTail(rest, value)
    requires IsName(key) && key != "" && '$' !in value && KeepsShape(rest, key, value)
    ensures KeepsShape("$" + name + rest, key, value)
  {
    var e: Environment := map[];
    ReplaceInPiece(name, rest, key, value);
    Piece(name, rest, e);
    var replaced := Replace(rest, "$" + key, value);
    if key <= name {
      Plain(value + name[|key|..], replaced, e);
    } else {
      ReplaceKeepsHead(rest, key, value);
      Piece(name, replaced, e);
    }
  }

  /** Replacing a defined variable keeps the text in shape, and only removes variables. */
  lemma {:induction false} ReplaceKeepsShape(s: string, key: string, value: string)
    requires (Separated(s) || IsGuarded(value)) && IsName(key) && key != "" && '$' !in value
    ensures KeepsShape(s, key, value)
    decreases |s|
  {
    if s != "" {
      if s[0] != '$' {
        ReplaceKeepsShape(s[1..], key, value);
        ShapeBehindPlain(s[0], s[1..], key, value);
        assert s == [s[0]] + s[1..];
      } else {
        IsPiece(s);
        ReplaceKeepsShape(AfterName(s), key, value);
        ShapeBehindPiece(NameAt(s), AfterName(s), key, value);
      }
    }
  }

  /** Nor does it change what the text stands for, when no other name begins with this one. */
  lemma {:induction false} ReplaceKeepsMeaning(s: string, key: string, env: Environment)
    requires key in env && (Separated(s) || IsGuarded(env[key])) && IsName(key) && key != "" && '$' !in env[key]
    requires forall l | l in Names(s) && key <= l :: l == key
    ensures Expand(Replace(s, "$" + key, env[key]), env) == Expand(s, env)
    decreases |s|
  {
    if s != "" {
      if s[0] != '$' {
        assert Names(s[1..]) == Names(s);
        ReplaceKeepsMeaning(s[1..], key, env);
        ReplaceCopies([s[0]], s[1..], "$" + key, env[key]);
        assert s == [s[0]] + s[1..];
        Plain([s[0]], Replace(s[1..], "$" + key, env[key]), env);
      } else {
        var name, rest := NameAt(s), AfterName(s);
        IsPiece(s);
        Piece(name, rest, env);
        ReplaceKeepsMeaning(rest, key, env);
        ReplaceInPiece(name, rest, key, env[key]);
        var replaced := Replace(rest, "$" + key, env[key]);
        if key <= name {
          assert name == key;
          Plain(env[key] + name[|key|..], replaced, env);
          assert env[key] + name[|key|..] == env[key];
        } else {
          ReplaceKeepsHead(rest, key, env[key]);
          Piece(name, replaced, env);
        }
      }
    }
  }

  lemma {:induction false} NamesAreNames(s: string)
    ensures forall k | k in Names(s) :: IsName(k) && k != ""
    decreases |s|
  {
    if s != "" {
      if s[0] == '$' {
        NamesAreNames(AfterName(s));
      } else {
        NamesAreNames(s[1..]);
      }
    }
  }

  lemma RewriteProgresses(s: string, env: Environment)
    requires IsSafe(s, env) && PlainValues(s, env) && !Settled(s, env)
    ensures var t := Rewrite(s, env);
            IsSafe(t, env) && Names(t) <= Names(s) && Dollars(t) < Dollars(s)
  {
    FirstNameIsNamed(s);
    NamesAreNames(s);
    ReplaceKeepsShape(s, FirstName(s).value, env[FirstName(s).value]);
  }

  lemma RewriteKeepsMeaning(s: string, env: Environment)
    requires IsSafe(s, env) && Defined(s, env) && FirstName(s).Some? && NamesPrefixFree(s)
    ensures Expand(Rewrite(s, env), env) == Expand(s, env)
  {
    FirstNameIsNamed(s);
    NamesAreNames(s);
    ReplaceKeepsMeaning(s, FirstName(s).value, env);
  }

  lemma {:induction false} TurnsKeepShape(n: nat, s: string, env: Environment)
    requires IsSafe(s, env) && PlainValues(s, env)
    ensures var t := Turns(n, s, env);
            && IsSafe(t, env) && Names(t) <= Names(s)
            && (Settled(t, env) || Dollars(t) + n <= Dollars(s))
  {
    if n > 0 {
      TurnsKeepShape(n - 1, s, env);
      var before := Turns(n - 1, s, env);
      if !Settled(before, env) {
        RewriteProgresses(before, env);
      }
    }
  }

  lemma {:induction false} TurnsKeepMeaning(n: nat, s: string, env: Environment)
    requires IsSafe(s, env) && Defined(s, env) && NamesPrefixFree(s)
    ensures Expand(Turns(n, s, env), env) == Expand(s, env)
  {
    if n > 0 {
      TurnsKeepMeaning(n - 1, s, env);
      TurnsKeepShape(n - 1, s, env);
      var before := Turns(n - 1, s, env);
      if FirstName(before).Some? {
        RewriteKeepsMeaning(before, env);
      }
    }
  }

  /** When one name begins another, the loop reads the longer one wrongly: the value of the
      shorter, then the rest of the name, where the value of the longer belongs. */
  lemma PrefixNameMatters(k: string, l: string, env: Environment)
    requires IsName(k) && IsName(l) && k != "" && k < l && k in env && l in env
    ensures var s := "$" + k + (" " + ("$" + l + ""));
            && Rewrite(s, env) == env[k] + (" " + (env[k] + l[|k|..]))
            && Expand(s, env) == env[k] + (" " + env[l])
  {
    var last := "$" + l + "";
    var rest := " " + last;
    Piece(l, "", env);
    Plain(" ", last, env);
    Piece(k, rest, env);
    assert FirstName("$" + k + rest) == Some(k);
    ReplacePrefix(l, "", k, env[k]);
    ReplaceCopies(" ", last, "$" + k, env[k]);
    ReplacePrefix(k, rest, k, env[k]);
    assert k[|k|..] == "" && env[k] + "" == env[k] && env[l] + "" == env[l];
    assert env[k] + l[|k|..] + "" == env[k] + l[|k|..];
  }

  // ---------------------------------------------------------------- exactly when the loop ends

  /** Read from left to right: every variable is defined, or a defined one before it has a name
      that begins its name.  `seen` holds the defined names met so far. */
  predicate Covered(s: string, seen: set<string>, env: Environment)
    decreases |s|
  {
    if s == "" then true
    else if s[0] != '$' then Covered(s[1..], seen, env)
    else IsCovered(NameAt(s), seen, env) && Covered(AfterName(s), Seen(NameAt(s), seen, env), env)
  }

  predicate IsCovered(name: string, seen: set<string>, env: Environment) {
    name == "" || name in env || exists k :: k in seen && k <= name
  }

  function Seen(name: string, seen: set<string>, env: Environment): set<string> {
    if name != "" && name in env then seen + {name} else seen
  }

  lemma {:induction false} CoveredSkips(p: string, s: string, seen: set<string>, env: Environment)
    requires '$' !in p
    ensures Covered(p + s, seen, env) == Covered(s, seen, env)
  {
    if p == "" {
      assert p + s == s;
    } else {
      assert (p + s)[0] == p[0] && (p + s)[1..] == p[1..] + s;
      CoveredSkips(p[1..], s, seen, env);
    }
  }

  lemma CoveredPiece(name: string, rest: string, seen: set<string>, env: Environment)
    requires IsName(name) && (rest != "" ==> !IsNameChar(rest[0]))
    ensures Covered("$" + name + rest, seen, env) ==
            (IsCovered(name, seen, env) && Covered(rest, Seen(name, seen, env), env))
  {
    Piece(name, rest, env);
  }

  /** A name that a seen one begins covers nothing new. */
  lemma {:induction false} CoverIsPrefixClosed(s: string, seen: set<string>, k: string, n: string, env: Environment)
    requires k in seen && k <= n
    ensures Covered(s, seen + {n}, env) == Covered(s, seen, env)
    decreases |s|
  {
    if s != "" {
      if s[0] != '$' {
        CoverIsPrefixClosed(s[1..], seen, k, n, env);
      } else {
        var name := NameAt(s);
        assert n <= name ==> k <= name;
        CoverIsPrefixClosed(AfterName(s), Seen(name, seen, env), k, n, env);
        assert Seen(name, seen + {n}, env) == Seen(name, seen, env) + {n};
      }
    }
  }

  /** Replacing a variable everywhere is as good as having seen it. */
  lemma {:induction false} ReplaceIsSeeing(s: string, seen: set<string>, key: string, value: string, env: Environment)
    requires (Separated(s) || IsGuarded(value)) && IsName(key) && key != "" && '$' !in value
    ensures Covered(Replace(s, "$" + key, value), seen, env) == Covered(s, seen + {key}, env)
    decreases |s|
  {
    if s != "" {
      if s[0] != '$' {
        ReplaceIsSeeing(s[1..], seen, key, value, env);
        ReplaceCopies([s[0]], s[1..], "$" + key, value);
        assert s == [s[0]] + s[1..];
        CoveredSkips([s[0]], Replace(s[1..], "$" + key, value), seen, env);
      } else {
        var name, rest := NameAt(s), AfterName(s);
        IsPiece(s);
        if key <= name {
          ReplaceIsSeeing(rest, seen, key, value, env);
        } else {
          ReplaceIsSeeing(rest, Seen(name, seen, env), key, value, env);
        }
        PieceIsSeeing(name, rest, seen, key, value, env);
      }
    }
  }

  lemma PieceIsSeeing(name: string, rest: string, seen: set<string>, key: string, value: string, env: Environment)
    requires IsName(name) && IsSafeTail(rest, value)
    requires IsName(key) && key != "" && '$' !in value
    requires var after := if key <= name then seen else Seen(name, seen, env);
             Covered(Replace(rest, "$" + key, value), after, env) == Covered(rest, after + {key}, env)
    ensures Covered(Replace("$" + name + rest, "$" + key, value), seen, env)
         == Covered("$" + name + rest, seen + {key}, env)
  {
    var replaced := Replace(rest, "$" + key, value);
    ReplaceInPiece(name, rest, key, value);
    CoveredPiece(name, rest, seen + {key}, env);
    if key <= name {
      assert key in seen + {key};
      CoveredSkips(value + name[|key|..], replaced, seen, env);
      CoverIsPrefixClosed(rest, seen + {key}, key, name, env);
    } else {
      ReplaceKeepsHead(rest, key, value);
      CoveredPiece(name, replaced, seen, env);
      assert Seen(name, seen + {key}, env) == Seen(name, seen, env) + {key};
    }
  }

  /** One turn on the leftmost variable. */
  lemma {:induction false} TurnKeepsCover(s: string, key: string, value: string, env: Environment)
    requires (Separated(s) || IsGuarded(value)) && FirstName(s) == Some(key) && key in env && '$' !in value
    ensures Covered(Replace(s, "$" + key, value), {}, env) == Covered(s, {}, env)
    decreases |s|
  {
    FirstNameIsNamed(s);
    NamesAreNames(s);
    if s[0] != '$' {
      TurnKeepsCover(s[1..], key, value, env);
      ReplaceCopies([s[0]], s[1..], "$" + key, value);
      assert s == [s[0]] + s[1..];
      CoveredSkips([s[0]], Replace(s[1..], "$" + key, value), {}, env);
    } else {
      var name, rest := NameAt(s), AfterName(s);
      IsPiece(s);
      ReplaceInPiece(name, rest, key, value);
      var replaced := Replace(rest, "$" + key, value);
      if name == "" {
        assert rest == s[1..];
        TurnKeepsCover(rest, key, value, env);
        ReplaceKeepsHead(rest, key, value);
        CoveredPiece(name, replaced, {}, env);
      } else {
        assert name == key && name[|key|..] == "" && Seen(name, {}, env) == {} + {key};
        ReplaceIsSeeing(rest, {}, key, value, env);
        CoveredSkips(value + name[|key|..], replaced, {}, env);
      }
    }
  }

  lemma {:induction false} TurnsKeepCover(n: nat, s: string, env: Environment)
    requires IsSafe(s, env) && PlainValues(s, env)
    ensures Covered(Turns(n, s, env), {}, env) == Covered(s, {}, env)
  {
    if n > 0 {
      TurnsKeepCover(n - 1, s, env);
      TurnsKeepShape(n - 1, s, env);
      var before := Turns(n - 1, s, env);
      if !Settled(before, env) {
        FirstNameIsNamed(before);
        TurnKeepsCover(before, FirstName(before).value, env[FirstName(before).value], env);
      }
    }
  }

  lemma {:induction false} SettledIsCoveredIff(s: string, env: Environment)
    requires Settled(s, env)
    ensures Covered(s, {}, env) <==> FirstName(s).None?
    decreases |s|
  {
    if s != "" && !(s[0] == '$' && NameAt(s) != "") {
      SettledIsCoveredIff(s[1..], env);
      assert s[0] == '$' ==> AfterName(s) == s[1..];
    }
  }

  /** Where nothing can be glued, with values without '$': the loop ends if and only if each
      variable is defined or has a defined one before it whose name begins its own. */
  lemma SafeEndsIff(s: string, env: Environment)
    requires IsSafe(s, env) && PlainValues(s, env)
    ensures Ends(s, env) <==> Covered(s, {}, env)
  {
    var d := Dollars(s);
    TurnsKeepShape(d, s, env);
    if Dollars(Turns(d, s, env)) == 0 {
      NoDollarsNoName(Turns(d, s, env));
    }
    TurnsKeepCover(d, s, env);
    SettledIsCoveredIff(Turns(d, s, env), env);
    if Ends(s, env) {
      var n: nat :| FirstName(Turns(n, s, env)).None?;
      TurnsKeepCover(n, s, env);
      SettledIsCoveredIff(Turns(n, s, env), env);
    }
  }

  /** If also no name begins another one: if and only if all of them are defined. */
  lemma DefinedNamesEndIff(s: string, env: Environment)
    requires IsSafe(s, env) && PlainValues(s, env) && NamesPrefixFree(s)
    ensures Ends(s, env) <==> Names(s) <= env.Keys
  {
    SafeEndsIff(s, env);
    CoveredIsDefined(s, {}, Names(s), env);
  }

  /** Defined variables are all expanded where nothing can be glued. */
  lemma SafeEnds(s: string, env: Environment)
    requires IsSafe(s, env) && Defined(s, env)
    ensures Ends(s, env)
  {
    SafeEndsIff(s, env);
    DefinedIsCovered(s, {}, env);
  }

  lemma {:induction false} DefinedIsCovered(s: string, seen: set<string>, env: Environment)
    requires Defined(s, env)
    ensures Covered(s, seen, env)
    decreases |s|
  {
    if s != "" {
      if s[0] != '$' {
        DefinedIsCovered(s[1..], seen, env);
      } else {
        DefinedIsCovered(AfterName(s), Seen(NameAt(s), seen, env), env);
      }
    }
  }

  lemma {:induction false} CoveredIsDefined(s: string, seen: set<string>, names: set<string>, env: Environment)
    requires Names(s) + seen <= names && forall k, l | k in names && l in names && k <= l :: k == l
    requires seen <= env.Keys
    ensures Covered(s, seen, env) <==> Names(s) <= env.Keys
    decreases |s|
  {
    if s != "" {
      if s[0] != '$' {
        CoveredIsDefined(s[1..], seen, names, env);
      } else {
        CoveredIsDefined(AfterName(s), Seen(NameAt(s), seen, env), names, env);
      }
    }
  }

  lemma {:induction false} NoDollarsNoName(s: string)
    requires Dollars(s) == 0
    ensures FirstName(s).None?
  {
    if s != "" {
      NoDollarsNoName(s[1..]);
    }
  }

  // ---------------------------------------------------------------- where the loop never ends

  /** A leftmost variable that is not defined is met again in every turn. */
  lemma {:induction false} UndefinedNameHangs(n: nat, s: string, env: Environment)
    requires FirstName(s).Some? && FirstName(s).value !in env
    ensures Turns(n, s, env) == s && FirstName(Turns(n, s, env)).Some?
  {
    if n > 0 {
      UndefinedNameHangs(n - 1, s, env);
    }
  }

  predicate NoDollarValues(env: Environment) { forall k | k in env :: '$' !in env[k] }

  lemma {:induction false} DollarsSplit(p: string, s: string)
    ensures Dollars(p + s) == Dollars(p) + Dollars(s)
    ensures '$' !in p ==> Dollars(p) == 0
  {
    if p == "" {
      assert p + s == s;
    } else {
      assert (p + s)[0] == p[0] && (p + s)[1..] == p[1..] + s;
      DollarsSplit(p[1..], s);
    }
  }

  /** Replacing a variable by a value without '$' adds no '$', and takes one away if the variable
      is the leftmost. */
  lemma {:induction false} ReplaceTakesDollars(s: string, key: string, value: string)
    requires key != "" && '$' !in value
    ensures Dollars(Replace(s, "$" + key, value)) <= Dollars(s)
    ensures FirstName(s) == Some(key) ==> Dollars(Replace(s, "$" + key, value)) < Dollars(s)
    decreases |s|
  {
    if s != "" {
      if "$" + key <= s {
        var rest := s[|"$" + key|..];
        ReplaceTakesDollars(rest, key, value);
        DollarsSplit(value, Replace(rest, "$" + key, value));
        assert s == "$" + key + rest;
        DollarsSplit("$" + key, rest);
      } else {
        ReplaceTakesDollars(s[1..], key, value);
        DollarsSplit([s[0]], Replace(s[1..], "$" + key, value));
        assert s[0] == '$' ==> s == "$" + NameAt(s) + AfterName(s);
      }
    }
  }

  lemma {:induction false} SettledStays(m: nat, n: nat, s: string, env: Environment)
    requires m <= n && Settled(Turns(m, s, env), env)
    ensures Turns(n, s, env) == Turns(m, s, env)
  {
    if m < n {
      SettledStays(m, n - 1, s, env);
    }
  }

  lemma {:induction false} TurnsTakeDollars(n: nat, s: string, env: Environment)
    requires NoDollarValues(env)
    ensures Settled(Turns(n, s, env), env) || Dollars(Turns(n, s, env)) + n <= Dollars(s)
  {
    if n > 0 {
      TurnsTakeDollars(n - 1, s, env);
      var before := Turns(n - 1, s, env);
      if !Settled(before, env) {
        FirstNameIsNamed(before);
        ReplaceTakesDollars(before, FirstName(before).value, env[FirstName(before).value]);
      }
    }
  }

  /** For any text, as long as no value holds a '$', the loop needs no more turns than the text
      has '$': if they leave a variable, it is an undefined one and stays in front for ever. */
  lemma TurnsAreBounded(s: string, env: Environment)
    requires NoDollarValues(env)
    ensures Ends(s, env) <==> FirstName(Turns(Dollars(s), s, env)).None?
    ensures Settled(Turns(Dollars(s), s, env), env)
    ensures forall n: nat | n >= Dollars(s) :: Turns(n, s, env) == Turns(Dollars(s), s, env)
  {
    var d := Dollars(s);
    TurnsTakeDollars(d, s, env);
    if Dollars(Turns(d, s, env)) == 0 {
      NoDollarsNoName(Turns(d, s, env));
    }
    forall n: nat | n >= d ensures Turns(n, s, env) == Turns(d, s, env) {
      SettledStays(d, n, s, env);
    }
    forall n: nat | n < d && FirstName(Turns(n, s, env)).None? ensures FirstName(Turns(d, s, env)).None? {
      SettledStays(n, d, s, env);
    }
  }

  /** `$x$y$x`: three variables that touch. */
  function Touching(x: string, y: string): string { "$" + x + ("$" + y + ("$" + x + "")) }

  /** Variables that touch can hang the loop although all are defined: replacing `$x` glues its
      value to `$y`, and the name that comes out is nobody's. */
  lemma TouchingVariablesHang(n: nat, x: string, y: string, env: Environment)
    requires IsName(x) && IsName(y) && x != "" && y != "" && !(x <= y)
    requires x in env && y in env && '$' !in env[y]
    requires IsName(env[x]) && y + env[x] !in env
    ensures Defined(Touching(x, y), env) && !Separated(Touching(x, y))
    ensures FirstName(Turns(n + 1, Touching(x, y), env)) == Some(y + env[x])
  {
    var s, value := Touching(x, y), env[x];
    assert '$' !in value;
    NamesOfTouching(x, y);
    ReplacedTouching(x, y, value);
    GluedName(y, value);
    TurnsAdd(n, s, env);
    UndefinedNameHangs(n, value + ("$" + (y + value)), env);
  }

  /** `$$x`: a lone '$' in front of a variable makes a variable of its value, and the loop hangs
      if nobody has that name. */
  lemma LoneDollarHangs(n: nat, x: string, env: Environment)
    requires IsName(x) && x != "" && x in env
    requires IsName(env[x]) && env[x] != "" && env[x] !in env
    ensures var s := "$" + ("$" + x);
            && Defined(s, env) && !Separated(s)
            && FirstName(Turns(n + 1, s, env)) == Some(env[x])
  {
    var s, value := "$" + ("$" + x), env[x];
    assert s == "$" + "" + ("$" + x + "") && "$" + value == "$" + value + "";
    Piece(x, "", env);
    Piece("", "$" + x + "", env);
    ReplacePrefix(x, "", x, value);
    ReplaceElsewhere("", "$" + x + "", x, value);
    assert x[|x|..] == "" && value + "" + "" == value && "$" + "" + value == "$" + value;
    assert s[1..] == "$" + x + "" && FirstName(s) == Some(x);
    assert Rewrite(s, env) == "$" + value;
    Piece(value, "", env);
    assert FirstName("$" + value) == Some(value);
    TurnsAdd(n, s, env);
    UndefinedNameHangs(n, "$" + value, env);
  }

  /** A variable whose value holds it again is replaced for ever. */
  lemma {:induction false} ValueWithItselfHangs(n: nat, x: string, env: Environment)
    requires IsName(x) && x != "" && x in env && env[x] == "$" + x
    ensures Separated("$" + x) && Names("$" + x) <= env.Keys
    ensures Turns(n, "$" + x, env) == "$" + x && FirstName("$" + x) == Some(x)
  {
    assert "$" + x == "$" + x + "";
    Piece(x, "", env);
    ReplacePrefix(x, "", x, env[x]);
    assert x[|x|..] == "" && env[x] + "" + "" == env[x];
    if n > 0 {
      ValueWithItselfHangs(n - 1, x, env);
    }
  }

  lemma NamesOfTouching(x: string, y: string)
    requires IsName(x) && IsName(y) && x != "" && y != ""
    ensures var s := Touching(x, y);
            Names(s) == {x, y} && !Separated(s) && FirstName(s) == Some(x)
  {
    var e: Environment := map[];
    var last := "$" + x + "";
    Piece(x, "", e);
    Piece(y, last, e);
    Piece(x, "$" + y + last, e);
  }

  lemma ReplacedTouching(x: string, y: string, value: string)
    requires IsName(x) && IsName(y) && x != "" && !(x <= y)
    ensures Replace(Touching(x, y), "$" + x, value) == value + ("$" + (y + value))
  {
    var last := "$" + x + "";
    ReplacePrefix(x, "", x, value);
    ReplaceElsewhere(y, last, x, value);
    ReplacePrefix(x, "$" + y + last, x, value);
    assert x[|x|..] == "" && value + "" + "" == value;
    assert value + "" + ("$" + y + value) == value + ("$" + (y + value));
  }

  lemma GluedName(y: string, value: string)
    requires IsName(y) && IsName(value) && y != "" && '$' !in value
    ensures FirstName(value + ("$" + (y + value))) == Some(y + value)
  {
    var e: Environment := map[];
    var glued := "$" + (y + value);
    assert glued == "$" + (y + value) + "";
    Piece(y + value, "", e);
    FirstNameSkips(value, glued);
  }

  lemma {:induction false} FirstNameSkips(p: string, s: string)
    requires '$' !in p
    ensures FirstName(p + s) == FirstName(s)
  {
    if p == "" {
      assert p + s == s;
    } else {
      assert (p + s)[0] == p[0] && (p + s)[1..] == p[1..] + s;
      FirstNameSkips(p[1..], s);
    }
  }

  lemma {:induction false} TurnsAdd(n: nat, s: string, env: Environment)
    ensures Turns(n + 1, s, env) == Turns(n, Rewrite(s, env), env)
  {
    if n > 0 {
      TurnsAdd(n - 1, s, env);
    }
  }
}
