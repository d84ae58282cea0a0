/** Command line arguments of a test: printed by the wrapper around a tests generator, read back
    by the grading service. */
module Arguments {
  import opened Text
  import opened Wrappers

  // ---------------------------------------------------------------- the printer

  /** The `.inf` file of a test; none without arguments. */
  function Printed(arguments: seq<string>): Option<string> {
    if arguments == [] then None else Some("params = " + Join(arguments, ' ') + "\n")
  }

  // ---------------------------------------------------------------- the reader

  predicate IsQuote(c: char) { c == '"' || c == '\'' }

  /** The tokens still to come, inside the given quotes, when `token` has been collected. */
  function Tokens(line: string, quote: Option<char>, token: string): seq<string>
    decreases |line|
  {
    if line == "" then Flush(token)
    else
      var sym, rest := line[0], line[1..];
      if sym == ' ' && quote.None? then Flush(token) + Tokens(rest, quote, "")
      else if IsQuote(sym) && quote != Some(sym) then Tokens(rest, Some(sym), token)
      else if quote == Some(sym) then Tokens(rest, None, token)
      else Tokens(rest, quote, token + [sym])
  }

  function Flush(token: string): seq<string> { if token != "" then [token] else [] }

  method ParseTestInfArgumentsLine(line: string) returns (result: seq<string>)
    ensures result == Tokens(line, None, "")
    ensures forall arguments | line == Join(AllWritten(arguments), ' ') ::
              result == AllMeanings(arguments) <==>
              forall i | 0 <= i < |arguments| :: AreKept(arguments[i]) && Meaning(arguments[i]) != ""
  {
    var quoteSymbol: Option<char> := None;
    result := [];
    var currentToken := "";
    for i := 0 to |line|
      invariant result + Tokens(line[i..], quoteSymbol, currentToken) == Tokens(line, None, "")
      invariant quoteSymbol.Some? ==> IsQuote(quoteSymbol.value)
    {
      var currentSymbol := line[i];
      assert line[i..][1..] == line[i + 1..];
      if currentSymbol == ' ' && quoteSymbol.None? {
        if currentToken != "" {
          result := result + [currentToken];
        }
        currentToken := "";
      } else if currentSymbol == '"' && quoteSymbol != Some('"') {
        quoteSymbol := Some('"');
      } else if currentSymbol == '\'' && quoteSymbol != Some('\'') {
        quoteSymbol := Some('\'');
      } else if Some(currentSymbol) == quoteSymbol {
        quoteSymbol := None;
      } else {
        currentToken := currentToken + [currentSymbol];
      }
    }
    if currentToken != "" {
      result := result + [currentToken];
    }
    forall arguments | line == Join(AllWritten(arguments), ' ')
      ensures result == AllMeanings(arguments) <==>
              forall i | 0 <= i < |arguments| :: AreKept(arguments[i]) && Meaning(arguments[i]) != ""
    {
      TokensReturnIff(arguments);
    }
  }

  /** The position of the first '=', or -1. */
  function EqualSign(line: string): (n: int)
    ensures -1 <= n < |line| && (n == -1 <==> '=' !in line)
    ensures n >= 0 ==> line[n] == '=' && '=' !in line[..n]
  {
    if line == "" then -1
    else if line[0] == '=' then 0
    else
      var n := EqualSign(line[1..]);
      assert line == [line[0]] + line[1..];
      assert n >= 0 ==> line[..n + 1] == [line[0]] + line[1..][..n];
      if n == -1 then -1 else n + 1
  }

  /** The line of a trimmed `.inf` file that is tokenized. */
  function ParamsOf(line: string): string {
    var eqPos := EqualSign(line);
    if eqPos > 0 && TrimRight(line[..eqPos]) == "params" then TrimLeft(line[eqPos + 1..]) else ""
  }

  /** The arguments that a generated `.inf` file gives: a line `params = ...` is tokenized, any
      other gives none; and printed arguments come back if and only if they survive. */
  ghost predicate AreGiven(text: string, arguments: seq<string>) {
    var line := Trim(text);
    && (forall n | 0 <= n < |line| && line[n] == '=' && '=' !in line[..n] ::
          arguments == if TrimRight(line[..n]) == "params" then Tokens(TrimLeft(line[n + 1..]), None, "") else [])
    && ('=' !in line ==> arguments == [])
    && (forall given | given != [] && text == "params = " + Join(given, ' ') + "\n" ::
          arguments == given <==> Survives(given))
  }

  /** The arguments read from the generated `.inf` file or else from the `.args` file. */
  method TestRunArguments(inf: Option<string>, args: Option<string>) returns (arguments: seq<string>)
    ensures inf.Some? ==> AreGiven(inf.value, arguments)
    ensures inf.None? ==> arguments == if args.Some? then Tokens(Trim(args.value), None, "") else []
  {
    var argumentsLine := "";
    if inf.Some? {
      var line := Trim(inf.value);
      var eqPos := EqualSign(line);
      if eqPos > 0 {
        var key := TrimRight(line[..eqPos]);
        var value := TrimLeft(line[eqPos + 1..]);
        if key == "params" {
          argumentsLine := value;
        }
      }
      ParamsAreGiven(inf.value);
    } else if args.Some? {
      argumentsLine := Trim(args.value);
    }
    arguments := ParseTestInfArgumentsLine(argumentsLine);
  }

  // ---------------------------------------------------------------- what the tokenizer keeps

  predicate NoQuotes(s: string) { '"' !in s && '\'' !in s }

  /** Tokens are never empty and never hold a quote. */
  lemma {:induction false} TokensAreFree(line: string, quote: Option<char>, token: string)
    requires NoQuotes(token)
    ensures forall t | t in Tokens(line, quote, token) :: t != "" && '"' !in t && '\'' !in t
    decreases |line|
  {
    if line != "" {
      var sym, rest := line[0], line[1..];
      if sym == ' ' && quote.None? {
        TokensAreFree(rest, quote, "");
      } else if IsQuote(sym) && quote != Some(sym) {
        TokensAreFree(rest, Some(sym), token);
      } else if quote == Some(sym) {
        TokensAreFree(rest, None, token);
      } else {
        TokensAreFree(rest, quote, token + [sym]);
      }
    }
  }

  lemma {:induction false} Collects(p: string, s: string, quote: Option<char>, token: string)
    requires NoQuotes(p) && (quote.None? ==> ' ' !in p) && (quote.Some? ==> IsQuote(quote.value))
    ensures Tokens(p + s, quote, token) == Tokens(s, quote, token + p)
    decreases |p|
  {
    if p == "" {
      assert p + s == s && token + p == token;
    } else {
      assert (p + s)[0] == p[0] && (p + s)[1..] == p[1..] + s && p[0] in p;
      Collects(p[1..], s, quote, token + [p[0]]);
      assert token + [p[0]] + p[1..] == token + p;
    }
  }

  // ---------------------------------------------------------------- arguments written in pieces

  /** A piece of an argument: bare, or in quotes.  Where the other quote stands inside quotes, it
      ends the one text and begins the next, and the piece goes on inside that quote. */
  datatype Piece = Bare(text: string) | Quoted(double: bool, text: string, more: seq<string>)
  {
    function Written(): string { if Bare? then text else InQuotes(double, text, more) }

    function Meaning(): string { if Bare? then text else text + Concat(more) }

    /** Quotes protect spaces; nothing protects quotes. */
    predicate IsKept() {
      if Bare? then NoQuotes(text) && ' ' !in text
      else NoQuotes(text) && forall k | 0 <= k < |more| :: NoQuotes(more[k])
    }
  }

  function Mark(double: bool): string { if double then "\"" else "'" }

  function InQuotes(double: bool, text: string, more: seq<string>): string
    decreases |more|
  {
    Mark(double) + text + (if more == [] then Mark(double) else InQuotes(!double, more[0], more[1..]))
  }

  function Concat(texts: seq<string>): string { if texts == [] then "" else texts[0] + Concat(texts[1..]) }

  function Written(argument: seq<Piece>): string {
    if argument == [] then "" else argument[0].Written() + Written(argument[1..])
  }

  function Meaning(argument: seq<Piece>): string {
    if argument == [] then "" else argument[0].Meaning() + Meaning(argument[1..])
  }

  predicate AreKept(argument: seq<Piece>) { forall k | 0 <= k < |argument| :: argument[k].IsKept() }

  function AllWritten(arguments: seq<seq<Piece>>): seq<string> {
    seq(|arguments|, i requires 0 <= i < |arguments| => Written(arguments[i]))
  }

  function AllMeanings(arguments: seq<seq<Piece>>): seq<string> {
    seq(|arguments|, i requires 0 <= i < |arguments| => Meaning(arguments[i]))
  }

  lemma Associate<T>(a: seq<T>, b: seq<T>, c: seq<T>)
    ensures (a + b) + c == a + (b + c)
  {
  }

  lemma {:induction false} QuotesAreDropped(double: bool, text: string, more: seq<string>, s: string,
                                            quote: Option<char>, token: string)
    requires quote != Some(Mark(double)[0]) && NoQuotes(text) && forall k | 0 <= k < |more| :: NoQuotes(more[k])
    ensures Tokens(InQuotes(double, text, more) + s, quote, token) == Tokens(s, None, token + (text + Concat(more)))
    decreases |more|
  {
    var q := Mark(double);
    var end := if more == [] then q else InQuotes(!double, more[0], more[1..]);
    assert q + text + end + s == q + (text + (end + s));
    assert Tokens(InQuotes(double, text, more) + s, quote, token) == Tokens(text + (end + s), Some(q[0]), token);
    Collects(text, end + s, Some(q[0]), token);
    if more == [] {
      assert (end + s)[1..] == s && text + Concat(more) == text;
    } else {
      QuotesAreDropped(!double, more[0], more[1..], s, Some(q[0]), token + text);
      Associate(token, text, Concat(more));
    }
  }

  lemma OnePiece(piece: Piece, s: string, token: string)
    requires piece.IsKept()
    ensures Tokens(piece.Written() + s, None, token) == Tokens(s, None, token + piece.Meaning())
  {
    match piece
    case Bare(text) => Collects(text, s, None, token);
    case Quoted(double, text, more) => QuotesAreDropped(double, text, more, s, None, token);
  }

  lemma {:induction false} PiecesJoin(argument: seq<Piece>, s: string, token: string)
    requires AreKept(argument)
    ensures Tokens(Written(argument) + s, None, token) == Tokens(s, None, token + Meaning(argument))
    decreases |argument|
  {
    if argument == [] {
      assert "" + s == s && token + "" == token;
    } else {
      Associate(argument[0].Written(), Written(argument[1..]), s);
      OnePiece(argument[0], Written(argument[1..]) + s, token);
      PiecesJoin(argument[1..], s, token + argument[0].Meaning());
      Associate(token, argument[0].Meaning(), Meaning(argument[1..]));
    }
  }

  lemma KeptArgumentLeads(argument: seq<Piece>, tail: string)
    requires AreKept(argument) && Meaning(argument) != ""
    ensures Tokens(Written(argument) + " " + tail, None, "") == [Meaning(argument)] + Tokens(tail, None, "")
  {
    Associate(Written(argument), " ", tail);
    PiecesJoin(argument, " " + tail, "");
    assert "" + Meaning(argument) == Meaning(argument) && (" " + tail)[1..] == tail;
  }

  lemma FirstOfAll(arguments: seq<seq<Piece>>)
    requires arguments != []
    ensures AllWritten(arguments) == [Written(arguments[0])] + AllWritten(arguments[1..])
    ensures AllMeanings(arguments) == [Meaning(arguments[0])] + AllMeanings(arguments[1..])
  {
  }

  lemma JoinStep(first: string, parts: seq<string>, end: string, sep: char)
    ensures Join([first] + parts + [end], sep) == first + [sep] + Join(parts + [end], sep)
  {
    assert ([first] + parts + [end])[1..] == parts + [end];
  }

  /** Kept arguments in front of anything else come back as what their pieces say. */
  lemma {:induction false} KeptArgumentsLead(arguments: seq<seq<Piece>>, end: string, line: string)
    requires forall i | 0 <= i < |arguments| :: AreKept(arguments[i]) && Meaning(arguments[i]) != ""
    requires line == Join(AllWritten(arguments) + [end], ' ')
    ensures Tokens(line, None, "") == AllMeanings(arguments) + Tokens(end, None, "")
  {
    if arguments == [] {
      assert AllWritten(arguments) + [end] == [end] && AllMeanings(arguments) == [];
    } else {
      var tail := Join(AllWritten(arguments[1..]) + [end], ' ');
      KeptArgumentsLead(arguments[1..], end, tail);
      KeptArgumentLeads(arguments[0], tail);
      FirstOfAll(arguments);
      JoinStep(Written(arguments[0]), AllWritten(arguments[1..]), end, ' ');
      Associate([Meaning(arguments[0])], AllMeanings(arguments[1..]), Tokens(end, None, ""));
    }
  }

  lemma LastArgument(arguments: seq<seq<Piece>>)
    requires arguments != []
    ensures var n := |arguments| - 1;
            && AllWritten(arguments) == AllWritten(arguments[..n]) + [Written(arguments[n])]
            && AllMeanings(arguments) == AllMeanings(arguments[..n]) + [Meaning(arguments[n])]
  {
  }

  lemma KeptArgumentsReturn(arguments: seq<seq<Piece>>)
    requires forall i | 0 <= i < |arguments| :: AreKept(arguments[i]) && Meaning(arguments[i]) != ""
    ensures Tokens(Join(AllWritten(arguments), ' '), None, "") == AllMeanings(arguments)
  {
    if arguments != [] {
      var n := |arguments| - 1;
      LastArgument(arguments);
      KeptArgumentsLead(arguments[..n], Written(arguments[n]), Join(AllWritten(arguments), ' '));
      WholeArgument(arguments[n], Meaning(arguments[n]));
    }
  }

  lemma WholeArgument(argument: seq<Piece>, meaning: string)
    requires AreKept(argument) && meaning == Meaning(argument) && meaning != ""
    ensures Tokens(Written(argument), None, "") == [meaning]
  {
    PiecesJoin(argument, "", "");
    assert Written(argument) + "" == Written(argument) && "" + meaning == meaning;
  }

  /** Quotes that the line does not close hold to its end, spaces included. */
  lemma UnclosedQuotesHold(arguments: seq<seq<Piece>>, argument: seq<Piece>, double: bool, text: string)
    requires forall i | 0 <= i < |arguments| :: AreKept(arguments[i]) && Meaning(arguments[i]) != ""
    requires AreKept(argument) && NoQuotes(text) && Meaning(argument) + text != ""
    ensures Tokens(Join(AllWritten(arguments) + [Written(argument) + (Mark(double) + text)], ' '), None, "")
         == AllMeanings(arguments) + [Meaning(argument) + text]
  {
    var end := Written(argument) + (Mark(double) + text);
    KeptArgumentsLead(arguments, end, Join(AllWritten(arguments) + [end], ' '));
    PiecesJoin(argument, Mark(double) + text, "");
    assert "" + Meaning(argument) == Meaning(argument) && (Mark(double) + text)[1..] == text && text + "" == text;
    Collects(text, "", Some(Mark(double)[0]), Meaning(argument));
  }

  // ---------------------------------------------------------------- counting what is lost

  function Total(tokens: seq<string>): nat { if tokens == [] then 0 else |tokens[0]| + Total(tokens[1..]) }

  function Visible(s: string): nat { if s == "" then 0 else (if s[0] == ' ' then 0 else 1) + Visible(s[1..]) }

  /** How many symbols of the line end up in tokens. */
  function Collected(line: string, quote: Option<char>): nat
    decreases |line|
  {
    if line == "" then 0
    else
      var sym, rest := line[0], line[1..];
      if sym == ' ' && quote.None? then Collected(rest, quote)
      else if IsQuote(sym) && quote != Some(sym) then Collected(rest, Some(sym))
      else if quote == Some(sym) then Collected(rest, None)
      else 1 + Collected(rest, quote)
  }

  lemma {:induction false} TokensTotal(line: string, quote: Option<char>, token: string)
    ensures Total(Tokens(line, quote, token)) == |token| + Collected(line, quote)
    decreases |line|
  {
    if line != "" {
      var sym, rest := line[0], line[1..];
      if sym == ' ' && quote.None? {
        TokensTotal(rest, quote, "");
        if token == "" {
          assert Tokens(line, quote, token) == Tokens(rest, quote, "");
        } else {
          assert ([token] + Tokens(rest, quote, ""))[1..] == Tokens(rest, quote, "");
        }
      } else if IsQuote(sym) && quote != Some(sym) {
        TokensTotal(rest, Some(sym), token);
      } else if quote == Some(sym) {
        TokensTotal(rest, None, token);
      } else {
        TokensTotal(rest, quote, token + [sym]);
      }
    }
  }

  lemma {:induction false} CollectedSkips(p: string, s: string, quote: Option<char>)
    requires NoQuotes(p) && (quote.Some? ==> IsQuote(quote.value))
    ensures Collected(p + s, quote) == (if quote.Some? then |p| else Visible(p)) + Collected(s, quote)
    decreases |p|
  {
    if p == "" {
      assert p + s == s;
    } else {
      assert (p + s)[0] == p[0] && (p + s)[1..] == p[1..] + s && p[0] in p;
      CollectedSkips(p[1..], s, quote);
    }
  }

  lemma {:induction false} VisibleIsAllIff(s: string)
    ensures Visible(s) <= |s| && (Visible(s) == |s| <==> ' ' !in s)
    ensures Visible(s) == 0 <==> forall i | 0 <= i < |s| :: s[i] == ' '
  {
    if s != "" {
      VisibleIsAllIff(s[1..]);
      assert s == [s[0]] + s[1..];
      assert forall i | 0 < i < |s| :: s[i] == s[1..][i - 1];
    }
  }

  lemma {:induction false} VisibleSplits(a: string, b: string)
    ensures Visible(a + b) == Visible(a) + Visible(b)
  {
    if a == "" {
      assert a + b == b;
    } else {
      assert (a + b)[1..] == a[1..] + b;
      VisibleSplits(a[1..], b);
    }
  }

  lemma {:induction false} CollectedOfQuoted(double: bool, text: string, more: seq<string>, s: string,
                                             quote: Option<char>)
    requires quote != Some(Mark(double)[0]) && NoQuotes(text) && forall k | 0 <= k < |more| :: NoQuotes(more[k])
    ensures Collected(InQuotes(double, text, more) + s, quote) == |text + Concat(more)| + Collected(s, None)
    decreases |more|
  {
    var q := Mark(double);
    var end := if more == [] then q else InQuotes(!double, more[0], more[1..]);
    assert q + text + end + s == q + (text + (end + s));
    assert Collected(InQuotes(double, text, more) + s, quote) == Collected(text + (end + s), Some(q[0]));
    CollectedSkips(text, end + s, Some(q[0]));
    if more == [] {
      assert (end + s)[1..] == s && text + Concat(more) == text;
    } else {
      CollectedOfQuoted(!double, more[0], more[1..], s, Some(q[0]));
    }
  }

  predicate HasNoQuotes(piece: Piece) {
    NoQuotes(piece.text) && (piece.Quoted? ==> forall k | 0 <= k < |piece.more| :: NoQuotes(piece.more[k]))
  }

  /** Bare spaces of an argument are lost, and nothing else. */
  lemma {:induction false} CollectedOfPieces(argument: seq<Piece>, s: string)
    requires forall k | 0 <= k < |argument| :: HasNoQuotes(argument[k])
    ensures var n := Collected(Written(argument) + s, None) - Collected(s, None);
            n <= |Meaning(argument)| && (n == |Meaning(argument)| ==> AreKept(argument))
    decreases |argument|
  {
    if argument == [] {
      assert "" + s == s;
    } else {
      var rest := Written(argument[1..]) + s;
      Associate(argument[0].Written(), Written(argument[1..]), s);
      CollectedOfPieces(argument[1..], s);
      match argument[0] {
        case Bare(text) =>
          CollectedSkips(text, rest, None);
          VisibleIsAllIff(text);
        case Quoted(double, text, more) => CollectedOfQuoted(double, text, more, rest, None);
      }
    }
  }

  lemma {:induction false} CollectedOfAll(arguments: seq<seq<Piece>>, line: string)
    requires forall i, k | 0 <= i < |arguments| && 0 <= k < |arguments[i]| :: HasNoQuotes(arguments[i][k])
    requires line == Join(AllWritten(arguments), ' ')
    ensures var n := Collected(line, None);
            && n <= Total(AllMeanings(arguments))
            && (n == Total(AllMeanings(arguments)) ==> forall i | 0 <= i < |arguments| :: AreKept(arguments[i]))
  {
    if arguments != [] {
      var first, tail := Written(arguments[0]), Join(AllWritten(arguments[1..]), ' ');
      CollectedOfAll(arguments[1..], tail);
      FirstOfAll(arguments);
      if |arguments| == 1 {
        CollectedOfPieces(arguments[0], "");
        assert first + "" == first;
      } else {
        CollectedOfPieces(arguments[0], " " + tail);
        Associate(first, " ", tail);
        assert (" " + tail)[1..] == tail;
      }
    }
  }

  lemma {:induction false} ConcatHas(texts: seq<string>, c: char)
    requires c !in Concat(texts)
    ensures forall k | 0 <= k < |texts| :: c !in texts[k]
  {
    if texts != [] {
      ConcatHas(texts[1..], c);
    }
  }

  /** A quote in a piece is one in the argument. */
  lemma {:induction false} FreePieces(argument: seq<Piece>)
    requires NoQuotes(Meaning(argument))
    ensures forall k | 0 <= k < |argument| :: HasNoQuotes(argument[k])
  {
    if argument != [] {
      FreePieces(argument[1..]);
      if argument[0].Quoted? {
        ConcatHas(argument[0].more, '"');
        ConcatHas(argument[0].more, '\'');
      }
    }
  }

  /** Arguments of any bare and quoted pieces, joined by spaces, come back as what the pieces say if
      and only if no argument is empty, no piece holds a quote, and only quoted ones hold spaces. */
  lemma TokensReturnIff(arguments: seq<seq<Piece>>)
    ensures Tokens(Join(AllWritten(arguments), ' '), None, "") == AllMeanings(arguments)
            <==> forall i | 0 <= i < |arguments| :: AreKept(arguments[i]) && Meaning(arguments[i]) != ""
  {
    var line := Join(AllWritten(arguments), ' ');
    if forall i | 0 <= i < |arguments| :: AreKept(arguments[i]) && Meaning(arguments[i]) != "" {
      KeptArgumentsReturn(arguments);
    }
    if Tokens(line, None, "") == AllMeanings(arguments) {
      TokensAreFree(line, None, "");
      forall i | 0 <= i < |arguments|
        ensures Meaning(arguments[i]) != "" && forall k | 0 <= k < |arguments[i]| :: HasNoQuotes(arguments[i][k])
      {
        assert AllMeanings(arguments)[i] in AllMeanings(arguments);
        FreePieces(arguments[i]);
      }
      TokensTotal(line, None, "");
      CollectedOfAll(arguments, line);
    }
  }

  // ---------------------------------------------------------------- through the .inf file

  /** Not empty, and without spaces and quotes. */
  predicate IsPlain(argument: string) { argument != "" && ' ' !in argument && '"' !in argument && '\'' !in argument }

  /** What comes back from the `.inf` file: arguments that are not empty, without spaces and
      quotes, and with no other white space at either end of the line. */
  predicate Survives(arguments: seq<string>) {
    && arguments != []
    && (forall i | 0 <= i < |arguments| :: IsPlain(arguments[i]))
    && !IsSpace(arguments[0][0])
    && var last := arguments[|arguments| - 1];
       !IsSpace(last[|last| - 1])
  }

  lemma {:induction false} TrimRightKeeps(p: string, s: string)
    requires p != "" && !IsSpace(p[|p| - 1])
    ensures TrimRight(p + s) == p + TrimRight(s)
    decreases |s|
  {
    if s == "" {
      assert p + s == p;
    } else if IsSpace(s[|s| - 1]) {
      assert (p + s)[..|p + s| - 1] == p + s[..|s| - 1];
      TrimRightKeeps(p, s[..|s| - 1]);
    }
  }

  lemma {:induction false} EqualSignIsFirst(line: string, k: nat)
    requires k < |line| && line[k] == '='
    ensures 0 <= EqualSign(line) <= k
  {
    if line[0] != '=' {
      EqualSignIsFirst(line[1..], k - 1);
    }
  }

  /** The first '=' separates key and value; only one key counts. */
  lemma ParamsOfPair(line: string, n: nat)
    requires n < |line| && line[n] == '=' && '=' !in line[..n]
    ensures ParamsOf(line) == if TrimRight(line[..n]) == "params" then TrimLeft(line[n + 1..]) else ""
  {
    EqualSignIsFirst(line, n);
    assert EqualSign(line) == n;
  }

  lemma ParamsAreGiven(text: string)
    ensures AreGiven(text, Tokens(ParamsOf(Trim(text)), None, ""))
  {
    var line := Trim(text);
    forall n | 0 <= n < |line| && line[n] == '=' && '=' !in line[..n]
      ensures ParamsOf(line) == if TrimRight(line[..n]) == "params" then TrimLeft(line[n + 1..]) else ""
    {
      ParamsOfPair(line, n);
    }
    forall given | given != [] && text == "params = " + Join(given, ' ') + "\n"
      ensures Tokens(ParamsOf(Trim(text)), None, "") == given <==> Survives(given)
    {
      ArgumentsSurviveIff(given);
    }
  }

  lemma KeyOfPrinted(tail: string)
    ensures EqualSign("params =" + tail) == 7
    ensures TrimRight("params =" [..7]) == "params"
    ensures TrimLeft("params =" + tail) == "params =" + tail
  {
    var line := "params =" + tail;
    assert line[7] == '=' && forall i | 0 <= i < 7 :: line[i] != '=';
    var n := EqualSign(line);
    EqualSignIsFirst(line, 7);
    assert n >= 7;
    var key := "params =" [..7];
    assert key == "params " && key[..6] == "params" && IsSpace(key[6]) && !IsSpace("params"[5]);
    assert TrimRight(key) == TrimRight("params");
  }

  /** The tokenizer gets the joined arguments, trimmed. */
  lemma ParamsOfPrinted(arguments: seq<string>)
    requires arguments != []
    ensures ParamsOf(Trim(Printed(arguments).value)) == TrimLeft(TrimRight(" " + Join(arguments, ' ') + "\n"))
  {
    var tail := " " + Join(arguments, ' ') + "\n";
    var printed := Printed(arguments).value;
    assert printed == "params =" + tail;
    KeyOfPrinted(tail);
    TrimRightKeeps("params =", tail);
    var kept := TrimRight(tail);
    var line := "params =" + kept;
    assert Trim(printed) == line;
    KeyOfPrinted(kept);
    assert line[..7] == "params =" [..7] && line[8..] == kept;
  }

  /** Each argument as a single bare piece. */
  function AllBare(arguments: seq<string>): seq<seq<Piece>> {
    seq(|arguments|, i requires 0 <= i < |arguments| => [Bare(arguments[i])])
  }

  lemma JoinBare(arguments: seq<string>)
    ensures AllWritten(AllBare(arguments)) == arguments && AllMeanings(AllBare(arguments)) == arguments
    ensures forall i | 0 <= i < |arguments| :: Meaning(AllBare(arguments)[i]) == arguments[i]
  {
    forall i | 0 <= i < |arguments|
      ensures Written(AllBare(arguments)[i]) == arguments[i] && Meaning(AllBare(arguments)[i]) == arguments[i]
    {
      assert [Bare(arguments[i])][1..] == [];
      assert arguments[i] + "" == arguments[i];
    }
  }

  lemma {:induction false} JoinEnds(arguments: seq<string>)
    requires arguments != [] && forall i | 0 <= i < |arguments| :: arguments[i] != ""
    ensures var line, last := Join(arguments, ' '), arguments[|arguments| - 1];
            line != "" && line[0] == arguments[0][0] && line[|line| - 1] == last[|last| - 1]
  {
    if |arguments| > 1 {
      JoinEnds(arguments[1..]);
    }
  }

  /** Printing to the `.inf` file and reading it gives back exactly the arguments that survive. */
  lemma ArgumentsSurviveIff(arguments: seq<string>)
    requires arguments != []
    ensures Printed(arguments) == Some("params = " + Join(arguments, ' ') + "\n")
    ensures Tokens(ParamsOf(Trim(Printed(arguments).value)), None, "") == arguments <==> Survives(arguments)
  {
    ParamsOfPrinted(arguments);
    if Survives(arguments) {
      BareTokensReturnIff(arguments);
      JoinEnds(arguments);
      TrimmedLine(Join(arguments, ' '));
    }
    var value := TrimLeft(TrimRight(" " + Join(arguments, ' ') + "\n"));
    if Tokens(value, None, "") == arguments {
      NothingTrimmed(arguments, value);
      BareTokensReturnIff(arguments);
      JoinEnds(arguments);
    }
  }

  lemma BareTokensReturnIff(arguments: seq<string>)
    ensures Tokens(Join(arguments, ' '), None, "") == arguments <==>
        forall i | 0 <= i < |arguments| :: IsPlain(arguments[i])
  {
    JoinBare(arguments);
    TokensReturnIff(AllBare(arguments));
    assert forall i | 0 <= i < |arguments| :: AreKept(AllBare(arguments)[i]) <==> AllBare(arguments)[i][0].IsKept();
  }

  lemma TrimmedLine(line: string)
    requires line != "" && !IsSpace(line[0]) && !IsSpace(line[|line| - 1])
    ensures TrimLeft(TrimRight(" " + line + "\n")) == line
  {
    var t := " " + line;
    TrimRightKeeps(t, "\n");
    assert "\n"[..0] == "";
    assert TrimRight("\n") == TrimRight("") == "";
    assert t + "" == t && t[1..] == line;
  }

  lemma {:induction false} JoinHasNoQuotes(arguments: seq<string>)
    requires forall i | 0 <= i < |arguments| :: NoQuotes(arguments[i])
    ensures NoQuotes(Join(arguments, ' '))
  {
    if |arguments| > 1 {
      JoinHasNoQuotes(arguments[1..]);
    }
  }

  lemma BareCollected(s: string)
    requires NoQuotes(s)
    ensures Total(Tokens(s, None, "")) == Visible(s)
  {
    TokensTotal(s, None, "");
    CollectedSkips(s, "", None);
    assert s + "" == s;
  }

  /** The line of arguments that came back has no more visible symbols than the part of it that was read. */
  lemma VisibleOfLine(arguments: seq<string>, value: string)
    requires Tokens(value, None, "") == arguments && NoQuotes(value)
    requires forall i | 0 <= i < |arguments| :: NoQuotes(arguments[i])
    ensures Visible(Join(arguments, ' ')) <= Visible(value)
    ensures Visible(Join(arguments, ' ')) == Visible(value) ==> forall i | 0 <= i < |arguments| :: ' ' !in arguments[i]
  {
    JoinBare(arguments);
    JoinHasNoQuotes(arguments);
    CollectedOfAll(AllBare(arguments), Join(arguments, ' '));
    assert forall i | 0 <= i < |arguments| :: AreKept(AllBare(arguments)[i]) ==> AllBare(arguments)[i][0].IsKept();
    BareCollected(value);
    CollectedSkips(Join(arguments, ' '), "", None);
    assert Join(arguments, ' ') + "" == Join(arguments, ' ');
  }

  /** A line that gave all its arguments back had nothing to trim. */
  lemma NothingTrimmed(arguments: seq<string>, value: string)
    requires arguments != [] && value == TrimLeft(TrimRight(" " + Join(arguments, ' ') + "\n"))
    requires Tokens(value, None, "") == arguments
    ensures value == Join(arguments, ' ') && IsTrimmed(value)
  {
    var line := Join(arguments, ' ');
    TokensAreFree(value, None, "");
    assert forall i | 0 <= i < |arguments| :: arguments[i] in arguments;
    JoinHasNoQuotes(arguments);
    JoinEnds(arguments);
    var before, after := TrimmedPart(" " + line + "\n");
    var all := before + value + after;
    assert NoQuotes(value) by {
      assert NoQuotes(all);
      assert forall i | 0 <= i < |value| :: all[|before| + i] == value[i];
    }
    VisibleOfLine(arguments, value);
    OnlyMarginsTrimmed(line, before, value, after);
  }

  lemma OnlyMarginsTrimmed(line: string, before: string, value: string, after: string)
    requires line != "" && value != "" && IsTrimmed(value) && " " + line + "\n" == before + value + after
    requires Visible(line) <= Visible(value)
    requires Visible(line) == Visible(value) ==> line[0] != ' ' && line[|line| - 1] != ' '
    ensures value == line
  {
    var all := " " + line + "\n";
    MarginsNotEmpty(all, before, value, after);
    InnerPart(line, " ", "\n", before, value, after);
    VisibleOfParts(line, before, value, after[..|after| - 1]);
    EndsAreVisible(line, before[1..], value, after[..|after| - 1]);
  }

  lemma MarginsNotEmpty(all: string, before: string, value: string, after: string)
    requires value != "" && IsTrimmed(value) && all == before + value + after
    requires IsSpace(all[0]) && IsSpace(all[|all| - 1])
    ensures before != "" && after != ""
  {
    assert all[|before|] == value[0];
    assert all[|before| + |value| - 1] == value[|value| - 1];
  }

  lemma InnerPart(line: string, a: string, b: string, before: string, value: string, after: string)
    requires |a| == 1 && |b| == 1 && before != "" && after != "" && a + line + b == before + value + after
    ensures line == before[1..] + value + after[..|after| - 1]
  {
    var all := before + value + after;
    assert line == all[1..|all| - 1];
  }

  lemma VisibleOfParts(line: string, before: string, value: string, margin: string)
    requires before != "" && line == before[1..] + value + margin && Visible(line) <= Visible(value)
    ensures Visible(before[1..]) == 0 && Visible(margin) == 0 && Visible(line) == Visible(value)
  {
    VisibleSplits(before[1..] + value, margin);
    VisibleSplits(before[1..], value);
  }

  /** A line that ends in visible symbols has no invisible margins. */
  lemma EndsAreVisible(line: string, left: string, value: string, right: string)
    requires line != "" && line[0] != ' ' && line[|line| - 1] != ' '
    requires line == left + value + right && Visible(left) == 0 && Visible(right) == 0
    ensures value == line
  {
    assert left != "" ==> left[0] == line[0];
    assert right != "" ==> right[|right| - 1] == line[|line| - 1];
    VisibleIsAllIff(left);
    VisibleIsAllIff(right);
    assert left == "" && right == "";
    assert "" + value + "" == value;
  }

  // ---------------------------------------------------------------- through the course content

  /** The argument line that the course loader takes from a trimmed `.inf` file among a problem's
      tests; it reaches the grading service as an `.args` file. */
  function CommandLineArguments(line: string): string { Trim(line[EqualSign(line) + 1..]) }

  /** Both ways of a printed `.inf` file to the grading service give the tokenizer the same line. */
  lemma BothRoutesAgree(arguments: seq<string>)
    requires arguments != []
    ensures var line := Trim(Printed(arguments).value);
            Trim(CommandLineArguments(line)) == ParamsOf(line)
  {
    var tail := " " + Join(arguments, ' ') + "\n";
    var kept := TrimRight(tail);
    ParamsOfPrinted(arguments);
    assert Printed(arguments).value == "params =" + tail;
    KeyOfPrinted(tail);
    TrimRightKeeps("params =", tail);
    KeyOfPrinted(kept);
    assert ("params =" + kept)[8..] == kept;
    var _, _ := TrimmedPart(tail);
    TrimmedIsFixed(TrimLeft(kept));
  }
}
