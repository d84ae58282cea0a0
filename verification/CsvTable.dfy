/** Importing users from a CSV text: splitting a line into cells, skipping blank lines, padding
    the rows to one width. */
module CsvTable {
  import opened Text

  /** The parser's options.  `tabAsDelimiter` exists in the form but is never looked at: a tab
      separates cells when semicolons do. */
  datatype CsvParser = CsvParser(
    comaAsDelimiter: bool,
    semicolonAsDelimiter: bool,
    spacesAsDelimiter: bool,
    tabAsDelimiter: bool,
    escapedStrings: bool,
    skipFirstRow: bool)
  {
    predicate Separates(sym: char) {
      || (sym == ',' && comaAsDelimiter) || (sym == ';' && semicolonAsDelimiter)
      || (sym == '\t' && semicolonAsDelimiter) || (sym == ' ' && spacesAsDelimiter)
    }
  }

  datatype Quoting = Plain | SingleQuoted | DoubleQuoted

  type Row = seq<string>

  /** The cells still to come, when `token` has been collected; the last one only if it is not
      empty.  Between quotes every symbol is dropped. */
  function Cells(parser: CsvParser, line: string, state: Quoting, token: string): Row {
    if line == "" then (if |token| > 0 then [token] else [])
    else
      var sym, rest := line[0], line[1..];
      if sym == '\'' && state.Plain? && parser.escapedStrings then Cells(parser, rest, SingleQuoted, token)
      else if sym == '"' && state.Plain? && parser.escapedStrings then Cells(parser, rest, DoubleQuoted, token)
      else if sym == '\'' && state.SingleQuoted? && parser.escapedStrings then Cells(parser, rest, Plain, token)
      else if sym == '"' && state.DoubleQuoted? && parser.escapedStrings then Cells(parser, rest, Plain, token)
      else if !state.Plain? then Cells(parser, rest, state, token)
      else if parser.Separates(sym) then [token] + Cells(parser, rest, state, "")
      else Cells(parser, rest, state, token + [sym])
  }

  method ParseRow(parser: CsvParser, line: string) returns (result: Row)
    ensures result == Cells(parser, line, Plain, "")
  {
    result := [];
    var token := "";
    var state := Plain;
    for j := 0 to |line|
      invariant result + Cells(parser, line[j..], state, token) == Cells(parser, line, Plain, "")
    {
      var sym := line[j];
      assert line[j..][1..] == line[j + 1..];
      if sym == '\'' && state.Plain? && parser.escapedStrings {
        state := SingleQuoted;
      } else if sym == '"' && state.Plain? && parser.escapedStrings {
        state := DoubleQuoted;
      } else if sym == '\'' && state.SingleQuoted? && parser.escapedStrings {
        state := Plain;
      } else if sym == '"' && state.DoubleQuoted? && parser.escapedStrings {
        state := Plain;
      } else if state.Plain? {
        if parser.Separates(sym) {
          result := result + [token];
          token := "";
        } else {
          token := token + [sym];
        }
      }
    }
    if |token| > 0 {
      result := result + [token];
    }
  }

  function LineRows(parser: CsvParser, line: string): seq<Row> {
    if Trim(line) == "" then [] else [Cells(parser, line, Plain, "")]
  }

  /** The rows of the lines that are not blank. */
  function Rows(parser: CsvParser, lines: seq<string>): seq<Row> {
    if lines == [] then [] else LineRows(parser, lines[0]) + Rows(parser, lines[1..])
  }

  function Columns(table: seq<Row>): nat {
    if table == [] then 0
    else
      var rest := Columns(table[..|table| - 1]);
      if |table[|table| - 1]| > rest then |table[|table| - 1]| else rest
  }

  function Padded(row: Row, columns: nat): Row {
    if |row| < columns then row + seq(columns - |row|, _ => "") else row
  }

  function Normalized(table: seq<Row>): seq<Row> {
    seq(|table|, i requires 0 <= i < |table| => Padded(table[i], Columns(table)))
  }

  function Table(parser: CsvParser, data: string): seq<Row> {
    var lines := Split(data, '\n');
    Normalized(RowsFrom(parser, lines, 0))
  }

  method ParseTable(parser: CsvParser, data: string) returns (table: seq<Row>)
    ensures table == Table(parser, data)
  {
    var lines := Split(data, '\n');
    table := [];
    if |lines| == 1 && parser.skipFirstRow {
      assert RowsFrom(parser, lines, 0) == [] && Normalized([]) == [];
      return;
    }
    var i := 0;
    while i < |lines|
      invariant 0 <= i <= |lines|
      invariant table + RowsFrom(parser, lines, i) == RowsFrom(parser, lines, 0)
    {
      RowsFromUnfold(parser, lines, i, table);
      if !(parser.skipFirstRow && i == 0) {
        var line := Trim(lines[i]);
        if line != "" {
          var row := ParseRow(parser, lines[i]);
          table := table + [row];
        }
      }
      i := i + 1;
    }
    assert table == RowsFrom(parser, lines, 0) by {
      assert RowsFrom(parser, lines, |lines|) == [];
    }
    table := NormalizeColumnsCount(table);
  }

  /** What the lines from `i` on contribute. */
  function RowsFrom(parser: CsvParser, lines: seq<string>, i: nat): seq<Row>
    requires i <= |lines|
  {
    if parser.skipFirstRow && i == 0 && lines != [] then Rows(parser, lines[1..]) else Rows(parser, lines[i..])
  }

  lemma RowsFromUnfold(parser: CsvParser, lines: seq<string>, i: nat, table: seq<Row>)
    requires i < |lines|
    ensures var skipped := (parser.skipFirstRow && i == 0) || Trim(lines[i]) == "";
            table + RowsFrom(parser, lines, i)
              == table + (if skipped then [] else [Cells(parser, lines[i], Plain, "")]) + RowsFrom(parser, lines, i + 1)
  {
    RowsUnfold(parser, lines, i);
  }

  lemma RowsUnfold(parser: CsvParser, lines: seq<string>, i: nat)
    requires i < |lines|
    ensures Rows(parser, lines[i..]) == LineRows(parser, lines[i]) + Rows(parser, lines[i + 1..])
  {
    assert lines[i..][1..] == lines[i + 1..];
  }

  method NormalizeColumnsCount(table: seq<Row>) returns (normalized: seq<Row>)
    ensures normalized == Normalized(table)
  {
    var maxCols := 0;
    for i := 0 to |table|
      invariant maxCols == Columns(table[..i])
    {
      assert table[..i + 1][..i] == table[..i];
      maxCols := if |table[i]| > maxCols then |table[i]| else maxCols;
    }
    assert table[..|table|] == table;
    normalized := table;
    for i := 0 to |table|
      invariant |normalized| == |table|
      invariant forall k | 0 <= k < i :: normalized[k] == Padded(table[k], maxCols)
      invariant forall k | i <= k < |table| :: normalized[k] == table[k]
    {
      while |normalized[i]| < maxCols
        invariant |normalized| == |table|
        invariant forall k | 0 <= k < |table| && k != i ::
            normalized[k] == if k < i then Padded(table[k], maxCols) else table[k]
        invariant |normalized[i]| >= |table[i]| && (|normalized[i]| <= maxCols || normalized[i] == table[i])
        invariant normalized[i] == table[i] + seq(|normalized[i]| - |table[i]|, _ => "")
        decreases maxCols - |normalized[i]|
      {
        normalized := normalized[i := normalized[i] + [""]];
      }
    }
  }

  // ---------------------------------------------------------------- what a parsed table looks like

  /** Whatever the text, the parsed table is rectangular. */
  lemma TableIsRectangular(parser: CsvParser, data: string)
    ensures forall r, s | r in Table(parser, data) && s in Table(parser, data) :: |r| == |s|
  {
    var rows := Rows(parser, if parser.skipFirstRow then Split(data, '\n')[1..] else Split(data, '\n'));
    ColumnsIsMax(rows);
  }

  lemma {:induction false} ColumnsIsMax(table: seq<Row>)
    ensures forall i | 0 <= i < |table| :: |table[i]| <= Columns(table)
    ensures table != [] ==> exists i :: 0 <= i < |table| && |table[i]| == Columns(table)
  {
    if table != [] {
      var before := table[..|table| - 1];
      ColumnsIsMax(before);
      if before != [] {
        var i :| 0 <= i < |before| && |before[i]| == Columns(before);
        assert table[i] == before[i];
      }
      assert |table[|table| - 1]| <= Columns(table);
    }
  }

  // ---------------------------------------------------------------- the round trip

  predicate IsRectangle(table: seq<Row>, columns: nat) {
    columns > 0 && forall row | row in table :: |row| == columns
  }

  predicate IsPlainSymbol(parser: CsvParser, c: char) {
    c != '\n' && !parser.Separates(c) && (parser.escapedStrings ==> c != '\'' && c != '"')
  }

  /** A cell that means itself: no separator, no line end and, if quotes mean something, no quote. */
  predicate IsPlain(parser: CsvParser, cell: string) { forall i | 0 <= i < |cell| :: IsPlainSymbol(parser, cell[i]) }

  predicate AllPlain(parser: CsvParser, row: Row) { forall cell | cell in row :: IsPlain(parser, cell) }

  predicate TableIsPlain(parser: CsvParser, table: seq<Row>) { forall row | row in table :: AllPlain(parser, row) }

  predicate IsGrid(parser: CsvParser, table: seq<Row>, columns: nat) {
    IsRectangle(table, columns) && TableIsPlain(parser, table)
  }

  function Lines(table: seq<Row>): seq<string> {
    seq(|table|, i requires 0 <= i < |table| => Join(table[i], ','))
  }

  /** The table as a text, below a header line if the parser skips one. */
  function Render(parser: CsvParser, header: string, table: seq<Row>): string {
    Join((if parser.skipFirstRow then [header] else []) + Lines(table), '\n')
  }

  /** The last cell is lost when it is empty. */
  function Kept(row: Row): Row
    requires row != []
  {
    if row[|row| - 1] == "" then row[..|row| - 1] else row
  }

  lemma {:induction false} CellsCollect(parser: CsvParser, p: string, s: string, token: string)
    requires IsPlain(parser, p)
    ensures Cells(parser, p + s, Plain, token) == Cells(parser, s, Plain, token + p)
    decreases |p|
  {
    if p == "" {
      assert p + s == s && token + p == token;
    } else {
      assert (p + s)[0] == p[0] && (p + s)[1..] == p[1..] + s && IsPlainSymbol(parser, p[0]);
      CellsCollect(parser, p[1..], s, token + [p[0]]);
      assert token + [p[0]] + p[1..] == token + p;
    }
  }

  lemma {:induction false} PlainRowReturns(parser: CsvParser, row: Row)
    requires parser.comaAsDelimiter && row != [] && AllPlain(parser, row)
    ensures Cells(parser, Join(row, ','), Plain, "") == Kept(row)
  {
    assert row[0] in row;
    if |row| == 1 {
      FirstCell(parser, row[0], "");
      assert row[0] + "" == row[0];
    } else {
      var rest := Join(row[1..], ',');
      PlainRowReturns(parser, row[1..]);
      FirstCell(parser, row[0], "," + rest);
      assert row[0] + "," + rest == row[0] + ("," + rest);
      assert ("," + rest)[1..] == rest;
      assert Kept(row) == [row[0]] + Kept(row[1..]);
    }
  }

  lemma FirstCell(parser: CsvParser, cell: string, rest: string)
    requires IsPlain(parser, cell)
    ensures Cells(parser, cell + rest, Plain, "") == Cells(parser, rest, Plain, cell)
  {
    CellsCollect(parser, cell, rest, "");
    assert "" + cell == cell;
  }

  /** Whatever the line, its cells hold no separator, and no quote if quotes mean something. */
  lemma {:induction false} CellsArePlain(parser: CsvParser, line: string, state: Quoting, token: string)
    requires '\n' !in line && IsPlain(parser, token)
    ensures AllPlain(parser, Cells(parser, line, state, token))
    decreases |line|
  {
    if line != "" {
      var sym, rest := line[0], line[1..];
      CellsArePlain(parser, rest, Plain, token);
      CellsArePlain(parser, rest, SingleQuoted, token);
      CellsArePlain(parser, rest, DoubleQuoted, token);
      if parser.Separates(sym) {
        CellsArePlain(parser, rest, state, "");
      } else if !parser.escapedStrings || (sym != '\'' && sym != '"') {
        CellsArePlain(parser, rest, state, token + [sym]);
      }
    }
  }

  lemma {:induction false} TokenStays(parser: CsvParser, line: string, state: Quoting, token: string)
    requires token != ""
    ensures Cells(parser, line, state, token) != [] && token <= Cells(parser, line, state, token)[0]
    decreases |line|
  {
    if line != "" {
      var sym, rest := line[0], line[1..];
      TokenStays(parser, rest, Plain, token);
      TokenStays(parser, rest, SingleQuoted, token);
      TokenStays(parser, rest, DoubleQuoted, token);
      TokenStays(parser, rest, state, token + [sym]);
    }
  }

  /** Which symbols end a cell: under each option its own, and a tab where a semicolon does. */
  lemma SeparatesIff(parser: CsvParser, cell: string, sym: char, rest: string)
    requires IsPlain(parser, cell) && sym != '\'' && sym != '"'
    ensures Cells(parser, cell + [sym] + rest, Plain, "") == [cell] + Cells(parser, rest, Plain, "") <==>
              || (sym == ',' && parser.comaAsDelimiter) || (sym == ';' && parser.semicolonAsDelimiter)
              || (sym == '\t' && parser.semicolonAsDelimiter) || (sym == ' ' && parser.spacesAsDelimiter)
  {
    assert cell + [sym] + rest == cell + ([sym] + rest) && ([sym] + rest)[1..] == rest;
    FirstCell(parser, cell, [sym] + rest);
    TokenStays(parser, rest, Plain, cell + [sym]);
  }

  /** A joined row gives its cells back, but for an empty last one, if and only if all are plain. */
  lemma RowRoundTripIff(parser: CsvParser, row: Row)
    requires parser.comaAsDelimiter && row != [] && '\n' !in Join(row, ',')
    ensures Cells(parser, Join(row, ','), Plain, "") == Kept(row) <==> AllPlain(parser, row)
  {
    if AllPlain(parser, row) {
      PlainRowReturns(parser, row);
    }
    CellsArePlain(parser, Join(row, ','), Plain, "");
    if Cells(parser, Join(row, ','), Plain, "") == Kept(row) {
      forall cell | cell in row ensures IsPlain(parser, cell) {
        assert cell == "" || cell in Kept(row);
      }
    }
  }

  lemma HasVisible(s: string, c: char)
    requires c in s && !IsSpace(c)
    ensures Trim(s) != ""
  {
    TrimLeftShape(s);
    var n :| 0 <= n <= |s| && TrimLeft(s) == s[n..] && forall i | 0 <= i < n :: IsSpace(s[i]);
    var k :| 0 <= k < |s| && s[k] == c;
    assert k >= n && s[n..][k - n] == c;
    TrimRightShape(s[n..]);
    assert TrimRight(s[n..]) != "";
  }

  /** Only in a table of one column can a rendered line be blank. */
  lemma LineIsBlankIff(row: Row)
    requires row != []
    ensures Trim(Join(row, ',')) == "" <==> |row| == 1 && Trim(row[0]) == ""
  {
    if |row| > 1 {
      assert Join(row, ',')[|row[0]|] == ',';
      HasVisible(Join(row, ','), ',');
    }
  }

  predicate IsBlankRow(row: Row) { |row| == 1 && Trim(row[0]) == "" }

  lemma LineRowsOfRow(parser: CsvParser, row: Row)
    requires parser.comaAsDelimiter && row != [] && AllPlain(parser, row)
    ensures LineRows(parser, Join(row, ',')) == if IsBlankRow(row) then [] else [Kept(row)]
  {
    PlainRowReturns(parser, row);
    LineIsBlankIff(row);
  }

  /** The rendered lines give back all rows but the blank ones, each without an empty last cell. */
  lemma {:induction false} RowsOfLines(parser: CsvParser, table: seq<Row>, columns: nat)
    requires parser.comaAsDelimiter && IsGrid(parser, table, columns)
    ensures |Rows(parser, Lines(table))| <= |table|
    ensures |Rows(parser, Lines(table))| == |table| <==> NoBlankRow(table)
    ensures NoBlankRow(table) ==> Rows(parser, Lines(table)) == KeptRows(table)
  {
    if table != [] {
      var rest := table[1..];
      RowsOfLines(parser, rest, columns);
      OneMoreRow(parser, table, columns);
    }
  }

  lemma OneMoreRow(parser: CsvParser, table: seq<Row>, columns: nat)
    requires parser.comaAsDelimiter && IsGrid(parser, table, columns) && table != []
    ensures Rows(parser, Lines(table))
        == (if IsBlankRow(table[0]) then [] else [Kept(table[0])]) + Rows(parser, Lines(table[1..]))
    ensures NoBlankRow(table) <==> !IsBlankRow(table[0]) && NoBlankRow(table[1..])
    ensures KeptRows(table) == [Kept(table[0])] + KeptRows(table[1..])
  {
    assert table[0] in table;
    KeptRowsUnfold(table);
    var line := Join(table[0], ',');
    assert LineRows(parser, line) == (if IsBlankRow(table[0]) then [] else [Kept(table[0])]) by {
      assert table[0] in table;
      LineRowsOfRow(parser, table[0]);
    }
    assert Lines(table) == [line] + Lines(table[1..]);
    RowsUnfold(parser, Lines(table), 0);
    assert Lines(table)[0..] == Lines(table) && Lines(table)[1..] == Lines(table[1..]);
  }

  lemma KeptRowsUnfold(table: seq<Row>)
    requires table != [] && (forall row | row in table :: row != [])
    requires table[0] in table && forall row | row in table[1..] :: row != []
    ensures NoBlankRow(table) <==> !IsBlankRow(table[0]) && NoBlankRow(table[1..])
    ensures KeptRows(table) == [Kept(table[0])] + KeptRows(table[1..])
  {
    assert table == [table[0]] + table[1..];
  }

  predicate NoBlankRow(table: seq<Row>) {
    forall row | row in table :: !IsBlankRow(row)
  }

  predicate LastColumnUsed(table: seq<Row>) {
    exists row :: row in table && row != [] && row[|row| - 1] != ""
  }

  function KeptRows(table: seq<Row>): seq<Row>
    requires forall row | row in table :: row != []
  {
    seq(|table|, i requires 0 <= i < |table| => assert table[i] in table; Kept(table[i]))
  }

  lemma PaddingRestores(table: seq<Row>, columns: nat)
    requires columns > 0 && forall row | row in table :: |row| == columns
    requires LastColumnUsed(table)
    ensures Normalized(KeptRows(table)) == table
  {
    var kept := KeptRows(table);
    ColumnsIsMax(kept);
    var row :| row in table && row != [] && row[|row| - 1] != "";
    var k :| 0 <= k < |table| && table[k] == row;
    assert |kept[k]| == columns;
    assert Columns(kept) == columns;
    forall i | 0 <= i < |table| ensures Padded(kept[i], columns) == table[i] {
      assert table[i] in table;
      PaddingRestoresRow(table[i]);
    }
  }

  lemma PaddingRestoresRow(row: Row)
    requires row != []
    ensures Padded(Kept(row), |row|) == row
  {
  }

  lemma PaddingFallsShort(table: seq<Row>, columns: nat)
    requires table != [] && columns > 0 && forall row | row in table :: |row| == columns
    requires !LastColumnUsed(table)
    ensures Normalized(KeptRows(table)) != table
  {
    var kept := KeptRows(table);
    ColumnsIsMax(kept);
    forall i | 0 <= i < |table| ensures |kept[i]| == columns - 1 {
      assert table[i] in table;
    }
    assert Columns(kept) == columns - 1;
    assert Normalized(kept)[0] == Padded(kept[0], columns - 1);
    assert table[0] in table;
  }

  lemma LinesHaveNoBreaks(parser: CsvParser, table: seq<Row>, columns: nat)
    requires IsGrid(parser, table, columns)
    ensures forall line | line in Lines(table) :: '\n' !in line
  {
    forall i | 0 <= i < |table| ensures '\n' !in Lines(table)[i] {
      assert table[i] in table;
      JoinHasNoBreaks(table[i]);
    }
  }

  lemma {:induction false} JoinHasNoBreaks(row: Row)
    requires forall cell | cell in row :: '\n' !in cell
    ensures '\n' !in Join(row, ',')
  {
    if |row| > 1 {
      JoinHasNoBreaks(row[1..]);
    }
  }

  /** No table ever parsed holds a cell that is not plain. */
  lemma ParsedIsPlain(parser: CsvParser, data: string)
    ensures TableIsPlain(parser, Table(parser, data))
  {
    var lines := Split(data, '\n');
    SplitPartsAreFree(data, '\n');
    var used := if parser.skipFirstRow then lines[1..] else lines;
    assert forall line | line in used :: line in lines;
    RowsArePlain(parser, used);
    assert lines[0..] == lines;
    PaddedIsPlain(parser, Rows(parser, used));
  }

  lemma {:induction false} RowsArePlain(parser: CsvParser, lines: seq<string>)
    requires forall line | line in lines :: '\n' !in line
    ensures TableIsPlain(parser, Rows(parser, lines))
  {
    if lines != [] {
      assert lines[0] in lines;
      CellsArePlain(parser, lines[0], Plain, "");
      RowsArePlain(parser, lines[1..]);
    }
  }

  lemma PaddedIsPlain(parser: CsvParser, table: seq<Row>)
    requires TableIsPlain(parser, table)
    ensures TableIsPlain(parser, Normalized(table))
  {
    forall i | 0 <= i < |table| ensures AllPlain(parser, Normalized(table)[i]) {
      assert table[i] in table;
    }
  }

  /** For all options under which the comma separates: rendering a rectangular table and parsing
      it gives the table back if and only if it is empty, or all its cells are plain, no row
      renders as a blank line, and some cell of the last column is not empty. */
  lemma RoundTripIff(parser: CsvParser, header: string, table: seq<Row>, columns: nat)
    requires parser.comaAsDelimiter && '\n' !in header && IsRectangle(table, columns)
    ensures Table(parser, Render(parser, header, table)) == table
            <==> table == [] || (TableIsPlain(parser, table) && NoBlankRow(table) && LastColumnUsed(table))
  {
    if TableIsPlain(parser, table) {
      GridReturnsIff(parser, header, table, columns);
    } else {
      ParsedIsPlain(parser, Render(parser, header, table));
    }
  }

  lemma GridReturnsIff(parser: CsvParser, header: string, table: seq<Row>, columns: nat)
    requires parser.comaAsDelimiter && '\n' !in header && IsGrid(parser, table, columns)
    ensures Table(parser, Render(parser, header, table)) == table
            <==> table == [] || (NoBlankRow(table) && LastColumnUsed(table))
  {
    var lines := (if parser.skipFirstRow then [header] else []) + Lines(table);
    LinesHaveNoBreaks(parser, table, columns);
    RowsOfLines(parser, table, columns);
    if lines == [] {
      assert Split("", '\n') == [""];
      assert Rows(parser, [""]) == [];
    } else {
      SplitJoin(lines, '\n');
      assert (if parser.skipFirstRow then lines[1..] else lines) == Lines(table);
      if table != [] {
        if !NoBlankRow(table) {
          assert |Table(parser, Render(parser, header, table))| < |table|;
        } else if LastColumnUsed(table) {
          PaddingRestores(table, columns);
        } else {
          PaddingFallsShort(table, columns);
        }
      }
    }
  }

  /** With quoting on, text in quotes is dropped, separators and all, wherever it stands. */
  lemma QuotedTextIsLost(parser: CsvParser, quote: char, text: string, rest: string, token: string)
    requires parser.escapedStrings && (quote == '\'' || quote == '"') && quote !in text
    ensures Cells(parser, [quote] + (text + ([quote] + rest)), Plain, token) == Cells(parser, rest, Plain, token)
  {
    var line := [quote] + (text + ([quote] + rest));
    assert line[1..] == text + ([quote] + rest);
    TextIsSkipped(parser, quote, text, [quote] + rest, token);
    assert ([quote] + rest)[1..] == rest;
  }

  lemma {:induction false} TextIsSkipped(parser: CsvParser, quote: char, text: string, rest: string, token: string)
    requires parser.escapedStrings && (quote == '\'' || quote == '"') && quote !in text
    ensures var state := if quote == '"' then DoubleQuoted else SingleQuoted;
            Cells(parser, text + rest, state, token) == Cells(parser, rest, state, token)
  {
    if text == "" {
      assert text + rest == rest;
    } else {
      assert (text + rest)[0] == text[0] && (text + rest)[1..] == text[1..] + rest && text[0] in text;
      TextIsSkipped(parser, quote, text[1..], rest, token);
    }
  }
}
