/** The two-pane diff view: filler maps are built from the edit script, each pane is painted
    with its own map, and the panes line up row by row. */
module DiffAlignment {
  import opened Wrappers

  datatype LineRange = LineRange(start: int, end: int) {
    function Length(): int { end - start + 1 }
  }

  datatype OperationType = LINE_EQUAL | LINE_DIFFER | LINE_DELETED | LINE_INSERTED

  /** `first` and `second` are the ranges of one-based line numbers in the two texts. */
  datatype DiffOperation = DiffOperation(first: LineRange, second: LineRange, operation: OperationType)

  datatype Side = First | Second

  function Min(a: int, b: int): int { if a < b then a else b }

  // ---------------------------------------------------------------- building the maps

  function Entry(k: int, rows: int): map<int, int> { if rows > 0 then map[k := rows] else map[] }

  /** The filler one operation asks for: so many rows behind line number so-and-so. */
  function Filler(op: DiffOperation, side: Side): map<int, int> {
    var own := if side.First? then op.first else op.second;
    var other := if side.First? then op.second else op.first;
    match op.operation
    case LINE_EQUAL => map[]
    case LINE_DELETED => if side.Second? then map[own.end := other.Length()] else map[]
    case LINE_INSERTED => if side.First? then map[own.end := other.Length()] else map[]
    case LINE_DIFFER => Entry(own.end, other.Length() - own.Length())
  }

  function Fillers(ops: seq<DiffOperation>, side: Side): map<int, int> {
    if ops == [] then map[] else Filler(ops[0], side) + Fillers(ops[1..], side)
  }

  /** Does one operation mark line number `n` as changed? */
  predicate Marks(op: DiffOperation, side: Side, n: int) {
    var own := if side.First? then op.first else op.second;
    op.operation.LINE_DIFFER? && own.start <= n < own.start + Min(op.first.Length(), op.second.Length())
  }

  predicate IsChanged(ops: seq<DiffOperation>, side: Side, n: int) {
    ops != [] && (Marks(ops[0], side, n) || IsChanged(ops[1..], side, n))
  }

  lemma MapSum(m: map<int, int>, f: map<int, int>, r: map<int, int>)
    ensures (m + f) + r == m + (f + r)
  {
  }

  /** `changed` holds the line numbers that the operations mark. */
  ghost predicate MarkedBy(changed: set<int>, ops: seq<DiffOperation>, side: Side) {
    forall n :: n in changed <==> IsChanged(ops, side, n)
  }

  class FileDiffView {
    const diffs: seq<DiffOperation>
    var firstEmptyLines: map<int, int>
    var secondEmptyLines: map<int, int>
    var firstChangedLines: set<int>
    var secondChangedLines: set<int>

    constructor (diffs: seq<DiffOperation>)
      ensures this.diffs == diffs
      ensures firstEmptyLines == Fillers(diffs, First) && secondEmptyLines == Fillers(diffs, Second)
      ensures MarkedBy(firstChangedLines, diffs, First) && MarkedBy(secondChangedLines, diffs, Second)
    {
      this.diffs := diffs;
      firstEmptyLines, secondEmptyLines := map[], map[];
      firstChangedLines, secondChangedLines := {}, {};
      new;
      BuildAlignment();
    }

    method BuildAlignment()
      requires firstEmptyLines == map[] && secondEmptyLines == map[]
      requires firstChangedLines == {} && secondChangedLines == {}
      modifies this
      ensures firstEmptyLines == Fillers(diffs, First) && secondEmptyLines == Fillers(diffs, Second)
      ensures MarkedBy(firstChangedLines, diffs, First) && MarkedBy(secondChangedLines, diffs, Second)
    {
      for k := 0 to |diffs|
        invariant firstEmptyLines + Fillers(diffs[k..], First) == Fillers(diffs, First)
        invariant secondEmptyLines + Fillers(diffs[k..], Second) == Fillers(diffs, Second)
        invariant forall n :: IsChanged(diffs, First, n) <==> n in firstChangedLines || IsChanged(diffs[k..], First, n)
        invariant forall n :: IsChanged(diffs, Second, n) <==>
            n in secondChangedLines || IsChanged(diffs[k..], Second, n)
      {
        assert diffs[k..][1..] == diffs[k + 1..];
        MapSum(firstEmptyLines, Filler(diffs[k], First), Fillers(diffs[k + 1..], First));
        MapSum(secondEmptyLines, Filler(diffs[k], Second), Fillers(diffs[k + 1..], Second));
        AlignOne(diffs[k]);
      }
    }

    method AlignOne(diff: DiffOperation)
      modifies this
      ensures firstEmptyLines == old(firstEmptyLines) + Filler(diff, First)
      ensures secondEmptyLines == old(secondEmptyLines) + Filler(diff, Second)
      ensures forall n :: n in firstChangedLines <==> n in old(firstChangedLines) || Marks(diff, First, n)
      ensures forall n :: n in secondChangedLines <==> n in old(secondChangedLines) || Marks(diff, Second, n)
    {
      var first, second := diff.first.Length(), diff.second.Length();
      match diff.operation {
        case LINE_DELETED =>
          secondEmptyLines := secondEmptyLines[diff.second.end := first];
        case LINE_INSERTED =>
          firstEmptyLines := firstEmptyLines[diff.first.end := second];
        case LINE_DIFFER =>
          if second > first {
            firstEmptyLines := firstEmptyLines[diff.first.end := second - first];
          } else if first > second {
            secondEmptyLines := secondEmptyLines[diff.second.end := first - second];
          }
          MarkChanged(diff);
        case LINE_EQUAL =>
      }
    }

    method MarkChanged(diff: DiffOperation)
      requires diff.operation.LINE_DIFFER?
      modifies this`firstChangedLines, this`secondChangedLines
      ensures forall n :: n in firstChangedLines <==> n in old(firstChangedLines) || Marks(diff, First, n)
      ensures forall n :: n in secondChangedLines <==> n in old(secondChangedLines) || Marks(diff, Second, n)
    {
      var count := Min(diff.first.Length(), diff.second.Length());
      var i := 0;
      while i < count
        invariant if count < 0 then i == 0 else 0 <= i <= count
        invariant forall n :: n in firstChangedLines <==>
                    n in old(firstChangedLines) || diff.first.start <= n < diff.first.start + i
        invariant forall n :: n in secondChangedLines <==>
                    n in old(secondChangedLines) || diff.second.start <= n < diff.second.start + i
      {
        firstChangedLines := firstChangedLines + {diff.first.start + i};
        secondChangedLines := secondChangedLines + {diff.second.start + i};
        i := i + 1;
      }
    }
  }

  // ---------------------------------------------------------------- painting a pane

  /** One drawn row: filler, or a line of the text by its zero-based index. */
  datatype Row = Blank | Line(index: int, highlighted: bool)

  function FillAt(empty: map<int, int>, k: int): nat {
    if k in empty && empty[k] > 0 then empty[k] else 0
  }

  function Blanks(n: nat): seq<Row> { seq(n, _ => Blank) }

  /** The rows from line `i` on, the filler in front of it included. */
  function PaneFrom(i: int, count: int, empty: map<int, int>, changed: set<int>): seq<Row>
    decreases count - i
  {
    if i >= count then [] else Blanks(FillAt(empty, i)) + LinesFrom(i, count, empty, changed)
  }

  /** The rows from line `i` on, without the filler in front of it. */
  function LinesFrom(i: int, count: int, empty: map<int, int>, changed: set<int>): seq<Row>
    requires i < count
    decreases count - i, 0
  {
    [Line(i, i + 1 in changed)] + PaneFrom(i + 1, count, empty, changed)
  }

  function Pane(count: nat, empty: map<int, int>, changed: set<int>): seq<Row> {
    PaneFrom(0, count, empty, changed)
  }

  lemma Associate(p: seq<Row>, q: seq<Row>, r: seq<Row>)
    ensures (p + q) + r == p + (q + r)
  {
  }

  lemma PaneStep(above: seq<Row>, i: int, count: int, empty: map<int, int>, changed: set<int>)
    requires i < count
    ensures above + PaneFrom(i, count, empty, changed)
              == above + Blanks(FillAt(empty, i)) + [Line(i, i + 1 in changed)] + PaneFrom(i + 1, count, empty, changed)
  {
    Associate(above, Blanks(FillAt(empty, i)), LinesFrom(i, count, empty, changed));
    Associate(above + Blanks(FillAt(empty, i)), [Line(i, i + 1 in changed)], PaneFrom(i + 1, count, empty, changed));
  }

  /** LineCommentableTextPainter.paint: what is drawn on which row. */
  method PaintText(linesCount: nat, emptyLines: map<int, int>, changedLines: set<int>) returns (canvas: seq<Row>)
    ensures canvas == Pane(linesCount, emptyLines, changedLines)
  {
    canvas := [];
    var visualLineNumber := 0;
    for i := 0 to linesCount
      invariant |canvas| == visualLineNumber
      invariant canvas + PaneFrom(i, linesCount, emptyLines, changedLines) == Pane(linesCount, emptyLines, changedLines)
    {
      PaneStep(canvas, i, linesCount, emptyLines, changedLines);
      var skipLinesCount := if i in emptyLines then emptyLines[i] else 0;
      canvas, visualLineNumber := PaintFiller(canvas, visualLineNumber, skipLinesCount);
      canvas := canvas + [Line(i, i + 1 in changedLines)];
      visualLineNumber := visualLineNumber + 1;
    }
  }

  /** The inner loop of the painter. */
  method PaintFiller(above: seq<Row>, rowNumber: nat, skipLinesCount: int)
    returns (canvas: seq<Row>, visualLineNumber: nat)
    requires rowNumber == |above|
    ensures canvas == above + Blanks(if skipLinesCount > 0 then skipLinesCount else 0) && visualLineNumber == |canvas|
  {
    canvas, visualLineNumber := above, rowNumber;
    var j := 0;
    while j < skipLinesCount
      invariant 0 <= j && (j <= skipLinesCount || j == 0)
      invariant canvas == above + Blanks(j) && visualLineNumber == |canvas|
    {
      canvas := canvas + [Blank];
      visualLineNumber := visualLineNumber + 1;
      j := j + 1;
    }
  }

  /** Row `r` shows the text of line number `n`. */
  predicate IsTextRow(pane: seq<Row>, r: int, n: int) {
    0 <= r < |pane| && pane[r].Line? && pane[r].index == n - 1
  }

  /** The rows above line `i` and its own filler. */
  function Above(i: nat, empty: map<int, int>): nat {
    if i == 0 then 0 else Above(i - 1, empty) + FillAt(empty, i - 1) + 1
  }

  lemma {:induction false} TextRowOf(j: nat, i: nat, count: nat, empty: map<int, int>, changed: set<int>)
    requires j <= i < count
    ensures Above(j, empty) <= Above(i, empty)
    ensures IsTextRow(PaneFrom(j, count, empty, changed), Above(i, empty) - Above(j, empty) + FillAt(empty, i), i + 1)
    decreases i - j
  {
    if j < i {
      TextRowOf(j + 1, i, count, empty, changed);
    }
  }

  /** LineNumbersPainter.paint: the row on which each line number is drawn. */
  method PaintNumbers(linesCount: nat, emptyLines: map<int, int>) returns (numbers: map<int, int>)
    ensures forall n :: n in numbers <==> 1 <= n <= linesCount
    ensures forall n, changed | n in numbers :: IsTextRow(Pane(linesCount, emptyLines, changed), numbers[n], n)
  {
    numbers := map[];
    var offset, realLineNumber := 0, 1;
    for i := 0 to linesCount
      invariant realLineNumber == i + 1 && offset == Above(i, emptyLines)
      invariant forall n :: n in numbers <==> 1 <= n <= i
      invariant forall n | n in numbers :: numbers[n] == Above(n - 1, emptyLines) + FillAt(emptyLines, n - 1)
    {
      var skipLines := if realLineNumber - 1 in emptyLines then emptyLines[realLineNumber - 1] else 0;
      var j := 0;
      while j < skipLines
        invariant 0 <= j <= FillAt(emptyLines, i) && offset == Above(i, emptyLines) + j
      {
        offset := offset + 1;
        j := j + 1;
      }
      numbers := numbers[realLineNumber := offset];
      offset := offset + 1;
      realLineNumber := realLineNumber + 1;
    }
    forall n, changed | n in numbers ensures IsTextRow(Pane(linesCount, emptyLines, changed), numbers[n], n) {
      TextRowOf(0, n - 1, linesCount, emptyLines, changed);
    }
  }

  // ---------------------------------------------------------------- edit scripts and their layout

  /** An edit script: `gap` common lines, then `del` lines of the first text against `ins` of
      the second, and so on; `tail` common lines at the end. */
  datatype Script = End(tail: nat) | Hunk(gap: nat, del: nat, ins: nat, rest: Script)

  /** Every hunk but the first has common lines in front of it, and no hunk is empty. */
  predicate IsScript(script: Script, separation: nat) {
    script.Hunk? ==> script.gap >= separation && (script.del > 0 || script.ins > 0) && IsScript(script.rest, 1)
  }

  /** How `diff` prints a hunk that starts behind `x` and `y` lines. */
  function Operation(del: int, ins: int, x: int, y: int): DiffOperation {
    DiffOperation(LineRange(if del == 0 then x else x + 1, x + del),
                  LineRange(if ins == 0 then y else y + 1, y + ins),
                  if del == 0 then LINE_INSERTED else if ins == 0 then LINE_DELETED else LINE_DIFFER)
  }

  /** `ops` is what `diff` prints for the script, behind `a` and `b` lines. */
  predicate Prints(script: Script, a: int, b: int, ops: seq<DiffOperation>) {
    match script
    case End(_) => ops == []
    case Hunk(gap, del, ins, rest) =>
      && ops != [] && ops[0] == Operation(del, ins, a + gap, b + gap)
      && Prints(rest, a + gap + del, b + gap + ins, ops[1..])
  }

  function LineCount(script: Script, side: Side): nat {
    match script
    case End(tail) => tail
    case Hunk(gap, del, ins, rest) => gap + (if side.First? then del else ins) + LineCount(rest, side)
  }

  /** The reference: the rows of both panes side by side, read off the script. */
  function Layout(script: Script, a: int, b: int): seq<(Row, Row)> {
    match script
    case End(tail) => CommonRows(a, b, tail)
    case Hunk(gap, del, ins, rest) =>
      CommonRows(a, b, gap) + HunkRows(a + gap, b + gap, del, ins) + Layout(rest, a + gap + del, b + gap + ins)
  }

  function CommonRows(a: int, b: int, n: nat): seq<(Row, Row)> {
    seq(n, i => (Line(a + i, false), Line(b + i, false)))
  }

  /** Lines are paired from the top; what is left over stands against filler. */
  function HunkRows(a: int, b: int, del: nat, ins: nat): seq<(Row, Row)> {
    seq(if del > ins then del else ins, i requires 0 <= i =>
      (if i < del then Line(a + i, i < ins) else Blank, if i < ins then Line(b + i, i < del) else Blank))
  }

  function Firsts(rows: seq<(Row, Row)>): seq<Row> { seq(|rows|, i requires 0 <= i < |rows| => rows[i].0) }

  function Seconds(rows: seq<(Row, Row)>): seq<Row> { seq(|rows|, i requires 0 <= i < |rows| => rows[i].1) }

  // ---------------------------------------------------------------- the maps, read off the script

  /** The script that turns the second text into the first. */
  function Swap(script: Script): Script {
    match script
    case End(tail) => script
    case Hunk(gap, del, ins, rest) => Hunk(gap, ins, del, Swap(rest))
  }

  /** The filler of the first side, behind `a` lines. */
  function ScriptFillers(script: Script, a: int): map<int, int> {
    match script
    case End(_) => map[]
    case Hunk(gap, del, ins, rest) =>
      Entry(a + gap + del, ins - del) + ScriptFillers(rest, a + gap + del)
  }

  /** Line number `n` of the first side is changed, behind `a` lines. */
  predicate ScriptChanges(script: Script, a: int, n: int) {
    match script
    case End(_) => false
    case Hunk(gap, del, ins, rest) =>
      a + gap < n <= a + gap + Min(del, ins) || ScriptChanges(rest, a + gap + del, n)
  }

  lemma FillerOf(del: nat, ins: nat, x: int, y: int)
    requires del > 0 || ins > 0
    ensures Filler(Operation(del, ins, x, y), First) == Entry(x + del, ins - del)
    ensures Filler(Operation(del, ins, x, y), Second) == Entry(y + ins, del - ins)
  {
  }

  /** The fillers that the view builds from the printed operations, on either side. */
  lemma BuiltFillers(script: Script, a: int, b: int, ops: seq<DiffOperation>)
    requires IsScript(script, 0) && Prints(script, a, b, ops)
    ensures Fillers(ops, First) == ScriptFillers(script, a)
    ensures Fillers(ops, Second) == ScriptFillers(Swap(script), b)
  {
    BuiltFillersFirst(script, a, b, ops);
    BuiltFillersSecond(script, a, b, ops);
  }

  lemma {:induction false} BuiltFillersFirst(script: Script, a: int, b: int, ops: seq<DiffOperation>)
    requires IsScript(script, 0) && Prints(script, a, b, ops)
    ensures Fillers(ops, First) == ScriptFillers(script, a)
    decreases script
  {
    match script
    case End(_) =>
    case Hunk(gap, del, ins, rest) =>
      BuiltFillersFirst(rest, a + gap + del, b + gap + ins, ops[1..]);
      FillerOf(del, ins, a + gap, b + gap);
  }

  lemma {:induction false} BuiltFillersSecond(script: Script, a: int, b: int, ops: seq<DiffOperation>)
    requires IsScript(script, 0) && Prints(script, a, b, ops)
    ensures Fillers(ops, Second) == ScriptFillers(Swap(script), b)
    decreases script
  {
    match script
    case End(_) =>
    case Hunk(gap, del, ins, rest) =>
      BuiltFillersSecond(rest, a + gap + del, b + gap + ins, ops[1..]);
      FillerOf(del, ins, a + gap, b + gap);
  }

  /** And the changed lines. */
  lemma {:induction false} BuiltChanges(script: Script, a: int, b: int, ops: seq<DiffOperation>, n: int)
    requires IsScript(script, 0) && Prints(script, a, b, ops)
    ensures IsChanged(ops, First, n) == ScriptChanges(script, a, n)
    ensures IsChanged(ops, Second, n) == ScriptChanges(Swap(script), b, n)
    decreases script
  {
    match script
    case End(_) =>
    case Hunk(gap, del, ins, rest) =>
      BuiltChanges(rest, a + gap + del, b + gap + ins, ops[1..], n);
  }

  /** All fillers of a script lie behind the lines already consumed, and so do all changes. */
  lemma {:induction false} MapsLieBehind(script: Script, a: int, separation: nat)
    requires IsScript(script, separation)
    ensures forall k | k in ScriptFillers(script, a) :: k >= a + separation
    ensures forall n | ScriptChanges(script, a, n) :: n > a
    decreases script
  {
    match script
    case End(_) =>
    case Hunk(gap, del, ins, rest) => MapsLieBehind(rest, a + gap + del, 1);
  }

  // ---------------------------------------------------------------- a pane follows the layout

  function TextRows(i: int, n: nat, changed: set<int>): (rows: seq<Row>)
    ensures |rows| == n && forall j | 0 <= j < n :: rows[j] == Line(i + j, i + j + 1 in changed)
    decreases n
  {
    if n == 0 then [] else [Line(i, i + 1 in changed)] + TextRows(i + 1, n - 1, changed)
  }

  /** The rows a pane needs from position `a` on, the filler behind the last line included;
      with `separation` the filler directly at `a` is already there. */
  function Needed(a: int, separation: nat, count: int, empty: map<int, int>, changed: set<int>): seq<Row> {
    (if separation == 0 then Blanks(FillAt(empty, a)) else [])
    + (if a < count then LinesFrom(a, count, empty, changed) + Blanks(FillAt(empty, count)) else [])
  }

  lemma NeededLine(a: int, separation: nat, count: int, empty: map<int, int>, changed: set<int>)
    requires separation <= 1 && a < count && (separation == 0 ==> FillAt(empty, a) == 0)
    ensures Needed(a, separation, count, empty, changed)
              == [Line(a, a + 1 in changed)] + Needed(a + 1, 0, count, empty, changed)
  {
    var end := Blanks(FillAt(empty, count));
    assert Blanks(0) == [];
    assert Needed(a, separation, count, empty, changed) == LinesFrom(a, count, empty, changed) + end;
    if a + 1 < count {
      var fill, lines := Blanks(FillAt(empty, a + 1)), LinesFrom(a + 1, count, empty, changed);
      assert [Line(a, a + 1 in changed)] + (fill + lines) + end == [Line(a, a + 1 in changed)] + (fill + (lines + end));
    }
  }

  lemma NeededFill(a: int, count: int, empty: map<int, int>, changed: set<int>)
    ensures Needed(a, 0, count, empty, changed) == Blanks(FillAt(empty, a)) + Needed(a, 1, count, empty, changed)
  {
  }

  /** A stretch without filler in between. */
  lemma {:induction false} Stretch(a: int, separation: nat, n: nat, count: int, empty: map<int, int>, changed: set<int>)
    requires separation <= 1 && separation <= n && a + n <= count
    requires forall k | a + separation <= k < a + n :: FillAt(empty, k) == 0
    ensures Needed(a, separation, count, empty, changed)
        == TextRows(a, n, changed) + Needed(a + n, 0, count, empty, changed)
    decreases n
  {
    if n > 0 {
      Stretch(a + 1, 0, n - 1, count, empty, changed);
      NeededLine(a, separation, count, empty, changed);
    }
  }

  lemma HunkColumn(a: int, b: int, gap: nat, del: nat, ins: nat, changed: set<int>)
    requires forall n | a < n <= a + gap + del :: n in changed <==> a + gap < n <= a + gap + Min(del, ins)
    ensures Firsts(CommonRows(a, b, gap) + HunkRows(a + gap, b + gap, del, ins))
              == TextRows(a, gap + del, changed) + Blanks(if ins > del then ins - del else 0)
  {
  }

  lemma FirstsConcat(p: seq<(Row, Row)>, q: seq<(Row, Row)>)
    ensures Firsts(p + q) == Firsts(p) + Firsts(q)
  {
  }

  /** The map and the set, read along one hunk and the common lines before it. */
  ghost predicate FitsHunk(a: int, gap: nat, del: nat, ins: nat, separation: nat, empty: map<int, int>,
      changed: set<int>)
  {
    var x := a + gap + del;
    && (forall k | a + separation <= k < x :: FillAt(empty, k) == 0)
    && FillAt(empty, x) == (if ins > del then ins - del else 0)
    && (forall n | a < n <= x :: n in changed <==> a + gap < n <= a + gap + Min(del, ins))
  }

  /** The rows of one hunk and the common lines before it, in front of the right rows. */
  lemma HunkPane(a: int, b: int, gap: nat, del: nat, ins: nat, separation: nat, rest: seq<(Row, Row)>,
                 count: int, empty: map<int, int>, changed: set<int>)
    requires separation <= 1 && separation <= gap && a + gap + del <= count
    requires FitsHunk(a, gap, del, ins, separation, empty, changed)
    requires Needed(a + gap + del, 1, count, empty, changed) == Firsts(rest)
    ensures Needed(a, separation, count, empty, changed)
              == Firsts(CommonRows(a, b, gap) + HunkRows(a + gap, b + gap, del, ins) + rest)
  {
    HunkNeeded(a, gap, del, ins, separation, Firsts(rest), count, empty, changed);
    HunkColumn(a, b, gap, del, ins, changed);
    FirstsConcat(CommonRows(a, b, gap) + HunkRows(a + gap, b + gap, del, ins), rest);
  }

  lemma HunkNeeded(a: int, gap: nat, del: nat, ins: nat, separation: nat, rest: seq<Row>,
                   count: int, empty: map<int, int>, changed: set<int>)
    requires separation <= 1 && separation <= gap && a + gap + del <= count
    requires forall k | a + separation <= k < a + gap + del :: FillAt(empty, k) == 0
    requires FillAt(empty, a + gap + del) == (if ins > del then ins - del else 0)
    requires Needed(a + gap + del, 1, count, empty, changed) == rest
    ensures Needed(a, separation, count, empty, changed)
              == TextRows(a, gap + del, changed) + Blanks(if ins > del then ins - del else 0) + rest
  {
    var x := a + gap + del;
    Stretch(a, separation, gap + del, count, empty, changed);
    NeededFill(x, count, empty, changed);
    Associate(TextRows(a, gap + del, changed), Blanks(FillAt(empty, x)), rest);
  }

  lemma EndPane(a: int, b: int, tail: nat, separation: nat, empty: map<int, int>, changed: set<int>)
    requires separation <= 1
    requires forall k | k >= a + separation :: FillAt(empty, k) == 0
    requires forall n | n > a :: n !in changed
    ensures Needed(a, separation, a + tail, empty, changed) == Firsts(CommonRows(a, b, tail))
  {
    if separation <= tail {
      Stretch(a, separation, tail, a + tail, empty, changed);
    }
    assert TextRows(a, tail, changed) == Firsts(CommonRows(a, b, tail));
  }

  /** The map and the set, read along the script behind `a`. */
  ghost predicate Fits(script: Script, a: int, separation: nat, empty: map<int, int>, changed: set<int>) {
    match script
    case End(tail) =>
      (forall k | k >= a + separation :: FillAt(empty, k) == 0) && (forall n | n > a :: n !in changed)
    case Hunk(gap, del, ins, rest) =>
      FitsHunk(a, gap, del, ins, separation, empty, changed) && Fits(rest, a + gap + del, 1, empty, changed)
  }

  lemma EntryFill(x: int, rows: int, tail: map<int, int>)
    requires forall k | k in tail :: k > x
    ensures FillAt(Entry(x, rows) + tail, x) == if rows > 0 then rows else 0
    ensures forall k | k != x :: FillAt(Entry(x, rows) + tail, k) == FillAt(tail, k)
  {
  }

  lemma {:induction false} ScriptMapsFit(script: Script, a: int, separation: nat, empty: map<int, int>,
      changed: set<int>)
    requires separation <= 1 && IsScript(script, separation)
    requires forall k | k >= a + separation :: FillAt(empty, k) == FillAt(ScriptFillers(script, a), k)
    requires forall n | n > a :: n in changed <==> ScriptChanges(script, a, n)
    ensures Fits(script, a, separation, empty, changed)
    decreases script
  {
    match script
    case End(tail) =>
    case Hunk(gap, del, ins, rest) =>
      MapsLieBehind(rest, a + gap + del, 1);
      forall n ensures ScriptChanges(script, a, n) <==>
        a + gap < n <= a + gap + Min(del, ins) || ScriptChanges(rest, a + gap + del, n)
      {
      }
      EntryFill(a + gap + del, ins - del, ScriptFillers(rest, a + gap + del));
      ScriptMapsFit(rest, a + gap + del, 1, empty, changed);
  }

  lemma {:induction false} FittingPane(script: Script, a: int, b: int, separation: nat, count: int,
                                       empty: map<int, int>, changed: set<int>, rows: seq<(Row, Row)>)
    requires separation <= 1 && IsScript(script, separation) && count == a + LineCount(script, First)
    requires Fits(script, a, separation, empty, changed) && rows == Layout(script, a, b)
    ensures Needed(a, separation, count, empty, changed) == Firsts(rows)
    decreases script
  {
    match script
    case End(tail) =>
      EndPane(a, b, tail, separation, empty, changed);
    case Hunk(gap, del, ins, rest) =>
      var x, y := a + gap + del, b + gap + ins;
      FittingPane(rest, x, y, 1, count, empty, changed, Layout(rest, x, y));
      HunkPane(a, b, gap, del, ins, separation, Layout(rest, x, y), count, empty, changed);
  }

  // ---------------------------------------------------------------- the main results

  /** What a pane shows, and below it the filler that no line follows. */
  function FullPane(count: nat, empty: map<int, int>, changed: set<int>): seq<Row> {
    Pane(count, empty, changed) + Blanks(FillAt(empty, count))
  }

  lemma FirstPaneIsLaidOut(script: Script, changed: set<int>)
    requires IsScript(script, 0) && forall n :: n in changed <==> ScriptChanges(script, 0, n)
    ensures FullPane(LineCount(script, First), ScriptFillers(script, 0), changed) == Firsts(Layout(script, 0, 0))
  {
    var count, empty := LineCount(script, First), ScriptFillers(script, 0);
    ScriptMapsFit(script, 0, 0, empty, changed);
    FittingPane(script, 0, 0, 0, count, empty, changed, Layout(script, 0, 0));
    if count > 0 {
      Associate(Blanks(FillAt(empty, 0)), LinesFrom(0, count, empty, changed), Blanks(FillAt(empty, count)));
    }
  }

  lemma {:induction false} SwapMirrors(script: Script, a: int, b: int, separation: nat,
                                       rows: seq<(Row, Row)>, mirrored: seq<(Row, Row)>)
    requires IsScript(script, separation) && rows == Layout(script, a, b) && mirrored == Layout(Swap(script), b, a)
    ensures IsScript(Swap(script), separation) && LineCount(Swap(script), First) == LineCount(script, Second)
    ensures Firsts(mirrored) == Seconds(rows)
    decreases script
  {
    match script
    case End(tail) =>
    case Hunk(gap, del, ins, rest) =>
      var x, y := a + gap + del, b + gap + ins;
      SwapMirrors(rest, x, y, 1, Layout(rest, x, y), Layout(Swap(rest), y, x));
      SwapMirrorsRows(a, b, gap, del, ins, Layout(rest, x, y), Layout(Swap(rest), y, x));
  }

  lemma SwapMirrorsRows(a: int, b: int, gap: nat, del: nat, ins: nat, rest: seq<(Row, Row)>, mirrored: seq<(Row, Row)>)
    requires Firsts(mirrored) == Seconds(rest)
    ensures Firsts(CommonRows(b, a, gap) + HunkRows(b + gap, a + gap, ins, del) + mirrored)
              == Seconds(CommonRows(a, b, gap) + HunkRows(a + gap, b + gap, del, ins) + rest)
  {
    assert |mirrored| == |Firsts(mirrored)| == |rest|;
    assert forall k | 0 <= k < |rest| :: mirrored[k].0 == Firsts(mirrored)[k] == Seconds(rest)[k] == rest[k].1;
  }

  /** Both panes, drawn with the maps and sets that the view builds, follow one layout. */
  lemma PanesLineUp(script: Script, ops: seq<DiffOperation>, changed1: set<int>, changed2: set<int>)
    requires IsScript(script, 0) && Prints(script, 0, 0, ops)
    requires MarkedBy(changed1, ops, First) && MarkedBy(changed2, ops, Second)
    ensures FullPane(LineCount(script, First), Fillers(ops, First), changed1) == Firsts(Layout(script, 0, 0))
    ensures FullPane(LineCount(script, Second), Fillers(ops, Second), changed2) == Seconds(Layout(script, 0, 0))
  {
    PanesOfTexts(script, ops, changed1, changed2, LineCount(script, First), LineCount(script, Second));
  }

  // ---------------------------------------------------------------- what the layout means for the texts

  /** The script is one for these texts: the lines it calls common are equal.  A text that ends with
      a line break has one empty line behind those that `diff` counts. */
  predicate Relates(script: Script, first: seq<string>, second: seq<string>, a: nat, b: nat) {
    match script
    case End(tail) =>
      && IsLastLine(first, a + tail) && IsLastLine(second, b + tail)
      && first[a..a + tail] == second[b..b + tail]
    case Hunk(gap, del, ins, rest) =>
      && a + gap + del <= |first| && b + gap + ins <= |second| && first[a..a + gap] == second[b..b + gap]
      && Relates(rest, first, second, a + gap + del, b + gap + ins)
  }

  predicate IsLastLine(text: seq<string>, n: nat) { |text| == n || (|text| == n + 1 && text[n] == "") }

  /** What two rows side by side may be: equal lines, a changed pair, or a line against filler. */
  predicate Matched(row: (Row, Row), first: seq<string>, second: seq<string>) {
    && (row.0.Line? ==> 0 <= row.0.index < |first|) && (row.1.Line? ==> 0 <= row.1.index < |second|)
    && (row.0.Line? || row.1.Line?)
    && (row.0.Line? && row.1.Line? ==>
          row.0.highlighted == row.1.highlighted && (!row.0.highlighted ==> first[row.0.index] == second[row.1.index]))
    && (row.0.Blank? ==> !row.1.highlighted) && (row.1.Blank? ==> !row.0.highlighted)
  }

  predicate AllMatched(rows: seq<(Row, Row)>, first: seq<string>, second: seq<string>) {
    forall r | 0 <= r < |rows| :: Matched(rows[r], first, second)
  }

  lemma MatchedConcat(p: seq<(Row, Row)>, q: seq<(Row, Row)>, first: seq<string>, second: seq<string>)
    requires AllMatched(p, first, second) && AllMatched(q, first, second)
    ensures AllMatched(p + q, first, second)
  {
  }

  lemma {:induction false} LayoutMatches(script: Script, first: seq<string>, second: seq<string>, a: nat, b: nat,
                                         rows: seq<(Row, Row)>)
    requires Relates(script, first, second, a, b) && rows == Layout(script, a, b)
    ensures AllMatched(rows, first, second)
    decreases script
  {
    match script
    case End(tail) =>
      CommonMatches(first, second, a, b, tail);
    case Hunk(gap, del, ins, rest) =>
      var x, y := a + gap + del, b + gap + ins;
      LayoutMatches(rest, first, second, x, y, Layout(rest, x, y));
      OneMoreHunkMatches(first, second, a, b, gap, del, ins, Layout(rest, x, y));
  }

  lemma OneMoreHunkMatches(first: seq<string>, second: seq<string>, a: nat, b: nat, gap: nat, del: nat, ins: nat,
                           rest: seq<(Row, Row)>)
    requires a + gap + del <= |first| && b + gap + ins <= |second| && first[a..a + gap] == second[b..b + gap]
    requires AllMatched(rest, first, second)
    ensures AllMatched(CommonRows(a, b, gap) + HunkRows(a + gap, b + gap, del, ins) + rest, first, second)
  {
    var common, hunk := CommonRows(a, b, gap), HunkRows(a + gap, b + gap, del, ins);
    CommonMatches(first, second, a, b, gap);
    HunkMatches(first, second, a + gap, b + gap, del, ins);
    MatchedConcat(common, hunk, first, second);
    MatchedConcat(common + hunk, rest, first, second);
  }

  lemma CommonMatches(first: seq<string>, second: seq<string>, a: nat, b: nat, n: nat)
    requires a + n <= |first| && b + n <= |second| && first[a..a + n] == second[b..b + n]
    ensures AllMatched(CommonRows(a, b, n), first, second)
  {
    forall r | 0 <= r < n ensures Matched(CommonRows(a, b, n)[r], first, second) {
      assert first[a..a + n][r] == second[b..b + n][r];
    }
  }

  lemma HunkMatches(first: seq<string>, second: seq<string>, a: nat, b: nat, del: nat, ins: nat)
    requires a + del <= |first| && b + ins <= |second|
    ensures AllMatched(HunkRows(a, b, del, ins), first, second)
  {
  }

  lemma {:induction false} RelatesCounts(script: Script, first: seq<string>, second: seq<string>, a: nat, b: nat)
    requires Relates(script, first, second, a, b)
    ensures IsLastLine(first, a + LineCount(script, First)) && IsLastLine(second, b + LineCount(script, Second))
    decreases script
  {
    match script
    case End(tail) =>
    case Hunk(gap, del, ins, rest) =>
      RelatesCounts(rest, first, second, a + gap + del, b + gap + ins);
  }

  /** All changed lines of a side are lines of the script. */
  lemma {:induction false} ChangesLieWithin(script: Script, a: int, n: int)
    requires ScriptChanges(script, a, n)
    ensures n <= a + LineCount(script, First)
    decreases script
  {
    match script
    case Hunk(gap, del, ins, rest) =>
      if ScriptChanges(rest, a + gap + del, n) {
        ChangesLieWithin(rest, a + gap + del, n);
      }
  }

  /** One more line: the filler behind the others now stands in front of it. */
  lemma {:induction false} PaneGrows(i: int, count: int, empty: map<int, int>, changed: set<int>)
    requires i <= count
    ensures PaneFrom(i, count + 1, empty, changed)
         == PaneFrom(i, count, empty, changed) + (Blanks(FillAt(empty, count)) + [Line(count, count + 1 in changed)])
    decreases count - i
  {
    var end := Blanks(FillAt(empty, count)) + [Line(count, count + 1 in changed)];
    if i == count {
      assert PaneFrom(i, count, empty, changed) + end == end;
      assert PaneFrom(count + 1, count + 1, empty, changed) == [];
      assert LinesFrom(count, count + 1, empty, changed) == [Line(count, count + 1 in changed)];
    } else {
      PaneGrows(i + 1, count, empty, changed);
      var line := [Line(i, i + 1 in changed)];
      Associate(line, PaneFrom(i + 1, count, empty, changed), end);
      Associate(Blanks(FillAt(empty, i)), line + PaneFrom(i + 1, count, empty, changed), end);
    }
  }

  /** The rows of the lines behind those of a script: one for the empty line behind a last line
      break. */
  function LastRow(count: nat, lines: nat): seq<Row> { if lines > count then [Line(count, false)] else [] }

  /** The first pane of a text with or without a last line break. */
  lemma FirstPaneOfText(script: Script, changed: set<int>, lines: nat)
    requires IsScript(script, 0) && forall n :: n in changed <==> ScriptChanges(script, 0, n)
    requires LineCount(script, First) <= lines <= LineCount(script, First) + 1
    ensures FullPane(lines, ScriptFillers(script, 0), changed)
         == Firsts(Layout(script, 0, 0)) + LastRow(LineCount(script, First), lines)
  {
    var count, empty := LineCount(script, First), ScriptFillers(script, 0);
    FirstPaneIsLaidOut(script, changed);
    if lines == count + 1 {
      FillersWithin(script, 0, 0);
      if count + 1 in changed {
        ChangesLieWithin(script, 0, count + 1);
      }
      PaneGrows(0, count, empty, changed);
      Associate(Pane(count, empty, changed), Blanks(FillAt(empty, count)), [Line(count, false)]);
      assert FillAt(empty, count + 1) == 0;
      assert Pane(lines, empty, changed) + Blanks(0) == Pane(lines, empty, changed);
    } else {
      assert FullPane(lines, empty, changed) + [] == FullPane(lines, empty, changed);
    }
  }

  /** Both panes of two texts that a script relates. */
  lemma PanesOfTexts(script: Script, ops: seq<DiffOperation>, changed1: set<int>, changed2: set<int>,
                     lines1: nat, lines2: nat)
    requires IsScript(script, 0) && Prints(script, 0, 0, ops)
    requires MarkedBy(changed1, ops, First) && MarkedBy(changed2, ops, Second)
    requires LineCount(script, First) <= lines1 <= LineCount(script, First) + 1
    requires LineCount(script, Second) <= lines2 <= LineCount(script, Second) + 1
    ensures FullPane(lines1, Fillers(ops, First), changed1)
         == Firsts(Layout(script, 0, 0)) + LastRow(LineCount(script, First), lines1)
    ensures FullPane(lines2, Fillers(ops, Second), changed2)
         == Seconds(Layout(script, 0, 0)) + LastRow(LineCount(script, Second), lines2)
  {
    BuiltFillers(script, 0, 0, ops);
    forall n ensures IsChanged(ops, First, n) == ScriptChanges(script, 0, n)
      && IsChanged(ops, Second, n) == ScriptChanges(Swap(script), 0, n)
    {
      BuiltChanges(script, 0, 0, ops, n);
    }
    SwapMirrors(script, 0, 0, 0, Layout(script, 0, 0), Layout(Swap(script), 0, 0));
    FirstPaneOfText(script, changed1, lines1);
    FirstPaneOfText(Swap(script), changed2, lines2);
  }

  /** What stands on row `r`; below the last row of a pane there is nothing. */
  function Shown(rows: seq<Row>, r: nat): Row { if r < |rows| then rows[r] else Blank }

  /** On every row of two panes side by side stand equal lines, a changed pair, or one line alone. */
  ghost predicate StandMatched(left: seq<Row>, right: seq<Row>, first: seq<string>, second: seq<string>) {
    forall r | 0 <= r < |left| || 0 <= r < |right| :: Matched((Shown(left, r), Shown(right, r)), first, second)
  }

  lemma LastRowsMatch(rows: seq<(Row, Row)>, first: seq<string>, second: seq<string>, count1: nat, count2: nat)
    requires AllMatched(rows, first, second)
    requires IsLastLine(first, count1) && IsLastLine(second, count2)
    ensures var left, right := Firsts(rows) + LastRow(count1, |first|), Seconds(rows) + LastRow(count2, |second|);
            StandMatched(left, right, first, second)
  {
    var left, right := Firsts(rows) + LastRow(count1, |first|), Seconds(rows) + LastRow(count2, |second|);
    forall r | 0 <= r < |left| || 0 <= r < |right|
      ensures Matched((Shown(left, r), Shown(right, r)), first, second)
    {
      if r < |rows| {
        assert rows[r] == (rows[r].0, rows[r].1);
      }
    }
  }

  /** Every script has a printed form. */
  lemma {:induction false} ScriptIsPrinted(script: Script, a: int, b: int) returns (ops: seq<DiffOperation>)
    ensures Prints(script, a, b, ops)
    decreases script
  {
    match script
    case End(_) => ops := [];
    case Hunk(gap, del, ins, rest) =>
      var more := ScriptIsPrinted(rest, a + gap + del, b + gap + ins);
      ops := [Operation(del, ins, a + gap, b + gap)] + more;
      assert ops[1..] == more;
  }

  // ---------------------------------------------------------------- every line, in order and in its place

  /** The lines on a pane are those of a text of `n` lines: each of them, once, from the top down. */
  ghost predicate ShowsAllInOrder(pane: seq<Row>, from: int, n: int) {
    && (forall r | 0 <= r < |pane| && pane[r].Line? :: from <= pane[r].index < n)
    && (forall q, r | 0 <= q < r < |pane| && pane[q].Line? && pane[r].Line? :: pane[q].index < pane[r].index)
    && (forall i | from <= i < n :: Shows(pane, i))
  }

  predicate Shows(pane: seq<Row>, i: int) { exists r | 0 <= r < |pane| :: pane[r].Line? && pane[r].index == i }

  lemma {:induction false} PaneShowsAll(i: int, count: int, empty: map<int, int>, changed: set<int>)
    requires i <= count
    ensures ShowsAllInOrder(PaneFrom(i, count, empty, changed), i, count)
    decreases count - i
  {
    if i < count {
      PaneShowsAll(i + 1, count, empty, changed);
      OneMoreLine(FillAt(empty, i), i, count, i + 1 in changed, PaneFrom(i + 1, count, empty, changed));
      Associate(Blanks(FillAt(empty, i)), [Line(i, i + 1 in changed)], PaneFrom(i + 1, count, empty, changed));
    }
  }

  lemma OneMoreLine(fill: nat, i: int, n: int, highlighted: bool, below: seq<Row>)
    requires i < n && ShowsAllInOrder(below, i + 1, n)
    ensures ShowsAllInOrder(Blanks(fill) + [Line(i, highlighted)] + below, i, n)
  {
    var pane := Blanks(fill) + [Line(i, highlighted)] + below;
    assert forall r | fill < r < |pane| :: pane[r] == below[r - fill - 1];
    assert pane[fill] == Line(i, highlighted);
    forall k | i < k < n ensures Shows(pane, k) {
      assert Shows(below, k);
      var r :| 0 <= r < |below| && below[r].Line? && below[r].index == k;
      assert pane[r + fill + 1] == below[r];
    }
  }

  /** The script calls line `i` of the first text and line `j` of the second common, behind `a` and `b` lines. */
  predicate IsCommon(script: Script, a: int, b: int, i: int, j: int) {
    match script
    case End(tail) => a <= i < a + tail && j - b == i - a
    case Hunk(gap, del, ins, rest) =>
      (a <= i < a + gap && j - b == i - a) || IsCommon(rest, a + gap + del, b + gap + ins, i, j)
  }

  /** Some hunk replaces line `i` of the first text by line `j` of the second: both are in the hunk, and
      equally far from its top. */
  predicate IsReplaced(script: Script, a: int, b: int, i: int, j: int) {
    match script
    case End(_) => false
    case Hunk(gap, del, ins, rest) =>
      || (a + gap <= i < a + gap + del && b + gap <= j < b + gap + ins && i - a == j - b)
      || IsReplaced(rest, a + gap + del, b + gap + ins, i, j)
  }

  lemma CommonHas(a: int, b: int, n: nat, i: int, j: int)
    ensures (Line(i, false), Line(j, false)) in CommonRows(a, b, n) <==> a <= i < a + n && j - b == i - a
    ensures (Line(i, true), Line(j, true)) !in CommonRows(a, b, n)
  {
    if a <= i < a + n && j - b == i - a {
      assert CommonRows(a, b, n)[i - a] == (Line(i, false), Line(j, false));
    }
  }

  lemma HunkHas(a: int, b: int, del: nat, ins: nat, i: int, j: int)
    ensures (Line(i, true), Line(j, true)) in HunkRows(a, b, del, ins)
            <==> a <= i < a + del && b <= j < b + ins && i - a == j - b
    ensures (Line(i, false), Line(j, false)) !in HunkRows(a, b, del, ins)
  {
    if a <= i < a + del && b <= j < b + ins && i - a == j - b {
      assert HunkRows(a, b, del, ins)[i - a] == (Line(i, true), Line(j, true));
    }
  }

  /** Where the layout puts the lines that the script relates. */
  lemma {:induction false} LayoutHasCommon(script: Script, a: int, b: int, i: int, j: int, rows: seq<(Row, Row)>)
    requires rows == Layout(script, a, b)
    ensures (Line(i, false), Line(j, false)) in rows <==> IsCommon(script, a, b, i, j)
    decreases script
  {
    match script
    case End(tail) => CommonHas(a, b, tail, i, j);
    case Hunk(gap, del, ins, rest) =>
      var x, y := a + gap + del, b + gap + ins;
      LayoutHasCommon(rest, x, y, i, j, Layout(rest, x, y));
      OneMoreHunkHas(a, b, gap, del, ins, i, j, Layout(rest, x, y));
  }

  lemma {:induction false} LayoutHasReplaced(script: Script, a: int, b: int, i: int, j: int, rows: seq<(Row, Row)>)
    requires rows == Layout(script, a, b)
    ensures (Line(i, true), Line(j, true)) in rows <==> IsReplaced(script, a, b, i, j)
    decreases script
  {
    match script
    case End(tail) => CommonHas(a, b, tail, i, j);
    case Hunk(gap, del, ins, rest) =>
      var x, y := a + gap + del, b + gap + ins;
      LayoutHasReplaced(rest, x, y, i, j, Layout(rest, x, y));
      OneMoreHunkHas(a, b, gap, del, ins, i, j, Layout(rest, x, y));
  }

  lemma OneMoreHunkHas(a: int, b: int, gap: nat, del: nat, ins: nat, i: int, j: int, rest: seq<(Row, Row)>)
    ensures var rows := CommonRows(a, b, gap) + HunkRows(a + gap, b + gap, del, ins) + rest;
            && ((Line(i, false), Line(j, false)) in rows <==>
                  (a <= i < a + gap && j - b == i - a) || (Line(i, false), Line(j, false)) in rest)
            && ((Line(i, true), Line(j, true)) in rows <==>
                  || (a + gap <= i < a + gap + del && b + gap <= j < b + gap + ins && i - a == j - b)
                  || (Line(i, true), Line(j, true)) in rest)
  {
    CommonHas(a, b, gap, i, j);
    HunkHas(a + gap, b + gap, del, ins, i, j);
  }

  /** On some row, `x` stands on the left and `y` on the right. */
  ghost predicate SideBySide(left: seq<Row>, right: seq<Row>, x: Row, y: Row) {
    exists r | 0 <= r < |left| && r < |right| :: left[r] == x && right[r] == y
  }

  /** Two lines share a row if and only if the script relates them, or both are the empty line behind
      a last line break; they are highlighted if and only if one replaces the other. */
  ghost predicate StandAsRelated(left: seq<Row>, right: seq<Row>, script: Script, lines1: nat, lines2: nat) {
    var count1, count2 := LineCount(script, First), LineCount(script, Second);
    && (forall i, j :: SideBySide(left, right, Line(i, false), Line(j, false)) <==>
          IsCommon(script, 0, 0, i, j) || (count1 == i < lines1 && count2 == j < lines2))
    && (forall i, j :: SideBySide(left, right, Line(i, true), Line(j, true)) <==> IsReplaced(script, 0, 0, i, j))
  }

  lemma RowsAreShared(rows: seq<(Row, Row)>, more1: seq<Row>, more2: seq<Row>, x: Row, y: Row)
    requires |more1| <= 1 && |more2| <= 1
    ensures SideBySide(Firsts(rows) + more1, Seconds(rows) + more2, x, y) <==>
              (x, y) in rows || (more1 == [x] && more2 == [y])
  {
    var left, right := Firsts(rows) + more1, Seconds(rows) + more2;
    if (x, y) in rows {
      var r :| 0 <= r < |rows| && rows[r] == (x, y);
      assert left[r] == x && right[r] == y;
    }
    if more1 == [x] && more2 == [y] {
      assert left[|rows|] == x && right[|rows|] == y;
    }
    if SideBySide(left, right, x, y) {
      var r :| 0 <= r < |left| && r < |right| && left[r] == x && right[r] == y;
      if r < |rows| {
        assert rows[r] == (x, y);
      }
    }
  }

  lemma LayoutStandsAsRelated(script: Script, lines1: nat, lines2: nat, rows: seq<(Row, Row)>)
    requires rows == Layout(script, 0, 0)
    requires LineCount(script, First) <= lines1 <= LineCount(script, First) + 1
    requires LineCount(script, Second) <= lines2 <= LineCount(script, Second) + 1
    ensures StandAsRelated(Firsts(rows) + LastRow(LineCount(script, First), lines1),
                           Seconds(rows) + LastRow(LineCount(script, Second), lines2), script, lines1, lines2)
  {
    var more1 := LastRow(LineCount(script, First), lines1);
    var more2 := LastRow(LineCount(script, Second), lines2);
    forall i, j, highlighted
      ensures SideBySide(Firsts(rows) + more1, Seconds(rows) + more2, Line(i, highlighted), Line(j, highlighted)) <==>
                (Line(i, highlighted), Line(j, highlighted)) in rows
                || (more1 == [Line(i, highlighted)] && more2 == [Line(j, highlighted)])
    {
      RowsAreShared(rows, more1, more2, Line(i, highlighted), Line(j, highlighted));
    }
    forall i, j ensures (Line(i, false), Line(j, false)) in rows <==> IsCommon(script, 0, 0, i, j) {
      LayoutHasCommon(script, 0, 0, i, j, rows);
    }
    forall i, j ensures (Line(i, true), Line(j, true)) in rows <==> IsReplaced(script, 0, 0, i, j) {
      LayoutHasReplaced(script, 0, 0, i, j, rows);
    }
  }

  /** On the screen: rows side by side hold equal lines that the script calls common, a
      highlighted pair of one hunk, or a line against filler or nothing.  The panes are equally
      high, but for the empty line behind a last line break that only one text has. */
  lemma RowsMatch(script: Script, first: seq<string>, second: seq<string>, ops: seq<DiffOperation>,
                  changed1: set<int>, changed2: set<int>)
    requires IsScript(script, 0) && Relates(script, first, second, 0, 0) && Prints(script, 0, 0, ops)
    requires MarkedBy(changed1, ops, First) && MarkedBy(changed2, ops, Second)
    ensures var left := FullPane(|first|, Fillers(ops, First), changed1);
            var right := FullPane(|second|, Fillers(ops, Second), changed2);
            && |left| - |right| == (|first| - LineCount(script, First)) - (|second| - LineCount(script, Second))
            && StandMatched(left, right, first, second)
            && StandAsRelated(left, right, script, |first|, |second|)
  {
    RelatesCounts(script, first, second, 0, 0);
    PanesOfTexts(script, ops, changed1, changed2, |first|, |second|);
    LayoutMatches(script, first, second, 0, 0, Layout(script, 0, 0));
    var rows := Layout(script, 0, 0);
    LastRowsMatch(rows, first, second, LineCount(script, First), LineCount(script, Second));
    LayoutStandsAsRelated(script, |first|, |second|, rows);
  }

  /** The filler that no line follows may be left out. */
  lemma WithoutLastFiller(left: seq<Row>, right: seq<Row>, m: nat, n: nat, script: Script,
                          first: seq<string>, second: seq<string>)
    requires StandMatched(left + Blanks(m), right + Blanks(n), first, second)
    requires StandAsRelated(left + Blanks(m), right + Blanks(n), script, |first|, |second|)
    ensures StandMatched(left, right, first, second)
    ensures StandAsRelated(left, right, script, |first|, |second|)
  {
    var full1, full2 := left + Blanks(m), right + Blanks(n);
    forall r | 0 <= r < |left| || 0 <= r < |right|
      ensures Matched((Shown(left, r), Shown(right, r)), first, second)
    {
      assert Shown(left, r) == Shown(full1, r) && Shown(right, r) == Shown(full2, r);
      assert Matched((Shown(full1, r), Shown(full2, r)), first, second);
    }
    forall x: Row, y: Row | x.Line? && y.Line?
      ensures SideBySide(left, right, x, y) <==> SideBySide(full1, full2, x, y)
    {
      LinesStay(left, right, m, n, x, y);
    }
  }

  lemma LinesStay(left: seq<Row>, right: seq<Row>, m: nat, n: nat, x: Row, y: Row)
    requires x.Line? && y.Line?
    ensures SideBySide(left, right, x, y) <==> SideBySide(left + Blanks(m), right + Blanks(n), x, y)
  {
    var full1, full2 := left + Blanks(m), right + Blanks(n);
    if SideBySide(left, right, x, y) {
      var r :| 0 <= r < |left| && r < |right| && left[r] == x && right[r] == y;
      assert full1[r] == x && full2[r] == y;
    }
    if SideBySide(full1, full2, x, y) {
      var r :| 0 <= r < |full1| && r < |full2| && full1[r] == x && full2[r] == y;
      assert left[r] == x && right[r] == y;
    }
  }

  /** The whole view: build the maps, paint both panes.  Filler that no line follows is not
      painted, so one pane may end earlier; what then remains of the other stands against nothing. */
  method DrawSideBySide(diffs: seq<DiffOperation>, first: seq<string>, second: seq<string>, ghost script: Script)
    returns (left: seq<Row>, right: seq<Row>)
    requires IsScript(script, 0) && Relates(script, first, second, 0, 0) && Prints(script, 0, 0, diffs)
    ensures ShowsAllInOrder(left, 0, |first|) && ShowsAllInOrder(right, 0, |second|)
    ensures StandAsRelated(left, right, script, |first|, |second|)
    ensures StandMatched(left, right, first, second)
  {
    var view := new FileDiffView(diffs);
    left := PaintText(|first|, view.firstEmptyLines, view.firstChangedLines);
    right := PaintText(|second|, view.secondEmptyLines, view.secondChangedLines);
    PaneShowsAll(0, |first|, view.firstEmptyLines, view.firstChangedLines);
    PaneShowsAll(0, |second|, view.secondEmptyLines, view.secondChangedLines);
    RowsMatch(script, first, second, diffs, view.firstChangedLines, view.secondChangedLines);
    WithoutLastFiller(left, right, FillAt(view.firstEmptyLines, |first|), FillAt(view.secondEmptyLines, |second|),
                      script, first, second);
  }

  // ---------------------------------------------------------------- the height of the panes

  ghost function Total(m: map<int, int>): int { Sum(m, m.Keys) }

  ghost function Sum(m: map<int, int>, keys: set<int>): int
    requires keys <= m.Keys
  {
    if keys == {} then 0
    else
      var k := Pick(keys);
      m[k] + Sum(m, keys - {k})
  }

  lemma {:induction false} SumWithout(m: map<int, int>, keys: set<int>, k: int)
    requires keys <= m.Keys && k in keys
    ensures Sum(m, keys) == m[k] + Sum(m, keys - {k})
  {
    var l := Pick(keys);
    if l != k {
      SumWithout(m, keys - {l}, k);
      SumWithout(m, keys - {k}, l);
      assert keys - {l} - {k} == keys - {k} - {l};
    }
  }

  /** emptyLinesCount: the sum of the values, in whatever order the map yields them. */
  method EmptyLinesCount(emptyLines: map<int, int>) returns (result: int)
    ensures result == Total(emptyLines)
  {
    result := 0;
    var left := emptyLines.Keys;
    while left != {}
      invariant left <= emptyLines.Keys && result + Sum(emptyLines, left) == Total(emptyLines)
      decreases left
    {
      assert Pick(left) in left;
      var k :| k in left;
      SumWithout(emptyLines, left, k);
      result := result + emptyLines[k];
      left := left - {k};
    }
  }

  /** The filler in front of the lines below `n`, row by row. */
  function FillBelow(m: map<int, int>, n: nat): nat {
    if n == 0 then 0 else FillBelow(m, n - 1) + FillAt(m, n - 1)
  }

  lemma {:induction false} SumIsFillBelow(m: map<int, int>, keys: set<int>, n: nat)
    requires keys <= m.Keys
    requires forall k | k in keys :: 0 <= k < n && m[k] > 0
    requires forall k | 0 <= k < n && k in m :: k in keys
    ensures Sum(m, keys) == FillBelow(m, n)
  {
    if n == 0 {
      assert keys == {};
    } else if n - 1 in keys {
      SumWithout(m, keys, n - 1);
      SumIsFillBelow(m, keys - {n - 1}, n - 1);
    } else {
      SumIsFillBelow(m, keys, n - 1);
    }
  }

  lemma {:induction false} PaneHeight(i: nat, count: nat, empty: map<int, int>, changed: set<int>)
    requires i <= count
    ensures |PaneFrom(i, count, empty, changed)| == count - i + FillBelow(empty, count) - FillBelow(empty, i)
    decreases count - i
  {
    if i < count {
      PaneHeight(i + 1, count, empty, changed);
    }
  }

  lemma {:induction false} FillersWithin(script: Script, a: int, separation: nat)
    requires IsScript(script, separation)
    ensures forall k | k in ScriptFillers(script, a) ::
        a <= k <= a + LineCount(script, First) && ScriptFillers(script, a)[k] > 0
    decreases script
  {
    match script
    case End(_) =>
    case Hunk(gap, del, ins, rest) => FillersWithin(rest, a + gap + del, 1);
  }

  /** The full pane is as high as its lines and all its map values together. */
  lemma FullPaneHeight(script: Script, changed: set<int>)
    requires IsScript(script, 0)
    ensures var count, empty := LineCount(script, First), ScriptFillers(script, 0);
            |FullPane(count, empty, changed)| == count + Total(empty)
  {
    var count, empty := LineCount(script, First), ScriptFillers(script, 0);
    assert Total(empty) == FillBelow(empty, count + 1) by {
      FillersWithin(script, 0, 0);
      SumIsFillBelow(empty, empty.Keys, count + 1);
    }
    PaneHeight(0, count, empty, changed);
  }

  /** Lines plus filler come to the same height on both sides, and the filler of every hunk is
      in the map as the hunk asked for it: none is written over another. */
  lemma HeightIsConserved(script: Script, ops: seq<DiffOperation>, changed1: set<int>, changed2: set<int>)
    requires IsScript(script, 0) && Prints(script, 0, 0, ops)
    requires MarkedBy(changed1, ops, First) && MarkedBy(changed2, ops, Second)
    ensures LineCount(script, First) + Total(Fillers(ops, First))
        == LineCount(script, Second) + Total(Fillers(ops, Second))
    ensures Fits(script, 0, 0, Fillers(ops, First), changed1)
        && Fits(Swap(script), 0, 0, Fillers(ops, Second), changed2)
  {
    PanesLineUp(script, ops, changed1, changed2);
    BuiltFillers(script, 0, 0, ops);
    forall n ensures IsChanged(ops, First, n) == ScriptChanges(script, 0, n)
      && IsChanged(ops, Second, n) == ScriptChanges(Swap(script), 0, n)
    {
      BuiltChanges(script, 0, 0, ops, n);
    }
    SwapMirrors(script, 0, 0, 0, Layout(script, 0, 0), Layout(Swap(script), 0, 0));
    FullPaneHeight(script, changed1);
    FullPaneHeight(Swap(script), changed2);
    ScriptMapsFit(script, 0, 0, Fillers(ops, First), changed1);
    ScriptMapsFit(Swap(script), 0, 0, Fillers(ops, Second), changed2);
  }

  /** Hunks that touch, which no script has: the second filler overwrites the first. */
  lemma TouchingHunksCollide(x: int, y: int, m: nat, n: nat)
    requires m > 0 && n > 0
    ensures Fillers([Operation(0, m, x, y), Operation(0, n, x, y + m)], First) == map[x := n]
    ensures Total(map[x := n]) == n < m + n
  {
    var one, two := Operation(0, m, x, y), Operation(0, n, x, y + m);
    assert [one, two][1..] == [two] && [two][1..] == [];
    assert Fillers([two], First) == map[x := n];
    SumWithout(map[x := n], {x}, x);
    assert map[x := n].Keys == {x};
  }
}
