/**
  The two views of a line diff.  Side by side, the columns read back as the two texts
  (`ColumnsReadBack`).  Folding hides exactly the rows that are farther than `context` from
  every change and are not alone in that (`FoldHides`), and putting the hidden slices back
  restores the rows (`UnfoldRestores`).
*/
module DiffRows {
  import opened Seqs
  import opened JsonSyntax
  import opened LineDiff

  // ---- side by side ---------------------------------------------------------------------------------

  /** A left and a right cell: one line on both sides, or a removed and an added line of which either may be missing. */
  datatype Row = Row(same: bool, left: Option<Placed>, right: Option<Placed>)

  function SameRow(l: DiffLine): Row {
    Row(true, Some(Place(l.left, l.text)), Some(Place(l.right, l.text)))
  }

  /** The lines of one kind, in order. */
  function Only(ls: seq<DiffLine>, op: Op): seq<DiffLine> {
    if ls == [] then [] else (if ls[0].op == op then [ls[0]] else []) + Only(ls[1..], op)
  }

  /** Pairs removed and added lines by position; whichever list is longer ends in half-filled rows. */
  function Zip(dels: seq<DiffLine>, adds: seq<DiffLine>): (rows: seq<Row>)
    decreases |dels| + |adds|
  {
    if dels == [] && adds == [] then []
    else
      [Row(false,
           if dels == [] then None else Some(Place(dels[0].left, dels[0].text)),
           if adds == [] then None else Some(Place(adds[0].right, adds[0].text)))] +
      Zip(if dels == [] then [] else dels[1..], if adds == [] then [] else adds[1..])
  }

  /** How many lines pass before the next unchanged one. */
  function ChangeRun(ls: seq<DiffLine>): (n: nat)
    ensures n <= |ls|
    ensures forall i :: 0 <= i < n ==> ls[i].op != Same
    ensures n < |ls| ==> ls[n].op == Same
  {
    if ls == [] || ls[0].op == Same then 0 else 1 + ChangeRun(ls[1..])
  }

  function SideBySide(ls: seq<DiffLine>): seq<Row>
    decreases |ls|
  {
    if ls == [] then []
    else if ls[0].op == Same then [SameRow(ls[0])] + SideBySide(ls[1..])
    else
      var n := ChangeRun(ls);
      Zip(Only(ls[..n], Del), Only(ls[..n], Add)) + SideBySide(ls[n..])
  }

  function LeftColumn(rows: seq<Row>): seq<Placed> {
    if rows == [] then [] else (if rows[0].left.Some? then [rows[0].left.value] else []) + LeftColumn(rows[1..])
  }

  function RightColumn(rows: seq<Row>): seq<Placed> {
    if rows == [] then [] else (if rows[0].right.Some? then [rows[0].right.value] else []) + RightColumn(rows[1..])
  }

  lemma {:induction false} ColumnConcat(a: seq<Row>, b: seq<Row>)
    ensures LeftColumn(a + b) == LeftColumn(a) + LeftColumn(b) && RightColumn(a + b) == RightColumn(a) + RightColumn(b)
  {
    if a == [] {
      Unit(b);
      Unit(LeftColumn(b));
      Unit(RightColumn(b));
    } else {
      ColumnConcat(a[1..], b);
      Cons(a, b);
      Assoc(if a[0].left.Some? then [a[0].left.value] else [], LeftColumn(a[1..]), LeftColumn(b));
      Assoc(if a[0].right.Some? then [a[0].right.value] else [], RightColumn(a[1..]), RightColumn(b));
    }
  }

  lemma {:induction false} LinesConcat(a: seq<DiffLine>, b: seq<DiffLine>)
    ensures LeftLines(a + b) == LeftLines(a) + LeftLines(b) && RightLines(a + b) == RightLines(a) + RightLines(b)
  {
    if a == [] {
      Unit(b);
      Unit(LeftLines(b));
      Unit(RightLines(b));
    } else {
      LinesConcat(a[1..], b);
      Cons(a, b);
      Assoc(if a[0].op == Add then [] else [Place(a[0].left, a[0].text)], LeftLines(a[1..]), LeftLines(b));
      Assoc(if a[0].op == Del then [] else [Place(a[0].right, a[0].text)], RightLines(a[1..]), RightLines(b));
    }
  }

  lemma {:induction false} ZipColumns(dels: seq<DiffLine>, adds: seq<DiffLine>)
    requires forall i :: 0 <= i < |dels| ==> dels[i].op == Del
    requires forall i :: 0 <= i < |adds| ==> adds[i].op == Add
    ensures LeftColumn(Zip(dels, adds)) == LeftLines(dels) && RightColumn(Zip(dels, adds)) == RightLines(adds)
    decreases |dels| + |adds|
  {
    if dels != [] || adds != [] {
      var d, a := if dels == [] then [] else dels[1..], if adds == [] then [] else adds[1..];
      ZipColumns(d, a);
      var rows := Zip(dels, adds);
      assert rows[1..] == Zip(d, a);
    }
  }

  lemma {:induction false} OnlyLines(run: seq<DiffLine>)
    requires forall i :: 0 <= i < |run| ==> run[i].op != Same
    ensures forall i :: 0 <= i < |Only(run, Del)| ==> Only(run, Del)[i].op == Del
    ensures forall i :: 0 <= i < |Only(run, Add)| ==> Only(run, Add)[i].op == Add
    ensures LeftLines(Only(run, Del)) == LeftLines(run) && RightLines(Only(run, Add)) == RightLines(run)
  {
    OnlyIs(run, Del);
    OnlyIs(run, Add);
    OnlyLeft(run);
    OnlyRight(run);
  }

  lemma {:induction false} OnlyIs(run: seq<DiffLine>, op: Op)
    ensures forall i :: 0 <= i < |Only(run, op)| ==> Only(run, op)[i].op == op
  {
    if run != [] {
      OnlyIs(run[1..], op);
    }
  }

  lemma {:induction false} OnlyLeft(run: seq<DiffLine>)
    requires forall i :: 0 <= i < |run| ==> run[i].op != Same
    ensures LeftLines(Only(run, Del)) == LeftLines(run)
  {
    if run != [] {
      OnlyLeft(run[1..]);
      Unit(Only(run[1..], Del));
      Unit(LeftLines(run[1..]));
      Tail(run[0], Only(run[1..], Del));
    }
  }

  lemma {:induction false} OnlyRight(run: seq<DiffLine>)
    requires forall i :: 0 <= i < |run| ==> run[i].op != Same
    ensures RightLines(Only(run, Add)) == RightLines(run)
  {
    if run != [] {
      OnlyRight(run[1..]);
      Unit(Only(run[1..], Add));
      Unit(RightLines(run[1..]));
      Tail(run[0], Only(run[1..], Add));
    }
  }

  /** Read downwards, each column is the numbered lines of its side. */
  lemma {:induction false} ColumnsReadBack(ls: seq<DiffLine>)
    ensures LeftColumn(SideBySide(ls)) == LeftLines(ls) && RightColumn(SideBySide(ls)) == RightLines(ls)
    decreases |ls|
  {
    if ls != [] {
      if ls[0].op == Same {
        ColumnsReadBack(ls[1..]);
        Tail(SameRow(ls[0]), SideBySide(ls[1..]));
      } else {
        hide LeftColumn, RightColumn, LeftLines, RightLines, Zip, Only;
        var n := ChangeRun(ls);
        var run := ls[..n];
        OnlyLines(run);
        ZipColumns(Only(run, Del), Only(run, Add));
        ColumnsReadBack(ls[n..]);
        ColumnConcat(Zip(Only(run, Del), Only(run, Add)), SideBySide(ls[n..]));
        LinesConcat(run, ls[n..]);
        Split(ls, n);
      }
    }
  }

  lemma OnlySnoc(ls: seq<DiffLine>, l: DiffLine, op: Op)
    ensures Only(ls + [l], op) == Only(ls, op) + (if l.op == op then [l] else [])
  {
    if ls == [] {
      Unit([l]);
    } else {
      OnlySnoc(ls[1..], l, op);
      Cons(ls, [l]);
      Assoc(if ls[0].op == op then [ls[0]] else [], Only(ls[1..], op), if l.op == op then [l] else []);
    }
  }

  /** Reads one `ChangeRun` from `k` on and returns its lines by kind. */
  method TakeRun(lines: seq<DiffLine>, k: nat) returns (dels: seq<DiffLine>, adds: seq<DiffLine>, end: nat)
    requires k < |lines|
    ensures k <= end <= |lines| && end - k == ChangeRun(lines[k..])
    ensures dels == Only(lines[k..][..end - k], Del) && adds == Only(lines[k..][..end - k], Add)
  {
    hide Only;
    dels, adds, end := [], [], k;
    ghost var ls := lines[k..];
    assert Only(ls[..0], Del) == [] && Only(ls[..0], Add) == [] by { OnlyNothing(ls); }
    while end < |lines| && lines[end].op != Same
      invariant k <= end <= |lines|
      invariant forall i :: 0 <= i < end - k ==> ls[i].op != Same
      invariant dels == Only(ls[..end - k], Del) && adds == Only(ls[..end - k], Add)
    {
      assert ls[end - k] == lines[end];
      assert ls[..end - k + 1] == ls[..end - k] + [lines[end]];
      OnlySnoc(ls[..end - k], lines[end], Del);
      OnlySnoc(ls[..end - k], lines[end], Add);
      if lines[end].op == Del {
        dels := dels + [lines[end]];
      } else {
        adds := adds + [lines[end]];
      }
      end := end + 1;
    }
  }

  lemma OnlyNothing(ls: seq<DiffLine>)
    ensures Only(ls[..0], Del) == [] && Only(ls[..0], Add) == []
  {
  }

  method ZipRun(dels: seq<DiffLine>, adds: seq<DiffLine>) returns (rows: seq<Row>)
    ensures rows == Zip(dels, adds)
  {
    hide Zip;
    rows := [];
    var length := Max(|dels|, |adds|);
    assert dels[0..] == dels && adds[0..] == adds;
    Unit(Zip(dels, adds));
    for index := 0 to length
      invariant rows + Zip(From(dels, index), From(adds, index)) == Zip(dels, adds)
    {
      var row := Row(false,
                     if index < |dels| then Some(Place(dels[index].left, dels[index].text)) else None,
                     if index < |adds| then Some(Place(adds[index].right, adds[index].text)) else None);
      ZipAt(dels, adds, index);
      Append(rows, row, Zip(From(dels, index + 1), From(adds, index + 1)));
      rows := rows + [row];
    }
    assert From(dels, length) == [] && From(adds, length) == [];
    ZipNothing();
    Unit(rows);
  }

  function From(ls: seq<DiffLine>, k: nat): seq<DiffLine> {
    if k <= |ls| then ls[k..] else []
  }

  lemma ZipNothing()
    ensures Zip([], []) == []
  {
  }

  lemma ZipAt(dels: seq<DiffLine>, adds: seq<DiffLine>, k: nat)
    requires k < Max(|dels|, |adds|)
    ensures Zip(From(dels, k), From(adds, k))
         == [Row(false,
                 if k < |dels| then Some(Place(dels[k].left, dels[k].text)) else None,
                 if k < |adds| then Some(Place(adds[k].right, adds[k].text)) else None)] +
            Zip(From(dels, k + 1), From(adds, k + 1))
  {
    if k < |dels| {
      DropTwice(dels, k, 1);
    }
    if k < |adds| {
      DropTwice(adds, k, 1);
    }
  }

  method ToSideBySide(lines: seq<DiffLine>) returns (rows: seq<Row>)
    ensures rows == SideBySide(lines)
    ensures LeftColumn(rows) == LeftLines(lines) && RightColumn(rows) == RightLines(lines)
    ensures PairsUp(rows, lines)
  {
    hide PairsUp, SideBySide, Zip, Only, LeftColumn, RightColumn, LeftLines, RightLines;
    rows := [];
    var k := 0;
    assert lines[0..] == lines;
    Unit(SideBySide(lines));
    while k < |lines|
      invariant 0 <= k <= |lines|
      invariant rows + SideBySide(lines[k..]) == SideBySide(lines)
    {
      SideBySideAt(lines, k);
      if lines[k].op == Same {
        Append(rows, SameRow(lines[k]), SideBySide(lines[k + 1..]));
        rows := rows + [SameRow(lines[k])];
        k := k + 1;
      } else {
        var dels, adds, end := TakeRun(lines, k);
        var zipped := ZipRun(dels, adds);
        Assoc(rows, zipped, SideBySide(lines[end..]));
        rows := rows + zipped;
        k := end;
      }
    }
    SideBySideNothing(lines);
    Unit(rows);
    ColumnsReadBack(lines);
    SideBySidePairs(lines);
  }

  lemma SideBySideNothing(lines: seq<DiffLine>)
    ensures SideBySide(lines[|lines|..]) == []
  {
  }

  lemma SideBySideAt(lines: seq<DiffLine>, k: nat)
    requires k < |lines|
    ensures lines[k].op == Same ==> SideBySide(lines[k..]) == [SameRow(lines[k])] + SideBySide(lines[k + 1..])
    ensures lines[k].op != Same ==>
      var ls, n := lines[k..], ChangeRun(lines[k..]);
      n > 0 && SideBySide(ls) == Zip(Only(ls[..n], Del), Only(ls[..n], Add)) + SideBySide(lines[k + n..])
  {
    hide Zip, Only;
    DropTwice(lines, k, 1);
    var n := ChangeRun(lines[k..]);
    DropTwice(lines, k, n);
  }

  // ---- which rows are unchanged, and what stands between them -----------------------------------------------

  /** The cells of the rows marked as unchanged, in order. */
  function SameCells(rows: seq<Row>): seq<(Option<Placed>, Option<Placed>)> {
    if rows == [] then [] else (if rows[0].same then [(rows[0].left, rows[0].right)] else []) + SameCells(rows[1..])
  }

  /** The unchanged lines with their places on both sides, in order. */
  function SamePlaces(ls: seq<DiffLine>): seq<(Option<Placed>, Option<Placed>)> {
    if ls == [] then []
    else
      (if ls[0].op == Same then [(Some(Place(ls[0].left, ls[0].text)), Some(Place(ls[0].right, ls[0].text)))] else []) + SamePlaces(ls[1..])
  }

  /** The stretches of changed lines before, between and after the unchanged ones. */
  function LineBlocks(ls: seq<DiffLine>): seq<seq<DiffLine>>
    decreases |ls|
  {
    var n := ChangeRun(ls);
    if n == |ls| then [ls] else [ls[..n]] + LineBlocks(ls[n + 1..])
  }

  /** How many rows pass before the next one marked as unchanged. */
  function RowRun(rows: seq<Row>): (n: nat)
    ensures n <= |rows|
    ensures forall i :: 0 <= i < n ==> !rows[i].same
    ensures n < |rows| ==> rows[n].same
  {
    if rows == [] || rows[0].same then 0 else 1 + RowRun(rows[1..])
  }

  function RowBlocks(rows: seq<Row>): seq<seq<Row>>
    decreases |rows|
  {
    var n := RowRun(rows);
    if n == |rows| then [rows] else [rows[..n]] + RowBlocks(rows[n + 1..])
  }

  function Cell(ls: seq<DiffLine>, i: nat, left: bool): Option<Placed> {
    if i < |ls| then Some(Place(if left then ls[i].left else ls[i].right, ls[i].text)) else None
  }

  /** Removed and added lines are paired by position, and only the shorter side has gaps. */
  ghost predicate Beside(rows: seq<Row>, block: seq<DiffLine>) {
    var dels, adds := Only(block, Del), Only(block, Add);
    |rows| == (if |dels| < |adds| then |adds| else |dels|) &&
    forall i :: 0 <= i < |rows| ==> rows[i].left == Cell(dels, i, true) && rows[i].right == Cell(adds, i, false)
  }

  /** The whole view: the unchanged lines are the rows marked so, and each stretch of changes is paired by position. */
  ghost predicate PairsUp(rows: seq<Row>, ls: seq<DiffLine>) {
    SameCells(rows) == SamePlaces(ls) && |RowBlocks(rows)| == |LineBlocks(ls)| &&
    forall i :: 0 <= i < |RowBlocks(rows)| ==> Beside(RowBlocks(rows)[i], LineBlocks(ls)[i])
  }

  lemma {:induction false} ZipCells(dels: seq<DiffLine>, adds: seq<DiffLine>)
    ensures var rows := Zip(dels, adds);
            |rows| == (if |dels| < |adds| then |adds| else |dels|) &&
            forall i :: 0 <= i < |rows| ==> !rows[i].same && rows[i].left == Cell(dels, i, true) && rows[i].right == Cell(adds, i, false)
    decreases |dels| + |adds|
  {
    if dels != [] || adds != [] {
      var d, a := if dels == [] then [] else dels[1..], if adds == [] then [] else adds[1..];
      ZipCells(d, a);
      var rows := Zip(dels, adds);
      forall i | 0 < i < |rows|
        ensures !rows[i].same && rows[i].left == Cell(dels, i, true) && rows[i].right == Cell(adds, i, false)
      {
        assert rows[i] == Zip(d, a)[i - 1];
      }
    }
  }

  lemma {:induction false} SameCellsConcat(a: seq<Row>, b: seq<Row>)
    requires forall i :: 0 <= i < |a| ==> !a[i].same
    ensures SameCells(a + b) == SameCells(b)
    decreases |a|
  {
    if a == [] {
      Unit(b);
    } else {
      Cons(a, b);
      SameCellsConcat(a[1..], b);
      Unit(SameCells(b));
    }
  }

  lemma {:induction false} SamePlacesConcat(a: seq<DiffLine>, b: seq<DiffLine>)
    requires forall i :: 0 <= i < |a| ==> a[i].op != Same
    ensures SamePlaces(a + b) == SamePlaces(b)
    decreases |a|
  {
    if a == [] {
      Unit(b);
    } else {
      Cons(a, b);
      SamePlacesConcat(a[1..], b);
      Unit(SamePlaces(b));
    }
  }

  lemma {:induction false} RowRunIs(a: seq<Row>, b: seq<Row>)
    requires (forall i :: 0 <= i < |a| ==> !a[i].same) && (b != [] ==> b[0].same)
    ensures RowRun(a + b) == |a|
    decreases |a|
  {
    if a == [] {
      Unit(b);
    } else {
      Cons(a, b);
      RowRunIs(a[1..], b);
    }
  }

  /** The view up to the first unchanged line, that line, and the rest. */
  lemma FirstBlock(ls: seq<DiffLine>)
    ensures var n := ChangeRun(ls);
            var zipped := Zip(Only(ls[..n], Del), Only(ls[..n], Add));
            SideBySide(ls) == if n == |ls| then zipped else zipped + ([SameRow(ls[n])] + SideBySide(ls[n + 1..]))
  {
    hide Zip, Only;
    var n := ChangeRun(ls);
    if n == 0 {
      assert ls[..0] == [];
      assert Zip(Only([], Del), Only([], Add)) == [] by { NoZip(); }
      if ls != [] {
        Unit([SameRow(ls[0])] + SideBySide(ls[1..]));
      }
    } else {
      var zipped := Zip(Only(ls[..n], Del), Only(ls[..n], Add));
      if n == |ls| {
        assert ls[n..] == [];
        Unit(zipped);
      } else {
        DropTwice(ls, n, 1);
        assert ls[n..][0] == ls[n];
      }
    }
  }

  lemma NoZip()
    ensures Zip(Only([], Del), Only([], Add)) == []
  {
  }

  lemma {:induction false} SideBySidePairs(ls: seq<DiffLine>)
    ensures PairsUp(SideBySide(ls), ls)
    decreases |ls|
  {
    hide Zip, Only, SideBySide, PairsUp, SameRow, Beside;
    var n := ChangeRun(ls);
    var zipped := Zip(Only(ls[..n], Del), Only(ls[..n], Add));
    hide ChangeRun;
    FirstBlock(ls);
    BlockBeside(ls[..n]);
    if n == |ls| {
      assert ls[..n] == ls;
      OneBlock(zipped, ls);
    } else {
      SideBySidePairs(ls[n + 1..]);
      MoreBlocks(zipped, ls, SideBySide(ls[n + 1..]));
    }
  }

  lemma BlockBeside(block: seq<DiffLine>)
    ensures var zipped := Zip(Only(block, Del), Only(block, Add));
            Beside(zipped, block) && forall i :: 0 <= i < |zipped| ==> !zipped[i].same
  {
    hide Zip, Only;
    ZipCells(Only(block, Del), Only(block, Add));
  }

  lemma {:induction false} OneBlock(zipped: seq<Row>, ls: seq<DiffLine>)
    requires ChangeRun(ls) == |ls| && Beside(zipped, ls) && forall i :: 0 <= i < |zipped| ==> !zipped[i].same
    ensures PairsUp(zipped, ls)
  {
    hide ChangeRun, RowRun, SameCells, SamePlaces, Beside;
    Unit(zipped);
    Unit(ls);
    RowRunIs(zipped, []);
    SameCellsConcat(zipped, []);
    SamePlacesConcat(ls, []);
    NoneSame();
  }

  lemma {:induction false} MoreBlocks(zipped: seq<Row>, ls: seq<DiffLine>, rows: seq<Row>)
    requires ChangeRun(ls) < |ls| && Beside(zipped, ls[..ChangeRun(ls)]) && PairsUp(rows, ls[ChangeRun(ls) + 1..])
    requires forall i :: 0 <= i < |zipped| ==> !zipped[i].same
    ensures PairsUp(zipped + ([SameRow(ls[ChangeRun(ls)])] + rows), ls)
  {
    hide ChangeRun, RowRun, SameCells, SamePlaces, Beside;
    var n := ChangeRun(ls);
    var tail := [SameRow(ls[n])] + rows;
    RowRunIs(zipped, tail);
    SameCellsConcat(zipped, tail);
    Around(ls, n);
    Split(ls, n);
    SamePlacesConcat(ls[..n], ls[n..]);
    OneSame(ls[n], rows, ls[n + 1..]);
    assert (zipped + tail)[..|zipped|] == zipped && (zipped + tail)[|zipped| + 1..] == rows;
    NextBlock(zipped + tail, ls, zipped, ls[..n], rows, ls[n + 1..]);
  }

  lemma NoneSame()
    ensures SameCells([]) == [] && SamePlaces([]) == []
  {
  }

  lemma OneSame(l: DiffLine, rows: seq<Row>, rest: seq<DiffLine>)
    requires l.op == Same && SameCells(rows) == SamePlaces(rest)
    ensures SameCells([SameRow(l)] + rows) == SamePlaces([l] + rest)
  {
    Tail(SameRow(l), rows);
    Tail(l, rest);
  }

  lemma NextBlock(all: seq<Row>, ls: seq<DiffLine>, zipped: seq<Row>, block: seq<DiffLine>, rows: seq<Row>, rest: seq<DiffLine>)
    requires RowBlocks(all) == [zipped] + RowBlocks(rows) && LineBlocks(ls) == [block] + LineBlocks(rest)
    requires Beside(zipped, block) && PairsUp(rows, rest) && SameCells(all) == SamePlaces(ls)
    ensures PairsUp(all, ls)
  {
    hide Beside, RowBlocks, LineBlocks, SameCells, SamePlaces;
    forall i | 0 <= i < |RowBlocks(all)|
      ensures Beside(RowBlocks(all)[i], LineBlocks(ls)[i])
    {
      if i > 0 {
        assert RowBlocks(all)[i] == RowBlocks(rows)[i - 1] && LineBlocks(ls)[i] == LineBlocks(rest)[i - 1];
      }
    }
  }

  // ---- folding ---------------------------------------------------------------------------------------

  /** An element of a folded list: a row itself, or the slice from `at` of length `count` left out of it. */
  datatype Folded<T> = Visible(row: T) | Fold(count: nat, at: nat)

  /** The first row from `i` on that is a change. */
  function RunEnd<T>(rows: seq<T>, i: nat, same: T -> bool): (end: nat)
    requires i <= |rows|
    ensures i <= end <= |rows|
    ensures forall k :: i <= k < end ==> same(rows[k])
    ensures end < |rows| ==> !same(rows[end])
    decreases |rows| - i
  {
    if i < |rows| && same(rows[i]) then RunEnd(rows, i + 1, same) else i
  }

  function VisibleRows<T>(rows: seq<T>): seq<Folded<T>> {
    if rows == [] then [] else [Visible(rows[0])] + VisibleRows(rows[1..])
  }

  /** Where the hidden part of a run may start and must end: no context is kept at the edges of the view. */
  function HideFrom(start: nat, context: nat): nat {
    if start == 0 then 0 else start + context
  }

  function HideTo<T>(rows: seq<T>, end: nat, context: nat): int {
    if end == |rows| then end else end - context
  }

  /** How one run of unchanged rows is shown. */
  function FoldRun<T>(rows: seq<T>, start: nat, end: nat, context: nat): seq<Folded<T>>
    requires start < end <= |rows|
  {
    var a, b := HideFrom(start, context), HideTo(rows, end, context);
    if b <= a + 1 then VisibleRows(rows[start..end]) else FoldBetween(rows, start, a, b, end)
  }

  function FoldBetween<T>(rows: seq<T>, start: nat, a: nat, b: nat, end: nat): seq<Folded<T>>
    requires start <= a <= b <= end <= |rows|
  {
    VisibleRows(rows[start..a]) + [Fold(b - a, a)] + VisibleRows(rows[b..end])
  }

  function FoldFrom<T>(rows: seq<T>, i: nat, same: T -> bool, context: nat): seq<Folded<T>>
    requires i <= |rows|
    decreases |rows| - i
  {
    if i == |rows| then []
    else if !same(rows[i]) then [Visible(rows[i])] + FoldFrom(rows, i + 1, same, context)
    else FoldRun(rows, i, RunEnd(rows, i, same), context) + FoldFrom(rows, RunEnd(rows, i, same), same, context)
  }

  /** Putting the hidden slice back in place of a fold. */
  function Unfold<T>(out: seq<Folded<T>>, rows: seq<T>): seq<T> {
    if out == [] then []
    else
      (match out[0]
       case Visible(row) => [row]
       case Fold(count, at) => if at + count <= |rows| then rows[at..at + count] else []) +
      Unfold(out[1..], rows)
  }

  lemma {:induction false} UnfoldConcat<T>(a: seq<Folded<T>>, b: seq<Folded<T>>, rows: seq<T>)
    ensures Unfold(a + b, rows) == Unfold(a, rows) + Unfold(b, rows)
  {
    if a == [] {
      Unit(b);
      Unit(Unfold(b, rows));
    } else {
      UnfoldConcat(a[1..], b, rows);
      Cons(a, b);
      Assoc(match a[0]
            case Visible(row) => [row]
            case Fold(count, at) => if at + count <= |rows| then rows[at..at + count] else [],
            Unfold(a[1..], rows), Unfold(b, rows));
    }
  }

  lemma {:induction false} UnfoldVisible<T>(xs: seq<T>, rows: seq<T>)
    ensures Unfold(VisibleRows(xs), rows) == xs
  {
    if xs != [] {
      assert VisibleRows(xs)[1..] == VisibleRows(xs[1..]);
      UnfoldVisible(xs[1..], rows);
      assert [xs[0]] + xs[1..] == xs;
    }
  }

  lemma UnfoldRun<T>(rows: seq<T>, start: nat, end: nat, context: nat)
    requires start < end <= |rows|
    ensures Unfold(FoldRun(rows, start, end, context), rows) == rows[start..end]
  {
    var a, b := HideFrom(start, context), HideTo(rows, end, context);
    assert start <= a && b <= end;
    hide Unfold, VisibleRows, FoldBetween, HideFrom, HideTo;
    if b <= a + 1 {
      UnfoldVisible(rows[start..end], rows);
    } else {
      UnfoldParts(rows, start, a, b, end);
    }
  }

  lemma UnfoldParts<T>(rows: seq<T>, start: nat, a: nat, b: nat, end: nat)
    requires start <= a <= b <= end <= |rows|
    ensures Unfold(FoldBetween(rows, start, a, b, end), rows) == rows[start..end]
  {
    hide Unfold, VisibleRows;
    var x, y, z := rows[start..a], rows[a..b], rows[b..end];
    var head, tail := VisibleRows(x), VisibleRows(z);
    var fold: seq<Folded<T>> := [Fold(b - a, a)];
    UnfoldConcat(head + fold, tail, rows);
    UnfoldConcat(head, fold, rows);
    UnfoldVisible(x, rows);
    UnfoldVisible(z, rows);
    UnfoldFold(rows, a, b);
    ThreeSlices(rows, start, a, b, end);
  }

  lemma UnfoldFold<T>(rows: seq<T>, a: nat, b: nat)
    requires a <= b <= |rows|
    ensures Unfold([Fold(b - a, a)], rows) == rows[a..b]
  {
    assert [Folded<T>.Fold(b - a, a)][1..] == [];
  }

  lemma TwoSlices<T>(s: seq<T>, i: nat, j: nat)
    requires i <= j <= |s|
    ensures s[i..j] + s[j..] == s[i..]
  {
  }

  lemma ThreeSlices<T>(s: seq<T>, i: nat, j: nat, k: nat, l: nat)
    requires i <= j <= k <= l <= |s|
    ensures s[i..j] + s[j..k] + s[k..l] == s[i..l]
  {
  }

  lemma {:induction false} UnfoldFrom<T>(rows: seq<T>, i: nat, same: T -> bool, context: nat)
    requires i <= |rows|
    ensures Unfold(FoldFrom(rows, i, same, context), rows) == rows[i..]
    decreases |rows| - i
  {
    if i < |rows| {
      if !same(rows[i]) {
        UnfoldFrom(rows, i + 1, same, context);
        Tail(Visible(rows[i]), FoldFrom(rows, i + 1, same, context));
        Around(rows, i);
      } else {
        hide Unfold, FoldRun;
        var end := RunEnd(rows, i, same);
        UnfoldRun(rows, i, end, context);
        UnfoldFrom(rows, end, same, context);
        UnfoldConcat(FoldRun(rows, i, end, context), FoldFrom(rows, end, same, context), rows);
        TwoSlices(rows, i, end);
      }
    }
  }

  /** Replacing every fold by its slice restores the rows. */
  lemma UnfoldRestores<T>(rows: seq<T>, same: T -> bool, context: nat)
    ensures Unfold(FoldFrom(rows, 0, same, context), rows) == rows
  {
    UnfoldFrom(rows, 0, same, context);
  }

  // -- which rows are hidden

  predicate Hides<T>(f: Folded<T>, j: int) {
    f.Fold? && f.at <= j < f.at + f.count
  }

  ghost predicate Hidden<T>(out: seq<Folded<T>>, j: int) {
    exists k :: 0 <= k < |out| && Hides(out[k], j)
  }

  /** An unchanged row with no change within `context` of it. */
  ghost predicate Far<T>(rows: seq<T>, same: T -> bool, context: nat, j: int) {
    0 <= j < |rows| && forall i :: 0 <= i < |rows| && !same(rows[i]) ==> i + context < j || j + context < i
  }

  ghost predicate ShouldHide<T>(rows: seq<T>, same: T -> bool, context: nat, j: int) {
    Far(rows, same, context, j) && (Far(rows, same, context, j - 1) || Far(rows, same, context, j + 1))
  }

  /** In a maximal run of unchanged rows, the far ones are those between the leading and trailing context. */
  lemma FarInRun<T>(rows: seq<T>, same: T -> bool, context: nat, start: nat, end: nat, j: int)
    requires start < end <= |rows| && (forall k :: start <= k < end ==> same(rows[k]))
    requires (start > 0 ==> !same(rows[start - 1])) && (end < |rows| ==> !same(rows[end]))
    requires start - 1 <= j <= end
    ensures Far(rows, same, context, j) <==> HideFrom(start, context) <= j < HideTo(rows, end, context)
  {
    var a, b := HideFrom(start, context), HideTo(rows, end, context);
    if a <= j < b {
      forall i | 0 <= i < |rows| && !same(rows[i])
        ensures i + context < j || j + context < i
      {
        assert i < start || end <= i;
      }
    } else if 0 <= j < |rows| {
      if j < a {
        assert !same(rows[start - 1]);
      } else {
        assert !same(rows[end]);
      }
    }
  }

  lemma HiddenConcat<T>(a: seq<Folded<T>>, b: seq<Folded<T>>, j: int)
    ensures Hidden(a + b, j) <==> Hidden(a, j) || Hidden(b, j)
  {
    if Hidden(a + b, j) {
      var k :| 0 <= k < |a + b| && Hides((a + b)[k], j);
      assert k < |a| ==> Hides(a[k], j);
      assert k >= |a| ==> Hides(b[k - |a|], j);
    }
    if Hidden(a, j) {
      var k :| 0 <= k < |a| && Hides(a[k], j);
      assert Hides((a + b)[k], j);
    }
    if Hidden(b, j) {
      var k :| 0 <= k < |b| && Hides(b[k], j);
      assert Hides((a + b)[|a| + k], j);
    }
  }

  lemma {:induction false} VisibleHidesNothing<T>(xs: seq<T>, j: int)
    ensures !Hidden(VisibleRows(xs), j)
  {
    if xs != [] {
      VisibleHidesNothing(xs[1..], j);
      HiddenConcat([Visible(xs[0])], VisibleRows(xs[1..]), j);
    }
  }

  lemma RunHides<T>(rows: seq<T>, same: T -> bool, context: nat, start: nat, end: nat, j: int)
    requires start < end <= |rows| && (forall k :: start <= k < end ==> same(rows[k]))
    requires (start > 0 ==> !same(rows[start - 1])) && (end < |rows| ==> !same(rows[end]))
    ensures Hidden(FoldRun(rows, start, end, context), j) <==> start <= j < end && ShouldHide(rows, same, context, j)
  {
    hide Far, VisibleRows, Hidden;
    var a, b := HideFrom(start, context), HideTo(rows, end, context);
    if start <= j < end {
      FarInRun(rows, same, context, start, end, j);
      FarInRun(rows, same, context, start, end, j - 1);
      FarInRun(rows, same, context, start, end, j + 1);
    }
    if b <= a + 1 {
      VisibleHidesNothing(rows[start..end], j);
    } else {
      var head, fold, tail := VisibleRows(rows[start..a]), [Fold(b - a, a)], VisibleRows(rows[b..end]);
      HiddenConcat(head + fold, tail, j);
      HiddenConcat(head, fold, j);
      VisibleHidesNothing(rows[start..a], j);
      VisibleHidesNothing(rows[b..end], j);
      FoldHidesSlice<T>(b - a, a, j);
    }
  }

  lemma FoldHidesSlice<T>(count: nat, at: nat, j: int)
    ensures Hidden([Folded<T>.Fold(count, at)], j) <==> at <= j < at + count
  {
    var out := [Folded<T>.Fold(count, at)];
    assert Hides(out[0], j) == (at <= j < at + count);
  }

  lemma {:induction false} FoldFromHides<T>(rows: seq<T>, i: nat, same: T -> bool, context: nat, j: int)
    requires i <= |rows| && (0 < i < |rows| && same(rows[i]) ==> !same(rows[i - 1]))
    ensures Hidden(FoldFrom(rows, i, same, context), j) <==> i <= j && ShouldHide(rows, same, context, j)
    decreases |rows| - i
  {
    hide Hidden, FoldRun;
    if i == |rows| {
      NothingHidden<T>(j);
    } else if !same(rows[i]) {
      FoldFromHides(rows, i + 1, same, context, j);
      HiddenConcat([Visible(rows[i])], FoldFrom(rows, i + 1, same, context), j);
      VisibleHidesNothing([rows[i]], j);
      assert [Visible(rows[i])] == VisibleRows([rows[i]]);
    } else {
      var end := RunEnd(rows, i, same);
      RunHides(rows, same, context, i, end, j);
      FoldFromHides(rows, end, same, context, j);
      HiddenConcat(FoldRun(rows, i, end, context), FoldFrom(rows, end, same, context), j);
    }
  }

  lemma NothingHidden<T>(j: int)
    ensures !Hidden<T>([], j)
  {
  }

  /**
    A row is hidden exactly when no change lies within `context` rows of it and it has a
    neighbour of which the same holds, so a fold never replaces a single row.
  */
  lemma FoldHides<T>(rows: seq<T>, same: T -> bool, context: nat, j: int)
    ensures Hidden(FoldFrom(rows, 0, same, context), j) <==> ShouldHide(rows, same, context, j)
  {
    FoldFromHides(rows, 0, same, context, j);
  }

  /** Appends the rows from `from` up to `to`. */
  method PushRows<T>(out: seq<Folded<T>>, rows: seq<T>, from: nat, to: nat) returns (all: seq<Folded<T>>)
    requires from <= to <= |rows|
    ensures all == out + VisibleRows(rows[from..to])
  {
    all := out;
    Unit(out);
    for k := from to to
      invariant all == out + VisibleRows(rows[from..k])
    {
      assert rows[from..k + 1] == rows[from..k] + [rows[k]];
      VisibleSnoc(rows[from..k], rows[k]);
      Assoc(out, VisibleRows(rows[from..k]), [Visible(rows[k])]);
      all := all + [Visible(rows[k])];
    }
  }

  lemma {:induction false} VisibleSnoc<T>(xs: seq<T>, x: T)
    ensures VisibleRows(xs + [x]) == VisibleRows(xs) + [Visible(x)]
  {
    if xs != [] {
      VisibleSnoc(xs[1..], x);
      Cons(xs, [x]);
    }
  }

  /** Appends one run of unchanged rows, its middle as a fold if that hides more than one row. */
  method PushRun<T>(out: seq<Folded<T>>, rows: seq<T>, index: nat, end: nat, context: nat) returns (all: seq<Folded<T>>)
    requires index < end <= |rows|
    ensures all == out + FoldRun(rows, index, end, context)
  {
    hide VisibleRows;
    var run := end - index;
    var leading := if index == 0 then 0 else context;
    var trailing := if end == |rows| then 0 else context;
    if run <= leading + trailing + 1 {
      all := PushRows(out, rows, index, end);
    } else {
      var a, b := index + leading, end - trailing;
      var head, fold, tail := VisibleRows(rows[index..a]), [Fold(b - a, a)], VisibleRows(rows[b..end]);
      all := PushRows(out, rows, index, a);
      all := all + [Fold(run - leading - trailing, a)];
      all := PushRows(all, rows, b, end);
      Assoc(out, head, fold);
      Assoc(out, head + fold, tail);
    }
  }

  /** Shows every row but those `ShouldHide` names, each hidden stretch as one fold. */
  method FoldUnchanged<T>(rows: seq<T>, same: T -> bool, context: nat) returns (out: seq<Folded<T>>)
    ensures out == FoldFrom(rows, 0, same, context)
    ensures Unfold(out, rows) == rows
    ensures forall j :: Hidden(out, j) <==> ShouldHide(rows, same, context, j)
  {
    hide FoldFrom, Hidden, ShouldHide, Unfold;
    out := [];
    var index := 0;
    Unit(FoldFrom(rows, 0, same, context));
    while index < |rows|
      invariant 0 <= index <= |rows|
      invariant out + FoldFrom(rows, index, same, context) == FoldFrom(rows, 0, same, context)
    {
      FoldAt(rows, index, same, context);
      if !same(rows[index]) {
        Append(out, Visible(rows[index]), FoldFrom(rows, index + 1, same, context));
        out := out + [Visible(rows[index])];
        index := index + 1;
      } else {
        var end := index;
        while end < |rows| && same(rows[end])
          invariant index <= end <= |rows|
          invariant RunEnd(rows, index, same) == RunEnd(rows, end, same)
        {
          end := end + 1;
        }
        Assoc(out, FoldRun(rows, index, end, context), FoldFrom(rows, end, same, context));
        out := PushRun(out, rows, index, end, context);
        index := end;
      }
    }
    FoldNothing(rows, same, context);
    Unit(out);
    UnfoldRestores(rows, same, context);
    forall j
      ensures Hidden(out, j) <==> ShouldHide(rows, same, context, j)
    {
      FoldHides(rows, same, context, j);
    }
  }

  lemma FoldNothing<T>(rows: seq<T>, same: T -> bool, context: nat)
    ensures FoldFrom(rows, |rows|, same, context) == []
  {
  }

  lemma FoldAt<T>(rows: seq<T>, i: nat, same: T -> bool, context: nat)
    requires i < |rows|
    ensures !same(rows[i]) ==> FoldFrom(rows, i, same, context) == [Visible(rows[i])] + FoldFrom(rows, i + 1, same, context)
    ensures same(rows[i]) ==>
      RunEnd(rows, i, same) > i &&
      FoldFrom(rows, i, same, context)
        == FoldRun(rows, i, RunEnd(rows, i, same), context) + FoldFrom(rows, RunEnd(rows, i, same), same, context)
  {
    hide FoldRun;
  }
}
