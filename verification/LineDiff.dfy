/**
  The line diff: the lines both texts begin and end with are set aside, and a table of
  common-subsequence lengths over suffix pairs decides about the rest.

  Main results: when the inputs are small enough to align, no edit script keeps more lines
  (`FewestChanges`, `DiffLines`), and in every case the script rebuilds both texts.
*/
module LineDiff {
  import opened Seqs
  import opened JsonSyntax
  import opened JsonLines
  import opened JsonTree

  datatype Op = Same | Add | Del

  /** A step of an edit script, with the number the line has in either text it belongs to, counted from 1. */
  datatype DiffLine = DiffLine(op: Op, text: string, left: Option<nat>, right: Option<nat>)

  datatype DiffResult = DiffResult(lines: seq<DiffLine>, added: nat, removed: nat, truncated: bool)

  const MAX_BYTES: nat := 200 * 1024
  const MAX_TABLE_CELLS: nat := 2_000_000

  newtype Uint32 = x: int | 0 <= x < 0x1_0000_0000

  function Line(op: Op, text: string): DiffLine {
    DiffLine(op, text, None, None)
  }

  // ---- edit scripts -------------------------------------------------------------------------------

  /** The lines a script says the first text has. */
  function Before(ls: seq<DiffLine>): seq<string> {
    if ls == [] then [] else (if ls[0].op == Add then [] else [ls[0].text]) + Before(ls[1..])
  }

  /** The lines a script says the second text has. */
  function After(ls: seq<DiffLine>): seq<string> {
    if ls == [] then [] else (if ls[0].op == Del then [] else [ls[0].text]) + After(ls[1..])
  }

  function Kept(ls: seq<DiffLine>): seq<string> {
    if ls == [] then [] else (if ls[0].op == Same then [ls[0].text] else []) + Kept(ls[1..])
  }

  function Count(ls: seq<DiffLine>, op: Op): nat {
    if ls == [] then 0 else (if ls[0].op == op then 1 else 0) + Count(ls[1..], op)
  }

  /** A script that turns `a` into `b`. */
  predicate IsScript(ls: seq<DiffLine>, a: seq<string>, b: seq<string>) {
    Before(ls) == a && After(ls) == b
  }

  lemma {:induction false} Concat(x: seq<DiffLine>, y: seq<DiffLine>)
    ensures Before(x + y) == Before(x) + Before(y)
    ensures After(x + y) == After(x) + After(y)
    ensures forall op :: Count(x + y, op) == Count(x, op) + Count(y, op)
  {
    if x == [] {
      Unit(y);
      Unit(Before(y));
      Unit(After(y));
    } else {
      Concat(x[1..], y);
      Cons(x, y);
      Assoc(if x[0].op == Add then [] else [x[0].text], Before(x[1..]), Before(y));
      Assoc(if x[0].op == Del then [] else [x[0].text], After(x[1..]), After(y));
    }
  }

  /** Every line a script shows comes from one of the texts, and kept lines from both. */
  lemma {:induction false} Balance(ls: seq<DiffLine>)
    ensures |Before(ls)| == Count(ls, Same) + Count(ls, Del)
    ensures |After(ls)| == Count(ls, Same) + Count(ls, Add)
    ensures |Kept(ls)| == Count(ls, Same)
  {
    if ls != [] {
      Balance(ls[1..]);
    }
  }

  // ---- longest common subsequence -----------------------------------------------------------------

  predicate IsSubseq(c: seq<string>, a: seq<string>) {
    c == [] || (a != [] && ((c[0] == a[0] && IsSubseq(c[1..], a[1..])) || IsSubseq(c, a[1..])))
  }

  function Max(x: nat, y: nat): nat {
    if x >= y then x else y
  }

  function Lcs(a: seq<string>, b: seq<string>): nat
    decreases |a| + |b|
  {
    if a == [] || b == [] then 0
    else if a[0] == b[0] then Lcs(a[1..], b[1..]) + 1
    else Max(Lcs(a[1..], b), Lcs(a, b[1..]))
  }

  lemma {:induction false} SubseqTail(c: seq<string>, a: seq<string>)
    requires c != [] && IsSubseq(c, a)
    ensures a != [] && IsSubseq(c[1..], a[1..])
    decreases |a|
  {
    if !(c[0] == a[0] && IsSubseq(c[1..], a[1..])) {
      SubseqTail(c, a[1..]);
      SubseqWiden(c[1..], a[1..]);
    }
  }

  lemma SubseqWiden(c: seq<string>, a: seq<string>)
    requires a != [] && IsSubseq(c, a[1..])
    ensures IsSubseq(c, a)
  {
  }

  /** No common subsequence is longer than the table says. */
  lemma {:induction false} LcsIsMaximal(c: seq<string>, a: seq<string>, b: seq<string>)
    requires IsSubseq(c, a) && IsSubseq(c, b)
    ensures |c| <= Lcs(a, b)
    decreases |a| + |b|
  {
    if c != [] {
      if a[0] == b[0] {
        SubseqTail(c, a);
        SubseqTail(c, b);
        LcsIsMaximal(c[1..], a[1..], b[1..]);
      } else if c[0] != a[0] {
        LcsIsMaximal(c, a[1..], b);
      } else {
        LcsIsMaximal(c, a, b[1..]);
      }
    }
  }

  lemma {:induction false} KeptIsCommon(ls: seq<DiffLine>)
    ensures IsSubseq(Kept(ls), Before(ls)) && IsSubseq(Kept(ls), After(ls))
  {
    if ls != [] {
      KeptIsCommon(ls[1..]);
      var k, a, b := Kept(ls[1..]), Before(ls[1..]), After(ls[1..]);
      if ls[0].op == Same {
        Tail(ls[0].text, k);
        Tail(ls[0].text, a);
        Tail(ls[0].text, b);
      } else if ls[0].op == Del {
        Tail(ls[0].text, a);
        SubseqWiden(k, [ls[0].text] + a);
        Unit(k);
        Unit(b);
      } else {
        Tail(ls[0].text, b);
        SubseqWiden(k, [ls[0].text] + b);
        Unit(k);
        Unit(a);
      }
    }
  }

  /** No edit script keeps more lines than the longest common subsequence. */
  lemma ScriptBound(ls: seq<DiffLine>, a: seq<string>, b: seq<string>)
    requires IsScript(ls, a, b)
    ensures Count(ls, Same) <= Lcs(a, b)
  {
    KeptIsCommon(ls);
    LcsIsMaximal(Kept(ls), a, b);
    Balance(ls);
  }

  lemma {:induction false} LcsPrefix(p: seq<string>, a: seq<string>, b: seq<string>)
    ensures Lcs(p + a, p + b) == |p| + Lcs(a, b)
  {
    if p == [] {
      Unit(a);
      Unit(b);
    } else {
      LcsPrefix(p[1..], a, b);
      Cons(p, a);
      Cons(p, b);
    }
  }

  /** A line both texts end with is always kept. */
  lemma {:induction false} LcsLast(a: seq<string>, b: seq<string>, x: string)
    ensures Lcs(a + [x], b + [x]) == Lcs(a, b) + 1
    decreases |a| + |b|
  {
    Unit([x]);
    assert [x][1..] == [];
    if a != [] {
      Cons(a, [x]);
      LcsLast(a[1..], b, x);
    }
    if b != [] {
      Cons(b, [x]);
      LcsLast(a, b[1..], x);
    }
    if a != [] && b != [] {
      LcsLast(a[1..], b[1..], x);
    }
  }

  lemma {:induction false} LcsSuffix(a: seq<string>, b: seq<string>, s: seq<string>)
    ensures Lcs(a + s, b + s) == Lcs(a, b) + |s|
    decreases |s|
  {
    if s == [] {
      Unit(a);
      Unit(b);
    } else {
      var init, x := s[..|s| - 1], s[|s| - 1];
      LcsSuffix(a, b, init);
      LcsLast(a + init, b + init, x);
      assert s == init + [x];
      Assoc(a, init, [x]);
      Assoc(b, init, [x]);
    }
  }

  lemma {:induction false} LcsBound(a: seq<string>, b: seq<string>)
    ensures Lcs(a, b) <= |a|
    decreases |a| + |b|
  {
    if a != [] && b != [] {
      LcsBound(a[1..], b[1..]);
      LcsBound(a[1..], b);
      LcsBound(a, b[1..]);
    }
  }

  // ---- alignment ---------------------------------------------------------------------------------------

  function AllLines(op: Op, texts: seq<string>): (r: seq<DiffLine>)
    ensures |r| == |texts|
  {
    if texts == [] then [] else [Line(op, texts[0])] + AllLines(op, texts[1..])
  }

  lemma {:induction false} AllLinesIs(op: Op, texts: seq<string>)
    ensures Before(AllLines(op, texts)) == if op == Add then [] else texts
    ensures After(AllLines(op, texts)) == if op == Del then [] else texts
    ensures forall o :: Count(AllLines(op, texts), o) == if o == op then |texts| else 0
  {
    if texts != [] {
      AllLinesIs(op, texts[1..]);
      Tail(Line(op, texts[0]), AllLines(op, texts[1..]));
      assert [texts[0]] + texts[1..] == texts;
    }
  }

  /** The traceback over the table. */
  function Aligned(a: seq<string>, b: seq<string>): seq<DiffLine>
    decreases |a| + |b|
  {
    if a == [] then AllLines(Add, b)
    else if b == [] then AllLines(Del, a)
    else if a[0] == b[0] then [Line(Same, a[0])] + Aligned(a[1..], b[1..])
    else if Lcs(a[1..], b) >= Lcs(a, b[1..]) then [Line(Del, a[0])] + Aligned(a[1..], b)
    else [Line(Add, b[0])] + Aligned(a, b[1..])
  }

  /** The alignment is a script and keeps as many lines as any can. */
  lemma {:induction false} AlignedIsScript(a: seq<string>, b: seq<string>)
    ensures IsScript(Aligned(a, b), a, b) && Count(Aligned(a, b), Same) == Lcs(a, b)
    decreases |a| + |b|
  {
    if a == [] {
      AllLinesIs(Add, b);
    } else if b == [] {
      AllLinesIs(Del, a);
    } else {
      assert [a[0]] + a[1..] == a && [b[0]] + b[1..] == b;
      if a[0] == b[0] {
        AlignedIsScript(a[1..], b[1..]);
        Tail(Line(Same, a[0]), Aligned(a[1..], b[1..]));
      } else if Lcs(a[1..], b) >= Lcs(a, b[1..]) {
        AlignedIsScript(a[1..], b);
        Tail(Line(Del, a[0]), Aligned(a[1..], b));
        Unit(b);
      } else {
        AlignedIsScript(a, b[1..]);
        Tail(Line(Add, b[0]), Aligned(a, b[1..]));
        Unit(a);
      }
    }
  }

  // -- the flat table

  function Cell(i: nat, width: nat, j: nat): nat {
    i * width + j
  }

  lemma CellInTable(i: nat, n: nat, width: nat, j: nat)
    requires i <= n && j < width
    ensures Cell(i, width, j) < (n + 1) * width
  {
    assert i * width <= n * width;
  }

  lemma CellsDiffer(i: nat, j: nat, k: nat, l: nat, width: nat)
    requires j < width && l < width && (i != k || j != l)
    ensures Cell(i, width, j) != Cell(k, width, l)
  {
    if i < k {
      assert (i + 1) * width <= k * width;
    } else if k < i {
      assert (k + 1) * width <= i * width;
    }
  }

  /** A cell the loops have reached, or one on the zero border. */
  predicate Reached(a: seq<string>, b: seq<string>, i: nat, j: nat, k: nat, l: nat) {
    k <= |a| && l <= |b| && (k > i || (k == i && l >= j) || k == |a| || l == |b|)
  }

  /** Every reached cell holds the length of the longest common subsequence of the two tails. */
  ghost predicate Filled(table: array<Uint32>, a: seq<string>, b: seq<string>, i: nat, j: nat)
    reads table
    requires table.Length == (|a| + 1) * (|b| + 1)
  {
    forall k: nat, l: nat | Reached(a, b, i, j, k, l) ::
      Cell(k, |b| + 1, l) < table.Length && table[Cell(k, |b| + 1, l)] as int == Lcs(a[k..], b[l..])
  }

  lemma LcsCell(a: seq<string>, b: seq<string>, i: nat, j: nat)
    requires i < |a| && j < |b|
    ensures Lcs(a[i..], b[j..])
         == if a[i] == b[j] then Lcs(a[i + 1..], b[j + 1..]) + 1 else Max(Lcs(a[i + 1..], b[j..]), Lcs(a[i..], b[j + 1..]))
  {
    assert a[i..][1..] == a[i + 1..] && b[j..][1..] == b[j + 1..];
  }

  lemma Border(a: seq<string>, b: seq<string>, k: nat, l: nat)
    requires k <= |a| && l <= |b| && (k == |a| || l == |b|)
    ensures Lcs(a[k..], b[l..]) == 0
  {
  }

  method NewTable(a: seq<string>, b: seq<string>) returns (table: array<Uint32>)
    ensures fresh(table) && table.Length == (|a| + 1) * (|b| + 1)
    ensures Filled(table, a, b, |a|, 0)
  {
    table := new Uint32[(|a| + 1) * (|b| + 1)](_ => 0);
    forall k: nat, l: nat | Reached(a, b, |a|, 0, k, l)
      ensures Cell(k, |b| + 1, l) < table.Length && table[Cell(k, |b| + 1, l)] as int == Lcs(a[k..], b[l..])
    {
      CellInTable(k, |a|, |b| + 1, l);
      Border(a, b, k, l);
    }
  }

  method FillCell(table: array<Uint32>, a: seq<string>, b: seq<string>, i: nat, j: nat)
    requires i < |a| && j < |b| && |a| < 0x1_0000_0000
    requires table.Length == (|a| + 1) * (|b| + 1) && Filled(table, a, b, i, j + 1)
    modifies table
    ensures Filled(table, a, b, i, j)
  {
    hide Lcs, Cell;
    var width := |b| + 1;
    LcsCell(a, b, i, j);
    LcsBound(a[i..], b[j..]);
    CellInTable(i, |a|, width, j);
    assert Reached(a, b, i, j + 1, i + 1, j + 1) && Reached(a, b, i, j + 1, i + 1, j) && Reached(a, b, i, j + 1, i, j + 1);
    ghost var was := table[..];
    if a[i] == b[j] {
      table[Cell(i, width, j)] := table[Cell(i + 1, width, j + 1)] + 1;
    } else {
      var below, right := table[Cell(i + 1, width, j)], table[Cell(i, width, j + 1)];
      table[Cell(i, width, j)] := if below >= right then below else right;
    }
    forall k: nat, l: nat | Reached(a, b, i, j, k, l)
      ensures Cell(k, width, l) < table.Length && table[Cell(k, width, l)] as int == Lcs(a[k..], b[l..])
    {
      if k != i || l != j {
        assert Reached(a, b, i, j + 1, k, l);
        CellsDiffer(k, l, i, j, width);
        assert table[Cell(k, width, l)] == was[Cell(k, width, l)];
      }
    }
  }

  method FillTable(a: seq<string>, b: seq<string>) returns (table: array<Uint32>)
    requires |a| < 0x1_0000_0000
    ensures fresh(table) && table.Length == (|a| + 1) * (|b| + 1)
    ensures Filled(table, a, b, 0, 0)
  {
    hide Lcs, Cell;
    table := NewTable(a, b);
    var i := |a|;
    while i > 0
      invariant 0 <= i <= |a| && fresh(table)
      invariant Filled(table, a, b, i, 0)
    {
      i := i - 1;
      var j := |b|;
      NextRow(a, b, i);
      while j > 0
        invariant 0 <= j <= |b| && fresh(table)
        invariant Filled(table, a, b, i, j)
      {
        j := j - 1;
        FillCell(table, a, b, i, j);
      }
    }
  }

  /** Starting a row adds nothing but its border cell. */
  lemma NextRow(a: seq<string>, b: seq<string>, i: nat)
    ensures forall k: nat, l: nat :: Reached(a, b, i, |b|, k, l) ==> Reached(a, b, i + 1, 0, k, l)
  {
  }

  lemma AlignedAt(a: seq<string>, b: seq<string>, i: nat, j: nat)
    requires i < |a| && j < |b|
    ensures Aligned(a[i..], b[j..])
         == if a[i] == b[j] then [Line(Same, a[i])] + Aligned(a[i + 1..], b[j + 1..])
            else if Lcs(a[i + 1..], b[j..]) >= Lcs(a[i..], b[j + 1..]) then [Line(Del, a[i])] + Aligned(a[i + 1..], b[j..])
            else [Line(Add, b[j])] + Aligned(a[i..], b[j + 1..])
  {
    hide Lcs;
    assert a[i..][1..] == a[i + 1..] && b[j..][1..] == b[j + 1..];
  }

  lemma AlignedRest(a: seq<string>, b: seq<string>, i: nat, j: nat)
    requires i <= |a| && j <= |b| && (i == |a| || j == |b|)
    ensures i < |a| ==> Aligned(a[i..], b[j..]) == [Line(Del, a[i])] + Aligned(a[i + 1..], b[j..])
    ensures j < |b| ==> Aligned(a[i..], b[j..]) == [Line(Add, b[j])] + Aligned(a[i..], b[j + 1..])
    ensures i == |a| && j == |b| ==> Aligned(a[i..], b[j..]) == []
  {
    if i < |a| {
      assert a[i..][1..] == a[i + 1..];
    } else if j < |b| {
      assert b[j..][1..] == b[j + 1..];
    }
  }

  /** What is left of one side once the other is used up. */
  method Leftovers(a: seq<string>, b: seq<string>, from: nat, to: nat) returns (out: seq<DiffLine>)
    requires from <= |a| && to <= |b| && (from == |a| || to == |b|)
    ensures out == Aligned(a[from..], b[to..])
  {
    hide Aligned;
    out := [];
    var i, j := from, to;
    Unit(Aligned(a[i..], b[j..]));
    while i < |a|
      invariant from <= i <= |a| && (i == |a| || j == |b|)
      invariant out + Aligned(a[i..], b[j..]) == Aligned(a[from..], b[to..])
    {
      AlignedRest(a, b, i, j);
      Append(out, Line(Del, a[i]), Aligned(a[i + 1..], b[j..]));
      out := out + [Line(Del, a[i])];
      i := i + 1;
    }
    while j < |b|
      invariant to <= j <= |b|
      invariant out + Aligned(a[i..], b[j..]) == Aligned(a[from..], b[to..])
    {
      AlignedRest(a, b, i, j);
      Append(out, Line(Add, b[j]), Aligned(a[i..], b[j + 1..]));
      out := out + [Line(Add, b[j])];
      j := j + 1;
    }
    AlignedRest(a, b, i, j);
    Unit(out);
  }

  /** Fills the table and follows it from the front of both lists; the outcome is the optimal script. */
  method Align(a: seq<string>, b: seq<string>) returns (out: seq<DiffLine>)
    requires |a| < 0x1_0000_0000
    ensures out == Aligned(a, b)
  {
    hide Lcs, Cell, Aligned;
    var width := |b| + 1;
    var table := FillTable(a, b);
    out := [];
    var i, j := 0, 0;
    assert a[0..] == a && b[0..] == b;
    while i < |a| && j < |b|
      invariant 0 <= i <= |a| && 0 <= j <= |b|
      invariant out + Aligned(a[i..], b[j..]) == Aligned(a, b)
      invariant Filled(table, a, b, 0, 0)
      decreases |a| - i + |b| - j
    {
      AlignedAt(a, b, i, j);
      assert Reached(a, b, 0, 0, i + 1, j) && Reached(a, b, 0, 0, i, j + 1);
      if a[i] == b[j] {
        Append(out, Line(Same, a[i]), Aligned(a[i + 1..], b[j + 1..]));
        out := out + [Line(Same, a[i])];
        i, j := i + 1, j + 1;
      } else if table[Cell(i + 1, width, j)] >= table[Cell(i, width, j + 1)] {
        Append(out, Line(Del, a[i]), Aligned(a[i + 1..], b[j..]));
        out := out + [Line(Del, a[i])];
        i := i + 1;
      } else {
        Append(out, Line(Add, b[j]), Aligned(a[i..], b[j + 1..]));
        out := out + [Line(Add, b[j])];
        j := j + 1;
      }
    }
    var rest := Leftovers(a, b, i, j);
    out := out + rest;
  }

  // ---- removed lines come first ------------------------------------------------------------------------------

  /** No removed line directly behind an added one. */
  ghost predicate RemovedFirst(ls: seq<DiffLine>) {
    forall i :: 0 <= i < |ls| - 1 && ls[i].op == Add ==> ls[i + 1].op != Del
  }

  /** Not numbered yet. */
  ghost predicate Bare(ls: seq<DiffLine>) {
    forall i :: 0 <= i < |ls| ==> ls[i].left.None? && ls[i].right.None?
  }

  lemma {:induction false} AllLinesAre(op: Op, texts: seq<string>)
    ensures forall i :: 0 <= i < |texts| ==> AllLines(op, texts)[i] == Line(op, texts[i])
    ensures RemovedFirst(AllLines(op, texts)) && Bare(AllLines(op, texts))
  {
    if texts != [] {
      AllLinesAre(op, texts[1..]);
    }
  }

  /** Where a line is added although one could be removed, removing that one now would lose a line. */
  lemma {:induction false} AddThenNoDel(a: seq<string>, b: seq<string>)
    requires a != [] && b != [] && a[0] != b[0] && Lcs(a[1..], b) < Lcs(a, b[1..])
    ensures Aligned(a, b[1..]) != [] && Aligned(a, b[1..])[0].op != Del
  {
    if b[1..] != [] && a[0] != b[1..][0] && Lcs(a[1..], b[1..]) >= Lcs(a, b[1..][1..]) {
      LcsShrinks(a[1..], b);
    }
  }

  /** Dropping a line of one side keeps no more. */
  lemma LcsShrinks(a: seq<string>, b: seq<string>)
    requires b != []
    ensures Lcs(a, b[1..]) <= Lcs(a, b)
  {
    AlignedIsScript(a, b[1..]);
    var ls := [Line(Add, b[0])] + Aligned(a, b[1..]);
    Tail(Line(Add, b[0]), Aligned(a, b[1..]));
    assert b == [b[0]] + b[1..];
    ScriptBound(ls, a, b);
  }

  lemma {:induction false} AlignedRemovesFirst(a: seq<string>, b: seq<string>)
    ensures RemovedFirst(Aligned(a, b)) && Bare(Aligned(a, b))
    decreases |a| + |b|
  {
    if a == [] {
      AllLinesAre(Add, b);
    } else if b == [] {
      AllLinesAre(Del, a);
    } else if a[0] == b[0] {
      AlignedRemovesFirst(a[1..], b[1..]);
    } else if Lcs(a[1..], b) >= Lcs(a, b[1..]) {
      AlignedRemovesFirst(a[1..], b);
    } else {
      AlignedRemovesFirst(a, b[1..]);
      AddThenNoDel(a, b);
    }
  }

  lemma ConcatOrder(x: seq<DiffLine>, y: seq<DiffLine>)
    requires RemovedFirst(x) && RemovedFirst(y) && Bare(x) && Bare(y)
    requires x != [] && y != [] && x[|x| - 1].op == Add ==> y[0].op != Del
    ensures RemovedFirst(x + y) && Bare(x + y)
  {
  }

  /** Unchanged lines around a middle in order. */
  lemma SandwichOrder(p: seq<string>, m: seq<DiffLine>, s: seq<string>)
    requires RemovedFirst(m) && Bare(m)
    ensures var ls := AllLines(Same, p) + m + AllLines(Same, s); RemovedFirst(ls) && Bare(ls)
  {
    AllLinesAre(Same, p);
    AllLinesAre(Same, s);
    var x, y := AllLines(Same, p), AllLines(Same, s);
    assert forall i :: 0 <= i < |x| ==> x[i].op == Same;
    assert forall i :: 0 <= i < |y| ==> y[i].op == Same;
    hide AllLines;
    ConcatOrder(x, m);
    ConcatOrder(x + m, y);
  }

  lemma ReplacementOrder(a: seq<string>, b: seq<string>)
    ensures var ls := AllLines(Del, a) + AllLines(Add, b); RemovedFirst(ls) && Bare(ls) && Count(ls, Same) == 0
  {
    AllLinesAre(Del, a);
    AllLinesAre(Add, b);
    AllLinesIs(Del, a);
    AllLinesIs(Add, b);
    var x, y := AllLines(Del, a), AllLines(Add, b);
    assert forall i :: 0 <= i < |x| ==> x[i].op == Del;
    hide AllLines;
    ConcatOrder(x, y);
    Concat(x, y);
  }

  // ---- numbering ---------------------------------------------------------------------------------------

  /** A line has a number exactly in the texts it belongs to. */
  ghost predicate NumberedRight(ls: seq<DiffLine>) {
    forall i :: 0 <= i < |ls| ==> (ls[i].left.Some? <==> ls[i].op != Add) && (ls[i].right.Some? <==> ls[i].op != Del)
  }

  lemma {:induction false} NumberingMarks(ls: seq<DiffLine>, left: nat, right: nat)
    requires Bare(ls)
    ensures NumberedRight(NumberFrom(ls, left, right))
    ensures forall i :: 0 <= i < |ls| ==> NumberFrom(ls, left, right)[i].op == ls[i].op
  {
    if ls != [] {
      var l, rest := ls[0], ls[1..];
      var left', right' := if l.op == Add then left else left + 1, if l.op == Del then right else right + 1;
      NumberingMarks(rest, left', right');
    }
  }

  function NumberFrom(ls: seq<DiffLine>, left: nat, right: nat): (r: seq<DiffLine>)
    ensures |r| == |ls|
  {
    if ls == [] then []
    else
      var l, rest := ls[0], ls[1..];
      match l.op
      case Same => [l.(left := Some(left + 1), right := Some(right + 1))] + NumberFrom(rest, left + 1, right + 1)
      case Del => [l.(left := Some(left + 1))] + NumberFrom(rest, left + 1, right)
      case Add => [l.(right := Some(right + 1))] + NumberFrom(rest, left, right + 1)
  }

  datatype Placed = Placed(line: nat, text: string)

  function Enumerate(texts: seq<string>, from: nat): seq<Placed> {
    if texts == [] then [] else [Placed(from, texts[0])] + Enumerate(texts[1..], from + 1)
  }

  function Place(n: Option<nat>, text: string): Placed {
    Placed(if n.Some? then n.value else 0, text)
  }

  /** The numbered lines of the first text, in order; of the second text. */
  function LeftLines(ls: seq<DiffLine>): seq<Placed> {
    if ls == [] then [] else (if ls[0].op == Add then [] else [Place(ls[0].left, ls[0].text)]) + LeftLines(ls[1..])
  }

  function RightLines(ls: seq<DiffLine>): seq<Placed> {
    if ls == [] then [] else (if ls[0].op == Del then [] else [Place(ls[0].right, ls[0].text)]) + RightLines(ls[1..])
  }

  /** Numbering changes nothing else, and counts each side without gaps. */
  lemma NumberingCounts(ls: seq<DiffLine>, left: nat, right: nat)
    ensures var r := NumberFrom(ls, left, right);
            Before(r) == Before(ls) && After(r) == After(ls) && (forall op :: Count(r, op) == Count(ls, op)) &&
            LeftLines(r) == Enumerate(Before(ls), left + 1) && RightLines(r) == Enumerate(After(ls), right + 1)
  {
    NumberingKeeps(ls, left, right);
    NumberingPlaces(ls, left, right);
  }

  lemma {:induction false} NumberingKeeps(ls: seq<DiffLine>, left: nat, right: nat)
    ensures var r := NumberFrom(ls, left, right);
            Before(r) == Before(ls) && After(r) == After(ls) && forall op :: Count(r, op) == Count(ls, op)
  {
    if ls != [] {
      var l, rest := ls[0], ls[1..];
      var left', right' := if l.op == Add then left else left + 1, if l.op == Del then right else right + 1;
      NumberingKeeps(rest, left', right');
      assert NumberFrom(ls, left, right)[1..] == NumberFrom(rest, left', right');
    }
  }

  lemma {:induction false} NumberingPlaces(ls: seq<DiffLine>, left: nat, right: nat)
    ensures var r := NumberFrom(ls, left, right);
            LeftLines(r) == Enumerate(Before(ls), left + 1) && RightLines(r) == Enumerate(After(ls), right + 1)
  {
    if ls != [] {
      var l, rest := ls[0], ls[1..];
      var left', right' := if l.op == Add then left else left + 1, if l.op == Del then right else right + 1;
      NumberingPlaces(rest, left', right');
      assert NumberFrom(ls, left, right)[1..] == NumberFrom(rest, left', right');
      Unit(Before(rest));
      Unit(After(rest));
      Tail(l.text, Before(rest));
      Tail(l.text, After(rest));
    }
  }

  method Number(lines: seq<DiffLine>) returns (out: seq<DiffLine>)
    ensures out == NumberFrom(lines, 0, 0)
  {
    hide NumberFrom;
    var left: nat, right: nat := 0, 0;
    out := [];
    assert lines[0..] == lines;
    Unit(NumberFrom(lines, 0, 0));
    for k := 0 to |lines|
      invariant out + NumberFrom(lines[k..], left, right) == NumberFrom(lines, 0, 0)
    {
      var line := lines[k];
      NumberAt(lines, k, left, right);
      if line.op == Same {
        left, right := left + 1, right + 1;
        line := line.(left := Some(left), right := Some(right));
      } else if line.op == Del {
        left := left + 1;
        line := line.(left := Some(left));
      } else {
        right := right + 1;
        line := line.(right := Some(right));
      }
      Append(out, line, NumberFrom(lines[k + 1..], left, right));
      out := out + [line];
    }
    assert lines[|lines|..] == [];
    NumberNothing(left, right);
    Unit(out);
  }

  lemma NumberNothing(left: nat, right: nat)
    ensures NumberFrom([], left, right) == []
  {
  }

  lemma NumberAt(ls: seq<DiffLine>, k: nat, left: nat, right: nat)
    requires k < |ls|
    ensures var l, rest := ls[k], ls[k + 1..];
            NumberFrom(ls[k..], left, right) ==
            match l.op
            case Same => [l.(left := Some(left + 1), right := Some(right + 1))] + NumberFrom(rest, left + 1, right + 1)
            case Del => [l.(left := Some(left + 1))] + NumberFrom(rest, left + 1, right)
            case Add => [l.(right := Some(right + 1))] + NumberFrom(rest, left, right + 1)
  {
    assert ls[k..][1..] == ls[k + 1..];
  }

  // ---- the diff of two texts ---------------------------------------------------------------------------

  function SplitText(text: string): seq<string> {
    if text == "" then [] else Lines(text)
  }

  lemma {:induction false} JoinLines(text: string)
    ensures Join(Lines(text), "\n") == text
    decreases |text|
  {
    hide Join;
    var k := JsonLex.RunEnd(text, 0, NotLf);
    JoinOne(text);
    if k < |text| {
      var r := text[k + 1..];
      JoinLines(r);
      Around(text, k);
      JoinMore(text[..k], Lines(r));
    }
  }

  lemma JoinOne(x: string)
    ensures Join([x], "\n") == x
  {
  }

  lemma JoinMore(x: string, rest: seq<string>)
    requires rest != []
    ensures Join([x] + rest, "\n") == x + "\n" + Join(rest, "\n")
  {
    Tail(x, rest);
  }

  /** Splitting a text into lines loses nothing, and leaves no line feed in a line. */
  lemma SplitTextRoundTrip(text: string)
    ensures Join(SplitText(text), "\n") == text
    ensures (text == "" <==> SplitText(text) == []) && forall line :: line in SplitText(text) ==> '\n' !in line
  {
    if text != "" {
      JoinLines(text);
      LinesHaveNoLf(text);
    }
  }

  lemma {:induction false} LinesHaveNoLf(text: string)
    ensures forall line :: line in Lines(text) ==> '\n' !in line
    decreases |text|
  {
    var k := JsonLex.RunEnd(text, 0, NotLf);
    RunHasNoLf(text, 0);
    if k < |text| {
      LinesHaveNoLf(text[k + 1..]);
    }
  }

  lemma {:induction false} RunHasNoLf(text: string, i: nat)
    requires i <= |text|
    ensures forall k :: i <= k < JsonLex.RunEnd(text, i, NotLf) ==> text[k] != '\n'
    decreases |text| - i
  {
    if i < |text| && text[i] != '\n' {
      RunHasNoLf(text, i + 1);
    }
  }

  /** How many lines both sides start with; end with. */
  function StartsAlike(a: seq<string>, b: seq<string>): (n: nat)
    ensures n <= |a| && n <= |b|
  {
    if a != [] && b != [] && a[0] == b[0] then 1 + StartsAlike(a[1..], b[1..]) else 0
  }

  function EndsAlike(a: seq<string>, b: seq<string>): (n: nat)
    ensures n <= |a| && n <= |b|
  {
    if a != [] && b != [] && a[|a| - 1] == b[|b| - 1] then 1 + EndsAlike(a[..|a| - 1], b[..|b| - 1]) else 0
  }

  /** How many lines trimming sets aside. */
  function AlikeAround(a: seq<string>, b: seq<string>): nat {
    var p := StartsAlike(a, b);
    p + EndsAlike(a[p..], b[p..])
  }

  /** The table the trimmed middle would need. */
  function TableCells(a: seq<string>, b: seq<string>): int {
    var p := StartsAlike(a, b);
    var s := EndsAlike(a[p..], b[p..]);
    (|a| - p - s + 1) * (|b| - p - s + 1)
  }

  method CommonPrefix(a: seq<string>, b: seq<string>) returns (prefix: nat)
    ensures prefix == StartsAlike(a, b) && a[..prefix] == b[..prefix]
  {
    prefix := 0;
    while prefix < |a| && prefix < |b| && a[prefix] == b[prefix]
      invariant prefix <= |a| && prefix <= |b| && a[..prefix] == b[..prefix]
      invariant StartsAlike(a, b) == prefix + StartsAlike(a[prefix..], b[prefix..])
    {
      assert a[..prefix + 1] == a[..prefix] + [a[prefix]] && b[..prefix + 1] == b[..prefix] + [b[prefix]];
      DropTwice(a, prefix, 1);
      DropTwice(b, prefix, 1);
      prefix := prefix + 1;
    }
  }

  lemma EndsStep(x: seq<string>, y: seq<string>, k: nat)
    requires k <= |x| && k <= |y|
    ensures k < |x| && k < |y| && x[|x| - 1 - k] == y[|y| - 1 - k]
        ==> EndsAlike(x[..|x| - k], y[..|y| - k]) == 1 + EndsAlike(x[..|x| - k - 1], y[..|y| - k - 1])
    ensures !(k < |x| && k < |y| && x[|x| - 1 - k] == y[|y| - 1 - k]) ==> EndsAlike(x[..|x| - k], y[..|y| - k]) == 0
  {
    if k < |x| && k < |y| {
      assert x[..|x| - k][..|x| - k - 1] == x[..|x| - k - 1];
      assert y[..|y| - k][..|y| - k - 1] == y[..|y| - k - 1];
    }
  }

  lemma SuffixStep(a: seq<string>, b: seq<string>, k: nat)
    requires k < |a| && k < |b| && a[|a| - 1 - k] == b[|b| - 1 - k] && a[|a| - k..] == b[|b| - k..]
    ensures a[|a| - k - 1..] == b[|b| - k - 1..]
  {
    Around(a, |a| - 1 - k);
    Around(b, |b| - 1 - k);
  }

  method CommonSuffix(a: seq<string>, b: seq<string>, prefix: nat) returns (suffix: nat)
    requires prefix <= |a| && prefix <= |b|
    ensures suffix == EndsAlike(a[prefix..], b[prefix..]) && a[|a| - suffix..] == b[|b| - suffix..]
  {
    hide EndsAlike;
    suffix := 0;
    ghost var x, y := a[prefix..], b[prefix..];
    assert x[..|x|] == x && y[..|y|] == y;
    while suffix < |a| - prefix && suffix < |b| - prefix && a[|a| - 1 - suffix] == b[|b| - 1 - suffix]
      invariant suffix <= |x| && suffix <= |y| && a[|a| - suffix..] == b[|b| - suffix..]
      invariant EndsAlike(x, y) == suffix + EndsAlike(x[..|x| - suffix], y[..|y| - suffix])
    {
      SuffixStep(a, b, suffix);
      EndsStep(x, y, suffix);
      suffix := suffix + 1;
    }
    EndsStep(x, y, suffix);
  }

  /** Same lines, a script for the middle, same lines. */
  lemma Sandwich(p: seq<string>, m: seq<DiffLine>, ma: seq<string>, mb: seq<string>, s: seq<string>)
    requires IsScript(m, ma, mb)
    ensures var ls := AllLines(Same, p) + m + AllLines(Same, s);
            IsScript(ls, p + ma + s, p + mb + s) && Count(ls, Same) == |p| + Count(m, Same) + |s|
  {
    hide Before, After, Count, AllLines;
    AllLinesIs(Same, p);
    AllLinesIs(Same, s);
    Concat(AllLines(Same, p), m);
    Concat(AllLines(Same, p) + m, AllLines(Same, s));
  }

  lemma SandwichLcs(p: seq<string>, ma: seq<string>, mb: seq<string>, s: seq<string>)
    ensures Lcs(p + ma + s, p + mb + s) == |p| + Lcs(ma, mb) + |s|
  {
    LcsSuffix(p + ma, p + mb, s);
    LcsPrefix(p, ma, mb);
  }

  lemma Replacement(a: seq<string>, b: seq<string>)
    ensures IsScript(AllLines(Del, a) + AllLines(Add, b), a, b)
  {
    hide Before, After, Count, AllLines;
    AllLinesIs(Del, a);
    AllLinesIs(Add, b);
    Concat(AllLines(Del, a), AllLines(Add, b));
    Unit(a);
    Unit(b);
  }

  lemma CutInThree(a: seq<string>, i: nat, j: nat)
    requires i <= j <= |a|
    ensures a == a[..i] + a[i..j] + a[j..]
  {
  }

  /** Keeping the most lines is changing the fewest. */
  lemma FewestChanges(ls: seq<DiffLine>, other: seq<DiffLine>, a: seq<string>, b: seq<string>)
    requires IsScript(ls, a, b) && IsScript(other, a, b) && Count(ls, Same) == Lcs(a, b)
    ensures Count(other, Same) <= Count(ls, Same)
    ensures Count(ls, Add) + Count(ls, Del) <= Count(other, Add) + Count(other, Del)
  {
    ScriptBound(other, a, b);
    Balance(ls);
    Balance(other);
  }

  predicate Smallest(ls: seq<DiffLine>, other: seq<DiffLine>) {
    Count(other, Same) <= Count(ls, Same) && Count(ls, Add) + Count(ls, Del) <= Count(other, Add) + Count(other, Del)
  }

  method Finish(lines: seq<DiffLine>, truncated: bool) returns (r: DiffResult)
    requires Bare(lines) && RemovedFirst(lines)
    ensures NumberedRight(r.lines) && RemovedFirst(r.lines)
    ensures Before(r.lines) == Before(lines) && After(r.lines) == After(lines) && forall op :: Count(r.lines, op) == Count(lines, op)
    ensures r.added == Count(lines, Add) && r.removed == Count(lines, Del) && r.truncated == truncated
    ensures LeftLines(r.lines) == Enumerate(Before(lines), 1) && RightLines(r.lines) == Enumerate(After(lines), 1)
  {
    var numbered := Number(lines);
    NumberingCounts(lines, 0, 0);
    NumberingMarks(lines, 0, 0);
    r := DiffResult(numbered, Count(lines, Add), Count(lines, Del), truncated);
  }

  /** Trims what both sides start and end with and aligns the middle, or replaces a middle too large to align. */
  method TrimAndAlign(a: seq<string>, b: seq<string>) returns (lines: seq<DiffLine>, truncated: bool)
    ensures IsScript(lines, a, b) && truncated == (TableCells(a, b) > MAX_TABLE_CELLS)
    ensures !truncated ==> Count(lines, Same) == Lcs(a, b)
    ensures truncated ==> Count(lines, Same) == AlikeAround(a, b)
    ensures Bare(lines) && RemovedFirst(lines)
  {
    hide Before, After, Count, Lcs, AllLines, StartsAlike, EndsAlike, Bare, RemovedFirst;
    var prefix := CommonPrefix(a, b);
    var suffix := CommonSuffix(a, b, prefix);
    var middleA, middleB := a[prefix..|a| - suffix], b[prefix..|b| - suffix];
    var head, tail := AllLines(Same, a[..prefix]), AllLines(Same, a[|a| - suffix..]);
    CutInThree(a, prefix, |a| - suffix);
    CutInThree(b, prefix, |b| - suffix);
    SandwichLcs(a[..prefix], middleA, middleB, a[|a| - suffix..]);
    var middle;
    truncated := (|middleA| + 1) * (|middleB| + 1) > MAX_TABLE_CELLS;
    if truncated {
      Replacement(middleA, middleB);
      ReplacementOrder(middleA, middleB);
      middle := AllLines(Del, middleA) + AllLines(Add, middleB);
    } else {
      TableFits(|middleA|, |middleB|);
      middle := Align(middleA, middleB);
      AlignedIsScript(middleA, middleB);
      AlignedRemovesFirst(middleA, middleB);
    }
    SandwichOrder(a[..prefix], middle, a[|a| - suffix..]);
    Sandwich(a[..prefix], middle, middleA, middleB, a[|a| - suffix..]);
    lines := head + middle + tail;
  }

  /**
    A numbered script between the lines of two texts, which rebuilds both, removed lines before
    added ones; if it is not truncated, no script keeps more lines or changes fewer, and if it
    is, it keeps what trimming set aside, or nothing of texts that are too long.
  */
  method DiffLines(before: string, after: string, byteLength: string -> nat) returns (r: DiffResult)
    ensures IsScript(r.lines, SplitText(before), SplitText(after))
    ensures Join(Before(r.lines), "\n") == before && Join(After(r.lines), "\n") == after
    ensures LeftLines(r.lines) == Enumerate(SplitText(before), 1) && RightLines(r.lines) == Enumerate(SplitText(after), 1)
    ensures r.added == Count(r.lines, Add) && r.removed == Count(r.lines, Del)
    ensures r.truncated <==> byteLength(before) > MAX_BYTES || byteLength(after) > MAX_BYTES ||
                             TableCells(SplitText(before), SplitText(after)) > MAX_TABLE_CELLS
    ensures !r.truncated ==> forall other :: IsScript(other, SplitText(before), SplitText(after)) ==> Smallest(r.lines, other)
    ensures r.truncated ==> Count(r.lines, Same) == if byteLength(before) > MAX_BYTES || byteLength(after) > MAX_BYTES then 0
                                                    else AlikeAround(SplitText(before), SplitText(after))
    ensures NumberedRight(r.lines) && RemovedFirst(r.lines)
  {
    hide Before, After, Count, LeftLines, RightLines, Lcs, Enumerate, AllLines, Lines, Join, TableCells, NumberedRight, RemovedFirst, Bare;
    var a, b := SplitText(before), SplitText(after);
    SplitTextRoundTrip(before);
    SplitTextRoundTrip(after);
    var lines, truncated;
    if byteLength(before) > MAX_BYTES || byteLength(after) > MAX_BYTES {
      Replacement(a, b);
      ReplacementOrder(a, b);
      lines, truncated := AllLines(Del, a) + AllLines(Add, b), true;
    } else {
      lines, truncated := TrimAndAlign(a, b);
    }
    r := Finish(lines, truncated);
    if !truncated {
      forall other | IsScript(other, a, b)
        ensures Smallest(r.lines, other)
      {
        FewestChanges(r.lines, other, a, b);
      }
    }
  }

  lemma TableFits(n: nat, m: nat)
    requires (n + 1) * (m + 1) <= MAX_TABLE_CELLS
    ensures n < 0x1_0000_0000
  {
    assert (n + 1) * (m + 1) >= n + 1;
  }
}
