/**
  Folding keeps line numbers stable: for any set of collapsed ids, the visible rows are the
  rows of the expanded view with every line inside a collapsed container left out, and the
  first line of a collapsed container replaced by its summary.
*/
module JsonFold {
  import opened JsonLex
  import opened JsonSyntax
  import opened JsonRows

  /** A container that can be collapsed, and the line it starts on when everything is expanded. */
  datatype Fold = Fold(work: Work, line: nat)

  /** Every container under a work item, collapsed or not, in document order. */
  function AllFolds(w: Work, line: nat, unquote: string -> string): seq<Fold>
    decreases if w.NodeWork? then 1 else 0, if w.NodeWork? then w.node else Scalar(Ws, ""), 2
  {
    if w.CloseWork? || !Folds(w.node) then []
    else [Fold(w, line)] + ChildFolds(w, |w.node.entries|, line + 1, unquote)
  }

  function ChildFolds(w: Work, k: nat, line: nat, unquote: string -> string): seq<Fold>
    requires w.NodeWork? && w.node.Container? && k <= |w.node.entries|
    decreases 1, w.node, 1, k
  {
    if k == 0 then []
    else
      assert w.node.entries[k - 1].node < w.node.entries[k - 1];
      ChildFolds(w, k - 1, line, unquote) +
      AllFolds(ChildWork(w, k - 1, unquote), line + SpanEntries(w.node.entries[..k - 1]), unquote)
  }

  ghost predicate ValidFolds(fs: seq<Fold>) {
    forall i :: 0 <= i < |fs| ==> fs[i].work.NodeWork? && Folds(fs[i].work.node)
  }

  function FoldEnd(f: Fold): nat {
    f.line + WorkSpan(f.work)
  }

  /** A collapsed container strictly contains the line. */
  predicate Hides(f: Fold, collapsed: set<string>, line: nat) {
    f.work.NodeWork? && f.work.id in collapsed && f.line < line < FoldEnd(f)
  }

  predicate Hidden(fs: seq<Fold>, collapsed: set<string>, line: nat) {
    exists i :: 0 <= i < |fs| && Hides(fs[i], collapsed, line)
  }

  predicate StartsAt(f: Fold, collapsed: set<string>, line: nat) {
    f.work.NodeWork? && Folds(f.work.node) && f.work.id in collapsed && f.line == line
  }

  /** The collapsed container that starts on the line, if any. */
  function CollapsedAt(fs: seq<Fold>, collapsed: set<string>, line: nat): (r: Option<Fold>)
    ensures r.Some? ==> StartsAt(r.value, collapsed, line)
  {
    if fs == [] then None
    else if StartsAt(fs[0], collapsed, line) then Some(fs[0])
    else CollapsedAt(fs[1..], collapsed, line)
  }

  /** What becomes of one row of the expanded view. */
  function ShowRow(row: Row, fs: seq<Fold>, collapsed: set<string>): seq<Row> {
    if Hidden(fs, collapsed, row.line) then []
    else
      var f := CollapsedAt(fs, collapsed, row.line);
      if f.Some? then [SummaryRow(f.value.work, row.line)] else [row]
  }

  function Shown(rows: seq<Row>, fs: seq<Fold>, collapsed: set<string>): seq<Row> {
    if rows == [] then [] else ShowRow(rows[0], fs, collapsed) + Shown(rows[1..], fs, collapsed)
  }

  // ---- folds act on their own lines only ------------------------------------------------------------

  ghost predicate Within(fs: seq<Fold>, lo: nat, hi: nat) {
    forall i :: 0 <= i < |fs| ==> lo <= fs[i].line && FoldEnd(fs[i]) <= hi
  }

  ghost predicate Irrelevant(fs: seq<Fold>, collapsed: set<string>, lo: nat, hi: nat) {
    forall i :: 0 <= i < |fs| ==>
      FoldEnd(fs[i]) <= lo || hi <= fs[i].line || (fs[i].work.NodeWork? && fs[i].work.id !in collapsed)
  }

  ghost predicate LinesIn(rows: seq<Row>, lo: nat, hi: nat) {
    forall i :: 0 <= i < |rows| ==> lo <= rows[i].line < hi
  }

  lemma {:induction false} CollapsedAtSkip(a: seq<Fold>, b: seq<Fold>, c: seq<Fold>, collapsed: set<string>, line: nat)
    requires forall i :: 0 <= i < |a| ==> !StartsAt(a[i], collapsed, line)
    requires forall i :: 0 <= i < |c| ==> !StartsAt(c[i], collapsed, line)
    ensures CollapsedAt(a + b + c, collapsed, line) == CollapsedAt(b, collapsed, line)
    decreases |a|, |b|, |c|
  {
    hide StartsAt;
    if a != [] {
      assert (a + b + c)[1..] == a[1..] + b + c;
      CollapsedAtSkip(a[1..], b, c, collapsed, line);
    } else if b != [] {
      assert a + b + c == b + c && (b + c)[1..] == a + b[1..] + c;
      CollapsedAtSkip(a, b[1..], c, collapsed, line);
    } else if c != [] {
      assert a + b + c == c && c[1..] == a + b + c[1..];
      CollapsedAtSkip(a, b, c[1..], collapsed, line);
    }
  }

  lemma ShowRowLocal(row: Row, a: seq<Fold>, b: seq<Fold>, c: seq<Fold>, collapsed: set<string>, lo: nat, hi: nat)
    requires lo <= row.line < hi && Irrelevant(a, collapsed, lo, hi) && Irrelevant(c, collapsed, lo, hi)
    ensures ShowRow(row, a + b + c, collapsed) == ShowRow(row, b, collapsed)
  {
    var all := a + b + c;
    CollapsedAtSkip(a, b, c, collapsed, row.line);
    if Hidden(all, collapsed, row.line) {
      var i :| 0 <= i < |all| && Hides(all[i], collapsed, row.line);
      assert all[i] == b[i - |a|];
    }
    if Hidden(b, collapsed, row.line) {
      var i :| 0 <= i < |b| && Hides(b[i], collapsed, row.line);
      assert all[|a| + i] == b[i];
    }
  }

  lemma {:induction false} ShownLocal(rows: seq<Row>, a: seq<Fold>, b: seq<Fold>, c: seq<Fold>, collapsed: set<string>, lo: nat, hi: nat)
    requires LinesIn(rows, lo, hi) && Irrelevant(a, collapsed, lo, hi) && Irrelevant(c, collapsed, lo, hi)
    ensures Shown(rows, a + b + c, collapsed) == Shown(rows, b, collapsed)
  {
    if rows != [] {
      hide ShowRow, Irrelevant;
      ShowRowLocal(rows[0], a, b, c, collapsed, lo, hi);
      ShownLocal(rows[1..], a, b, c, collapsed, lo, hi);
    }
  }

  lemma {:induction false} ShownConcat(a: seq<Row>, b: seq<Row>, fs: seq<Fold>, collapsed: set<string>)
    ensures Shown(a + b, fs, collapsed) == Shown(a, fs, collapsed) + Shown(b, fs, collapsed)
  {
    hide ShowRow;
    if a == [] {
      assert a + b == b;
    } else {
      ShownConcat(a[1..], b, fs, collapsed);
      assert (a + b)[1..] == a[1..] + b;
    }
  }

  lemma {:induction false} FoldsWithin(w: Work, line: nat, unquote: string -> string)
    ensures Within(AllFolds(w, line, unquote), line, line + WorkSpan(w)) && ValidFolds(AllFolds(w, line, unquote))
    decreases if w.NodeWork? then 1 else 0, if w.NodeWork? then w.node else Scalar(Ws, ""), 2
  {
    if w.NodeWork? && Folds(w.node) {
      ChildFoldsWithin(w, |w.node.entries|, line + 1, unquote);
      assert w.node.entries[..|w.node.entries|] == w.node.entries;
    }
  }

  lemma {:induction false} ChildFoldsWithin(w: Work, k: nat, line: nat, unquote: string -> string)
    requires w.NodeWork? && w.node.Container? && k <= |w.node.entries|
    ensures Within(ChildFolds(w, k, line, unquote), line, line + SpanEntries(w.node.entries[..k]))
    ensures ValidFolds(ChildFolds(w, k, line, unquote))
    decreases 1, w.node, 1, k
  {
    if k > 0 {
      hide AllFolds, Within, ValidFolds, SpanEntries, Span, ChildWork;
      var es := w.node.entries;
      ChildIs(w, k - 1, unquote);
      var at := line + SpanEntries(es[..k - 1]);
      var c := ChildWork(w, k - 1, unquote);
      ChildFoldsWithin(w, k - 1, line, unquote);
      FoldsWithin(c, at, unquote);
      SpanNext(es, k - 1);
      WithinConcat(ChildFolds(w, k - 1, line, unquote), AllFolds(c, at, unquote), line, at, at + WorkSpan(c));
    } else {
      NothingWithin(w.node.entries, line);
    }
  }

  lemma NothingWithin(es: seq<Entry>, line: nat)
    ensures Within([], line, line) && ValidFolds([]) && SpanEntries(es[..0]) == 0
  {
  }

  lemma WithinConcat(a: seq<Fold>, b: seq<Fold>, lo: nat, mid: nat, hi: nat)
    requires lo <= mid <= hi && Within(a, lo, mid) && Within(b, mid, hi) && ValidFolds(a) && ValidFolds(b)
    ensures Within(a + b, lo, hi) && ValidFolds(a + b)
  {
  }

  lemma WithinIrrelevant(fs: seq<Fold>, lo: nat, hi: nat, collapsed: set<string>, from: nat, to: nat)
    requires Within(fs, lo, hi) && (hi <= from || to <= lo)
    ensures Irrelevant(fs, collapsed, from, to)
  {
  }

  lemma NumberedLines(rows: seq<Row>, line: nat)
    requires Numbered(rows, line)
    ensures LinesIn(rows, line, line + |rows|)
  {
  }

  // ---- folding ---------------------------------------------------------------------------------------

  lemma {:induction false} AllHidden(rows: seq<Row>, fs: seq<Fold>, collapsed: set<string>)
    requires forall i :: 0 <= i < |rows| ==> Hidden(fs, collapsed, rows[i].line)
    ensures Shown(rows, fs, collapsed) == []
  {
    if rows != [] {
      hide Hidden;
      AllHidden(rows[1..], fs, collapsed);
    }
  }

  lemma FoldCollapsed(w: Work, line: nat, collapsed: set<string>, unquote: string -> string)
    requires w.NodeWork? && Folds(w.node) && w.id in collapsed
    ensures Shown(WorkRows(w, line, {}, unquote), AllFolds(w, line, unquote), collapsed) == [SummaryRow(w, line)]
  {
    hide WorkRows, SummaryRow, WorkSpan;
    var rows, fs := WorkRows(w, line, {}, unquote), AllFolds(w, line, unquote);
    ExpandedWork(w, line, unquote);
    WorkSpanIs(w);
    ChildFoldsWithin(w, |w.node.entries|, line + 1, unquote);
    assert fs[0] == Fold(w, line);
    assert forall i :: 0 < i < |fs| ==> fs[i] == ChildFolds(w, |w.node.entries|, line + 1, unquote)[i - 1];
    assert !Hidden(fs, collapsed, line);
    assert ShowRow(rows[0], fs, collapsed) == [SummaryRow(w, line)];
    forall i | 0 <= i < |rows[1..]|
      ensures Hidden(fs, collapsed, rows[1..][i].line)
    {
      assert rows[1..][i].line == line + i + 1;
      assert Hides(fs[0], collapsed, line + i + 1);
    }
    AllHidden(rows[1..], fs, collapsed);
  }

  lemma WorkSpanIs(w: Work)
    requires w.NodeWork?
    ensures WorkSpan(w) == Span(w.node)
  {
  }

  /** A row on a line where no fold starts and which no fold covers stays. */
  lemma RowStays(row: Row, own: Fold, fs: seq<Fold>, collapsed: set<string>, lo: nat, hi: nat)
    requires own.work.NodeWork? && own.work.id !in collapsed
    requires Within(fs, lo, hi) && (row.line < lo || hi <= row.line)
    ensures Shown([row], [own] + fs, collapsed) == [row]
  {
    hide Shown, FoldEnd, ShowRow;
    ShownLocal([row], [own] + fs, [], [], collapsed, row.line, row.line + 1);
    assert [own] + fs + [] + [] == [own] + fs;
    ShownAlone(row, collapsed);
  }

  lemma ShownAlone(row: Row, collapsed: set<string>)
    ensures Shown([row], [], collapsed) == [row]
  {
    assert Shown([row][1..], [], collapsed) == [];
    assert ShowRow(row, [], collapsed) == [row];
  }

  lemma {:induction false} FoldWork(w: Work, line: nat, collapsed: set<string>, unquote: string -> string)
    ensures WorkRows(w, line, collapsed, unquote)
         == Shown(WorkRows(w, line, {}, unquote), AllFolds(w, line, unquote), collapsed)
    decreases if w.NodeWork? then 1 else 0, if w.NodeWork? then w.node else Scalar(Ws, ""), 2
  {
    if w.CloseWork? || !Folds(w.node) {
      hide Shown, OpenRow, CloseRow;
      ShownAlone(WorkRows(w, line, {}, unquote)[0], collapsed);
    } else if w.id in collapsed {
      FoldCollapsed(w, line, collapsed, unquote);
    } else {
      hide WorkRows, ChildRows, ChildFolds, Shown, OpenRow, CloseRow;
      FoldChildren(w, |w.node.entries|, line + 1, collapsed, unquote);
      FoldOpen(w, line, collapsed, unquote);
    }
  }

  lemma FoldOpen(w: Work, line: nat, collapsed: set<string>, unquote: string -> string)
    requires w.NodeWork? && Folds(w.node) && w.id !in collapsed
    requires ChildRows(w, |w.node.entries|, line + 1, collapsed, unquote)
          == Shown(ChildRows(w, |w.node.entries|, line + 1, {}, unquote),
                   ChildFolds(w, |w.node.entries|, line + 1, unquote), collapsed)
    ensures WorkRows(w, line, collapsed, unquote)
         == Shown(WorkRows(w, line, {}, unquote), AllFolds(w, line, unquote), collapsed)
  {
    hide WorkRows, ChildRows, ChildFolds, Shown, OpenRow, CloseRow, Within, LinesIn, Numbered, Irrelevant, SpanEntries;
    var es := w.node.entries;
    var own, end := Fold(w, line), line + 1 + SpanEntries(es);
    var open, close := OpenRow(w, line), CloseRow(CloseOf(w), end);
    var fs := ChildFolds(w, |es|, line + 1, unquote);
    var children := ChildRows(w, |es|, line + 1, {}, unquote);
    OpenRows(w, line, {}, unquote);
    OpenRows(w, line, collapsed, unquote);
    FirstLine(w, line);
    assert es[..|es|] == es;
    ChildFoldsWithin(w, |es|, line + 1, unquote);
    ExpandedChildren(w, |es|, line + 1, unquote);
    NumberedLines(children, line + 1);
    ShownConcat([open] + children, [close], [own] + fs, collapsed);
    ShownConcat([open], children, [own] + fs, collapsed);
    RowStays(open, own, fs, collapsed, line + 1, end);
    RowStays(close, own, fs, collapsed, line + 1, end);
    OwnIrrelevant(own, collapsed, line + 1, end);
    ShownLocal(children, [own], fs, [], collapsed, line + 1, end);
    assert [own] + fs + [] == [own] + fs;
  }

  lemma OwnIrrelevant(own: Fold, collapsed: set<string>, lo: nat, hi: nat)
    requires own.work.NodeWork? && own.work.id !in collapsed
    ensures Irrelevant([own], collapsed, lo, hi) && Irrelevant([], collapsed, lo, hi)
  {
  }

  lemma {:induction false} FoldChildren(w: Work, k: nat, line: nat, collapsed: set<string>, unquote: string -> string)
    requires w.NodeWork? && w.node.Container? && k <= |w.node.entries|
    ensures ChildRows(w, k, line, collapsed, unquote)
         == Shown(ChildRows(w, k, line, {}, unquote), ChildFolds(w, k, line, unquote), collapsed)
    decreases 1, w.node, 1, k
  {
    if k > 0 {
      hide WorkRows, AllFolds, Shown, SpanEntries, Within, Numbered, ValidFolds, Span, ChildWork;
      var es := w.node.entries;
      ChildIs(w, k - 1, unquote);
      var c := ChildWork(w, k - 1, unquote);
      var at := line + SpanEntries(es[..k - 1]);
      FoldChildren(w, k - 1, line, collapsed, unquote);
      FoldWork(c, at, collapsed, unquote);
      FoldChild(w, k - 1, c, line, at, collapsed, unquote);
    }
  }

  lemma FoldChild(w: Work, k: nat, c: Work, line: nat, at: nat, collapsed: set<string>, unquote: string -> string)
    requires w.NodeWork? && w.node.Container? && k < |w.node.entries| && c == ChildWork(w, k, unquote)
    requires at == line + SpanEntries(w.node.entries[..k])
    ensures Shown(ChildRows(w, k, line, {}, unquote) + WorkRows(c, at, {}, unquote),
                  ChildFolds(w, k, line, unquote) + AllFolds(c, at, unquote), collapsed)
         == Shown(ChildRows(w, k, line, {}, unquote), ChildFolds(w, k, line, unquote), collapsed) +
            Shown(WorkRows(c, at, {}, unquote), AllFolds(c, at, unquote), collapsed)
  {
    hide WorkRows, AllFolds, Shown, SpanEntries, Within, Numbered, ValidFolds, Span, ChildWork, ChildRows, ChildFolds;
    ExpandedChildren(w, k, line, unquote);
    ExpandedWork(c, at, unquote);
    ChildFoldsWithin(w, k, line, unquote);
    FoldsWithin(c, at, unquote);
    ShownApart(ChildRows(w, k, line, {}, unquote), WorkRows(c, at, {}, unquote),
               ChildFolds(w, k, line, unquote), AllFolds(c, at, unquote), collapsed, line, at);
  }

  /** Two stretches of lines fold independently. */
  lemma ShownApart(a: seq<Row>, b: seq<Row>, fa: seq<Fold>, fb: seq<Fold>, collapsed: set<string>, line: nat, at: nat)
    requires Numbered(a, line) && line + |a| == at && Numbered(b, at)
    requires Within(fa, line, at) && Within(fb, at, at + |b|)
    ensures Shown(a + b, fa + fb, collapsed) == Shown(a, fa, collapsed) + Shown(b, fb, collapsed)
  {
    hide Shown, Numbered, Within, LinesIn, Irrelevant;
    NumberedLines(a, line);
    NumberedLines(b, at);
    ShownConcat(a, b, fa + fb, collapsed);
    WithinIrrelevant(fb, at, at + |b|, collapsed, line, at);
    WithinIrrelevant(fa, line, at, collapsed, at, at + |b|);
    NoneIrrelevant(collapsed, line, at);
    NoneIrrelevant(collapsed, at, at + |b|);
    ShownLocal(a, [], fa, fb, collapsed, line, at);
    ShownLocal(b, fa, fb, [], collapsed, at, at + |b|);
    assert [] + fa + fb == fa + fb && fa + fb + [] == fa + fb;
  }

  lemma NoneIrrelevant(collapsed: set<string>, lo: nat, hi: nat)
    ensures Irrelevant([], collapsed, lo, hi)
  {
  }

  /** Folding shows the expanded rows minus the interiors of collapsed containers, under the same line numbers. */
  lemma FoldedRows(root: Node, collapsed: set<string>, unquote: string -> string)
    ensures DocumentRows(root, collapsed, unquote)
         == Shown(DocumentRows(root, {}, unquote), AllFolds(RootWork(root), 1, unquote), collapsed)
  {
    FoldWork(RootWork(root), 1, collapsed, unquote);
  }
}
