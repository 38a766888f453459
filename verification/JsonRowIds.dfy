/**
  The ids of the visible rows are pairwise different, whatever the keys are, so a toggle acts on
  one container.

  A node's id is its route of indexes from the root; a closing bracket's is the bracket and its
  line.  The ids of a node's rows all continue its own id after a dot, or are closing ids of its
  lines.
*/
module JsonRowIds {
  import opened Decimals
  import opened JsonSyntax
  import opened JsonRows

  /** The id of the node itself or of one inside it. */
  predicate Within(id: string, base: string) {
    id == base || base + "." <= id
  }

  predicate IsCloseId(row: Row) {
    row.id == "}" + Decimal(row.line) || row.id == "]" + Decimal(row.line)
  }

  /** A row of the node with id `base` that occupies lines `from` up to `to`. */
  ghost predicate RowOf(row: Row, base: string, from: nat, to: nat) {
    from <= row.line < to && (Within(row.id, base) || IsCloseId(row)) && (row.toggle.Some? ==> row.toggle.value.id == row.id)
  }

  ghost predicate RowsOf(rows: seq<Row>, base: string, from: nat, to: nat) {
    forall i :: 0 <= i < |rows| ==> RowOf(rows[i], base, from, to)
  }

  ghost predicate IdsDiffer(rows: seq<Row>) {
    forall i, j :: 0 <= i < j < |rows| ==> rows[i].id != rows[j].id
  }

  /** Ids of nodes begin with the root's sign, closing ids do not. */
  predicate IsNodeId(id: string) {
    id != "" && id[0] == '$'
  }

  // ---- ids apart ---------------------------------------------------------------------------------------------------

  lemma CloseIdsApart(a: Row, b: Row)
    requires IsCloseId(a) && IsCloseId(b) && a.line != b.line
    ensures a.id != b.id
  {
    if a.id == b.id {
      assert Decimal(a.line) == a.id[1..] == b.id[1..] == Decimal(b.line);
      DecimalInjective(a.line, b.line);
    }
  }

  lemma NodeNotClose(a: Row, b: Row, base: string)
    requires IsNodeId(base) && Within(a.id, base) && IsCloseId(b)
    ensures a.id != b.id
  {
    hide Decimal;
    assert a.id[0] == base[0];
    assert b.id[0] == '}' || b.id[0] == ']';
  }

  function ChildId(base: string, i: nat): string {
    base + "." + Decimal(i)
  }

  lemma ChildInside(base: string, i: nat, id: string)
    requires IsNodeId(base) && Within(id, ChildId(base, i))
    ensures IsNodeId(ChildId(base, i)) && Within(id, base) && id != base
  {
    var d := base + ".";
    assert d <= ChildId(base, i);
    if id != ChildId(base, i) {
      var p := ChildId(base, i) + ".";
      assert d == p[..|d|] == id[..|d|];
    }
  }

  /** What follows the index in an id is nothing or begins with a dot, and an index has no dot. */
  lemma ChildrenApart(base: string, i: nat, j: nat, id: string)
    requires Within(id, ChildId(base, i)) && Within(id, ChildId(base, j))
    ensures i == j
  {
    hide Decimal;
    NoDot(i);
    NoDot(j);
    Tails(base, i, id);
    Tails(base, j, id);
    UpToDot(id[|base| + 1..], Decimal(i), Decimal(j));
    DecimalInjective(i, j);
  }

  lemma UpToDot(s: string, x: string, y: string)
    requires |x| <= |s| && s[..|x|] == x && (|s| > |x| ==> s[|x|] == '.') && '.' !in x
    requires |y| <= |s| && s[..|y|] == y && (|s| > |y| ==> s[|y|] == '.') && '.' !in y
    ensures x == y
  {
    assert forall k :: 0 <= k < |x| ==> s[k] == x[k];
    assert forall k :: 0 <= k < |y| ==> s[k] == y[k];
  }

  lemma NoDot(i: nat)
    ensures '.' !in Decimal(i)
  {
    DecimalRoundTrip(i);
  }

  lemma Tails(base: string, i: nat, id: string)
    requires Within(id, ChildId(base, i))
    ensures var d, x := |base| + 1, Decimal(i);
            d + |x| <= |id| && id[d..][..|x|] == x && (|id| > d + |x| ==> id[d..][|x|] == '.')
  {
    hide Decimal;
    var c := ChildId(base, i);
    assert c[|base| + 1..] == Decimal(i);
    if id != c {
      assert (c + ".")[|c|] == '.' && id[|c|] == '.' && id[..|c|] == c;
    }
  }

  // ---- concatenation ---------------------------------------------------------------------------------------------------

  lemma DifferConcat(a: seq<Row>, b: seq<Row>)
    requires IdsDiffer(a) && IdsDiffer(b)
    requires forall i, j :: 0 <= i < |a| && 0 <= j < |b| ==> a[i].id != b[j].id
    ensures IdsDiffer(a + b)
  {
  }

  // ---- the rows of a node ---------------------------------------------------------------------------------------------

  /** A row of one of the first `k` children. */
  ghost predicate ChildRow(row: Row, base: string, k: nat, from: nat, to: nat) {
    exists i: nat :: i < k && RowOf(row, ChildId(base, i), from, to)
  }

  ghost predicate RowsOfChildren(rows: seq<Row>, base: string, k: nat, from: nat, to: nat) {
    forall i :: 0 <= i < |rows| ==> ChildRow(rows[i], base, k, from, to)
  }

  lemma RowsApart(a: Row, i: nat, b: Row, j: nat, base: string, from: nat, mid: nat, to: nat)
    requires IsNodeId(base) && i != j && RowOf(a, ChildId(base, i), from, mid) && RowOf(b, ChildId(base, j), mid, to)
    ensures a.id != b.id
  {
    hide Within, IsCloseId;
    assert IsNodeId(ChildId(base, i)) && IsNodeId(ChildId(base, j));
    if IsCloseId(a) && IsCloseId(b) {
      CloseIdsApart(a, b);
    } else if IsCloseId(a) {
      NodeNotClose(b, a, ChildId(base, j));
    } else if IsCloseId(b) {
      NodeNotClose(a, b, ChildId(base, i));
    } else if a.id == b.id {
      ChildrenApart(base, i, j, a.id);
    }
  }

  /** The rows of one child more. */
  lemma MoreChildren(rows: seq<Row>, more: seq<Row>, base: string, k: nat, from: nat, mid: nat, to: nat)
    requires IsNodeId(base) && from <= mid <= to
    requires RowsOfChildren(rows, base, k, from, mid) && IdsDiffer(rows)
    requires RowsOf(more, ChildId(base, k), mid, to) && IdsDiffer(more)
    ensures RowsOfChildren(rows + more, base, k + 1, from, to) && IdsDiffer(rows + more)
  {
    hide RowOf;
    forall i | 0 <= i < |rows + more|
      ensures ChildRow((rows + more)[i], base, k + 1, from, to)
    {
      if i < |rows| {
        assert ChildRow(rows[i], base, k, from, mid);
        var c: nat :| c < k && RowOf(rows[i], ChildId(base, c), from, mid);
        Wider(rows[i], ChildId(base, c), from, mid, from, to);
      } else {
        Wider(more[i - |rows|], ChildId(base, k), mid, to, from, to);
      }
    }
    forall i, j | 0 <= i < |rows| && 0 <= j < |more|
      ensures rows[i].id != more[j].id
    {
      assert ChildRow(rows[i], base, k, from, mid);
      var c: nat :| c < k && RowOf(rows[i], ChildId(base, c), from, mid);
      RowsApart(rows[i], c, more[j], k, base, from, mid, to);
    }
    DifferConcat(rows, more);
  }

  lemma Wider(row: Row, base: string, from: nat, to: nat, from': nat, to': nat)
    requires RowOf(row, base, from, to) && from' <= from && to <= to'
    ensures RowOf(row, base, from', to')
  {
    hide Within, IsCloseId;
  }

  /** The rows of an open container: its first row, those of its children, and the closing one. */
  lemma OpenIds(open: Row, rows: seq<Row>, close: Row, base: string, k: nat, line: nat, end: nat)
    requires IsNodeId(base) && open.id == base && open.line == line && (open.toggle.Some? ==> open.toggle.value.id == base)
    requires line + 1 <= end && RowsOfChildren(rows, base, k, line + 1, end) && IdsDiffer(rows)
    requires close.line == end && IsCloseId(close) && close.toggle.None?
    ensures RowsOf([open] + rows + [close], base, line, end + 1) && IdsDiffer([open] + rows + [close])
  {
    hide IsCloseId, Decimal;
    var all := [open] + rows + [close];
    forall i | 0 <= i < |rows|
      ensures RowOf(rows[i], base, line, end + 1) && rows[i].id != base && rows[i].id != close.id
    {
      InnerRow(rows[i], close, base, k, line, end);
    }
    NodeNotClose(open, close, base);
    DifferConcat([open], rows);
    DifferConcat([open] + rows, [close]);
    hide RowOf;
    assert RowOf(open, base, line, end + 1) && RowOf(close, base, line, end + 1) by { EdgeRows(open, close, base, line, end); }
  }

  lemma EdgeRows(open: Row, close: Row, base: string, line: nat, end: nat)
    requires open.id == base && open.line == line && (open.toggle.Some? ==> open.toggle.value.id == base)
    requires line + 1 <= end && close.line == end && IsCloseId(close) && close.toggle.None?
    ensures RowOf(open, base, line, end + 1) && RowOf(close, base, line, end + 1)
  {
    hide IsCloseId;
  }

  lemma InnerRow(row: Row, close: Row, base: string, k: nat, line: nat, end: nat)
    requires IsNodeId(base) && ChildRow(row, base, k, line + 1, end) && close.line == end && IsCloseId(close)
    ensures RowOf(row, base, line, end + 1) && row.id != base && row.id != close.id
  {
    hide IsCloseId, Decimal, Within;
    var c: nat :| c < k && RowOf(row, ChildId(base, c), line + 1, end);
    if IsCloseId(row) {
      CloseIdsApart(row, close);
      NodeItself(base);
      NodeNotClose(row.(id := base), row, base);
    } else {
      ChildInside(base, c, row.id);
      NodeNotClose(row, close, base);
    }
  }

  lemma NodeItself(base: string)
    ensures Within(base, base)
  {
  }

  /** The rows of a node have its lines, ids of its own, and no id twice. */
  lemma {:induction false} NodeIds(w: Work, line: nat, collapsed: set<string>, unquote: string -> string)
    requires w.NodeWork? && IsNodeId(w.id)
    ensures var rows := WorkRows(w, line, collapsed, unquote);
            RowsOf(rows, w.id, line, line + Span(w.node)) && IdsDiffer(rows)
    decreases w.node, 1
  {
    hide IsCloseId, Decimal;
    if Folds(w.node) && w.id !in collapsed {
      var es := w.node.entries;
      var end := line + 1 + SpanEntries(es);
      var close := CloseRow(CloseOf(w), end);
      Closes(CloseOf(w), end);
      assert Span(w.node) == 2 + SpanEntries(es);
      OpenRows(w, line, collapsed, unquote);
      var open := OpenRow(w, line);
      assert open.id == w.id && open.line == line && (open.toggle.Some? ==> open.toggle.value.id == w.id);
      assert es[..|es|] == es;
      hide WorkRows, ChildRows, OpenRow, CloseRow, SpanEntries, Span, RowsOf, IdsDiffer, RowsOfChildren;
      ChildIds(w, |es|, line + 1, collapsed, unquote);
      OpenIds(open, ChildRows(w, |es|, line + 1, collapsed, unquote), close, w.id, |es|, line, end);
    }
  }

  lemma Closes(w: Work, line: nat)
    requires w.CloseWork?
    ensures var row := CloseRow(w, line); IsCloseId(row) && row.line == line && row.toggle.None?
  {
    hide Decimal;
  }

  lemma {:induction false} ChildIds(w: Work, k: nat, line: nat, collapsed: set<string>, unquote: string -> string)
    requires w.NodeWork? && w.node.Container? && k <= |w.node.entries| && IsNodeId(w.id)
    ensures var rows := ChildRows(w, k, line, collapsed, unquote);
            RowsOfChildren(rows, w.id, k, line, line + SpanEntries(w.node.entries[..k])) && IdsDiffer(rows)
    decreases w.node, 0, k
  {
    hide WorkRows, ChildRows, IsCloseId, Decimal, SpanEntries, Span, RowsOf, IdsDiffer, RowsOfChildren, ChildWork, ChildId;
    if k == 0 {
      NoChildIds(w, line, collapsed, unquote);
    } else {
      var es := w.node.entries;
      var c, at := ChildWork(w, k - 1, unquote), line + SpanEntries(es[..k - 1]);
      LastChild(w, k, line, collapsed, unquote);
      ChildIs(w, k - 1, unquote);
      ChildIds(w, k - 1, line, collapsed, unquote);
      NodeIds(c, at, collapsed, unquote);
      SpanNext(es, k - 1);
      MoreChildren(ChildRows(w, k - 1, line, collapsed, unquote), WorkRows(c, at, collapsed, unquote), w.id, k - 1, line, at, at + Span(c.node));
    }
  }

  lemma NoChildIds(w: Work, line: nat, collapsed: set<string>, unquote: string -> string)
    requires w.NodeWork? && w.node.Container?
    ensures ChildRows(w, 0, line, collapsed, unquote) == [] && RowsOfChildren([], w.id, 0, line, line) && IdsDiffer([])
    ensures SpanEntries(w.node.entries[..0]) == 0
  {
  }

  lemma LastChild(w: Work, k: nat, line: nat, collapsed: set<string>, unquote: string -> string)
    requires w.NodeWork? && w.node.Container? && 0 < k <= |w.node.entries| && IsNodeId(w.id)
    ensures var c := ChildWork(w, k - 1, unquote);
            c.NodeWork? && c.id == ChildId(w.id, k - 1) && IsNodeId(c.id) &&
            ChildRows(w, k, line, collapsed, unquote) ==
            ChildRows(w, k - 1, line, collapsed, unquote) + WorkRows(c, line + SpanEntries(w.node.entries[..k - 1]), collapsed, unquote)
  {
    hide WorkRows, Decimal, SpanEntries;
  }

  /** For any collapsed set, no two visible rows have the same id, and a toggle has the id of its row. */
  lemma RowIdsDiffer(root: Node, collapsed: set<string>, unquote: string -> string)
    ensures var rows := DocumentRows(root, collapsed, unquote);
            IdsDiffer(rows) && forall i :: 0 <= i < |rows| && rows[i].toggle.Some? ==> rows[i].toggle.value.id == rows[i].id
  {
    hide WorkRows, Within, IsCloseId, Span, IdsDiffer;
    NodeIds(RootWork(root), 1, collapsed, unquote);
  }
}
