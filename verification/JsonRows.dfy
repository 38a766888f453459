/**
  The collapsible view of a document: a worklist that prints one row per visible line.

  Three results tie the rows to the document.  Fully expanded they are numbered 1..span
  without gaps (`ExpandedRowsAreNumbered`) and their text is the pretty-printed document
  (`RowsPrintDocument`).  For any set of collapsed ids the visible rows are the expanded
  rows minus the interiors of the collapsed containers, each keeping its line number
  (`FoldedRows`).
*/
module JsonRows {
  import opened Seqs
  import opened Decimals
  import opened JsonLex
  import opened JsonSyntax
  import opened JsonCheck
  import opened JsonPrint
  import opened JsonTree

  datatype Cell = Cell(token: Kind, text: string)

  /** All that a collapsed container shows: its kind and its number of entries. */
  datatype Summary = Summary(isObject: bool, count: nat)

  datatype Toggle = Toggle(id: string, path: string, collapsed: bool)

  datatype Row = Row(id: string, line: nat, depth: nat, key: Option<string>, value: Option<Cell>,
                     summary: Option<Summary>, toggle: Option<Toggle>, comma: bool)

  /** A node still to be printed, or the closing bracket of one whose entries are on the stack above it. */
  datatype Work =
    | NodeWork(node: Node, id: string, path: string, key: Option<string>, depth: nat, comma: bool)
    | CloseWork(isObject: bool, depth: nat, comma: bool)

  /** The label of a child: its decoded key after a dot, or its index in brackets. */
  function ChildPath(path: string, key: Option<string>, index: nat, unquote: string -> string): string {
    if key.None? then path + "[" + Decimal(index) + "]"
    else if path == "" then unquote(key.value)
    else path + "." + unquote(key.value)
  }

  function ChildWork(w: Work, index: nat, unquote: string -> string): Work
    requires w.NodeWork? && w.node.Container? && index < |w.node.entries|
  {
    var e := w.node.entries[index];
    NodeWork(e.node, w.id + "." + Decimal(index), ChildPath(w.path, e.key, index, unquote), e.key, w.depth + 1,
             index + 1 < |w.node.entries|)
  }

  lemma ChildIs(w: Work, index: nat, unquote: string -> string)
    requires w.NodeWork? && w.node.Container? && index < |w.node.entries|
    ensures var c := ChildWork(w, index, unquote); c.NodeWork? && c.node == w.node.entries[index].node
    ensures w.node.entries[index].node < w.node
  {
    assert w.node.entries[index].node < w.node.entries[index];
  }

  // ---- lines a node occupies --------------------------------------------------------------------

  function Span(n: Node): (r: nat)
    ensures r >= 1
    decreases n, 1
  {
    match n
    case Scalar(_, _) => 1
    case Container(_, entries) => if entries == [] then 1 else 2 + SpanEntries(entries)
  }

  function SpanEntries(es: seq<Entry>): nat
    decreases es, 0
  {
    if es == [] then 0 else SpanEntries(es[..|es| - 1]) + SpanEntry(es[|es| - 1])
  }

  function SpanEntry(e: Entry): nat
    decreases e, 0
  {
    Span(e.node)
  }

  function WorkSpan(w: Work): (r: nat)
    ensures r >= 1
  {
    if w.NodeWork? then Span(w.node) else 1
  }

  // ---- rows -------------------------------------------------------------------------------------------

  predicate Folds(n: Node) {
    n.Container? && n.entries != []
  }

  function CloseRow(w: Work, line: nat): Row
    requires w.CloseWork?
  {
    var text := [CloseChar(w.isObject)];
    Row(text + Decimal(line), line, w.depth, None, Some(Cell(Punct, text)), None, None, w.comma)
  }

  /** The first row of a node that is not collapsed. */
  function OpenRow(w: Work, line: nat): Row
    requires w.NodeWork?
  {
    match w.node
    case Scalar(kind, text) => Row(w.id, line, w.depth, w.key, Some(Cell(kind, text)), None, None, w.comma)
    case Container(isObject, entries) =>
      if entries == [] then
        Row(w.id, line, w.depth, w.key, Some(Cell(Punct, [OpenChar(isObject), CloseChar(isObject)])), None, None, w.comma)
      else
        Row(w.id, line, w.depth, w.key, Some(Cell(Punct, [OpenChar(isObject)])), None,
            Some(Toggle(w.id, w.path, false)), false)
  }

  /** The one row of a collapsed container. */
  function SummaryRow(w: Work, line: nat): Row
    requires w.NodeWork? && Folds(w.node)
  {
    Row(w.id, line, w.depth, w.key, None, Some(Summary(w.node.isObject, |w.node.entries|)),
        Some(Toggle(w.id, w.path, true)), w.comma)
  }

  /** The rows of one work item that starts at `line`. */
  function WorkRows(w: Work, line: nat, collapsed: set<string>, unquote: string -> string): seq<Row>
    decreases if w.NodeWork? then 1 else 0, if w.NodeWork? then w.node else Scalar(Ws, ""), 2
  {
    if w.CloseWork? then [CloseRow(w, line)]
    else if !Folds(w.node) then [OpenRow(w, line)]
    else if w.id in collapsed then [SummaryRow(w, line)]
    else
      [OpenRow(w, line)] + ChildRows(w, |w.node.entries|, line + 1, collapsed, unquote) +
      [CloseRow(CloseWork(w.node.isObject, w.depth, w.comma), line + 1 + SpanEntries(w.node.entries))]
  }

  /** The rows of the first `k` entries, which start at `line`. */
  function ChildRows(w: Work, k: nat, line: nat, collapsed: set<string>, unquote: string -> string): seq<Row>
    requires w.NodeWork? && w.node.Container? && k <= |w.node.entries|
    decreases 1, w.node, 1, k
  {
    if k == 0 then []
    else
      var c := ChildWork(w, k - 1, unquote);
      assert w.node.entries[k - 1].node < w.node.entries[k - 1];
      ChildRows(w, k - 1, line, collapsed, unquote) +
      WorkRows(c, line + SpanEntries(w.node.entries[..k - 1]), collapsed, unquote)
  }

  // ---- the worklist ----------------------------------------------------------------------------------

  /** The rows a stack of work prints from `line` on; the top of the stack is its last item. */
  function StackRows(ws: seq<Work>, line: nat, collapsed: set<string>, unquote: string -> string): seq<Row> {
    if ws == [] then []
    else
      var top := ws[|ws| - 1];
      WorkRows(top, line, collapsed, unquote) + StackRows(Pop(ws), line + WorkSpan(top), collapsed, unquote)
  }

  function StackSpan(ws: seq<Work>): nat {
    if ws == [] then 0 else StackSpan(Pop(ws)) + WorkSpan(ws[|ws| - 1])
  }

  /** The entries from `i` on, pushed last to first. */
  function Pushed(w: Work, i: nat, unquote: string -> string): seq<Work>
    requires w.NodeWork? && w.node.Container? && i <= |w.node.entries|
    decreases |w.node.entries| - i
  {
    if i == |w.node.entries| then [] else Pushed(w, i + 1, unquote) + [ChildWork(w, i, unquote)]
  }

  lemma SpanNext(es: seq<Entry>, i: nat)
    requires i < |es|
    ensures SpanEntries(es[..i + 1]) == SpanEntries(es[..i]) + Span(es[i].node)
  {
    assert es[..i + 1][..i] == es[..i];
  }

  lemma {:induction false} PushedRows(w: Work, i: nat, base: seq<Work>, line: nat, collapsed: set<string>, unquote: string -> string)
    requires w.NodeWork? && w.node.Container? && i <= |w.node.entries|
    ensures ChildRows(w, i, line, collapsed, unquote) +
            StackRows(base + Pushed(w, i, unquote), line + SpanEntries(w.node.entries[..i]), collapsed, unquote)
         == ChildRows(w, |w.node.entries|, line, collapsed, unquote) +
            StackRows(base, line + SpanEntries(w.node.entries), collapsed, unquote)
    decreases |w.node.entries| - i
  {
    hide WorkRows, StackRows, SpanEntries, ChildWork;
    var es := w.node.entries;
    if i == |es| {
      assert es[..i] == es;
      Unit(base);
    } else {
      ChildIs(w, i, unquote);
      var c, at := ChildWork(w, i, unquote), line + SpanEntries(es[..i]);
      var ws := base + Pushed(w, i + 1, unquote);
      Assoc(base, Pushed(w, i + 1, unquote), [c]);
      SpanNext(es, i);
      TopRows(ws, c, at, collapsed, unquote);
      PushedRows(w, i + 1, base, line, collapsed, unquote);
      Assoc(ChildRows(w, i, line, collapsed, unquote), WorkRows(c, at, collapsed, unquote),
            StackRows(ws, at + WorkSpan(c), collapsed, unquote));
    }
  }

  lemma {:induction false} PushedSpan(w: Work, i: nat, base: seq<Work>, unquote: string -> string)
    requires w.NodeWork? && w.node.Container? && i <= |w.node.entries|
    ensures StackSpan(base + Pushed(w, i, unquote)) + SpanEntries(w.node.entries[..i])
         == StackSpan(base) + SpanEntries(w.node.entries)
    decreases |w.node.entries| - i
  {
    var es := w.node.entries;
    if i == |es| {
      assert es[..i] == es && base + [] == base;
    } else {
      var ws := base + Pushed(w, i, unquote);
      assert Pop(ws) == base + Pushed(w, i + 1, unquote);
      SpanNext(es, i);
      PushedSpan(w, i + 1, base, unquote);
    }
  }

  function CloseOf(w: Work): Work
    requires w.NodeWork? && w.node.Container?
  {
    CloseWork(w.node.isObject, w.depth, w.comma)
  }

  lemma OpenSpan(w: Work, base: seq<Work>, unquote: string -> string)
    requires w.NodeWork? && Folds(w.node)
    ensures StackSpan(base + [CloseOf(w)] + Pushed(w, 0, unquote)) == StackSpan(base) + Span(w.node) - 1
  {
    PushedSpan(w, 0, base + [CloseOf(w)], unquote);
    assert Pop(base + [CloseOf(w)]) == base && w.node.entries[..0] == [];
  }

  /** Opening a container: its entries and closing bracket take its place on the stack. */
  lemma OpenContainer(w: Work, base: seq<Work>, line: nat, collapsed: set<string>, unquote: string -> string)
    requires w.NodeWork? && Folds(w.node) && w.id !in collapsed
    ensures StackRows(base + [w], line, collapsed, unquote)
         == [OpenRow(w, line)] + StackRows(base + [CloseOf(w)] + Pushed(w, 0, unquote), line + 1, collapsed, unquote)
  {
    hide WorkRows, StackRows, ChildRows, OpenRow, CloseRow, SpanEntries, Pushed;
    var close, es := CloseOf(w), w.node.entries;
    var children := ChildRows(w, |es|, line + 1, collapsed, unquote);
    var end := line + 1 + SpanEntries(es);
    var rest := StackRows(base, end + 1, collapsed, unquote);
    OpenRows(w, line, collapsed, unquote);
    TopRows(base, w, line, collapsed, unquote);
    TopRows(base, close, end, collapsed, unquote);
    PushedRows(w, 0, base + [close], line + 1, collapsed, unquote);
    NoChildRows(w, line + 1, collapsed, unquote);
    Regroup([OpenRow(w, line)], children, [CloseRow(close, end)], rest);
  }

  lemma OpenRows(w: Work, line: nat, collapsed: set<string>, unquote: string -> string)
    requires w.NodeWork? && Folds(w.node) && w.id !in collapsed
    ensures WorkRows(w, line, collapsed, unquote)
         == [OpenRow(w, line)] + ChildRows(w, |w.node.entries|, line + 1, collapsed, unquote) +
            [CloseRow(CloseOf(w), line + 1 + SpanEntries(w.node.entries))]
    ensures SpanEntries(w.node.entries[..0]) == 0
  {
  }

  lemma NoChildRows(w: Work, line: nat, collapsed: set<string>, unquote: string -> string)
    requires w.NodeWork? && w.node.Container?
    ensures ChildRows(w, 0, line, collapsed, unquote) == []
  {
  }

  function RootWork(root: Node): Work {
    NodeWork(root, "$", "", None, 0, false)
  }

  /** The rows of the whole document. */
  function DocumentRows(root: Node, collapsed: set<string>, unquote: string -> string): seq<Row> {
    WorkRows(RootWork(root), 1, collapsed, unquote)
  }

  method PushEntries(w: Work, base: seq<Work>, unquote: string -> string) returns (stack: seq<Work>)
    requires w.NodeWork? && w.node.Container?
    ensures stack == base + Pushed(w, 0, unquote)
  {
    stack := base;
    var index := |w.node.entries|;
    while index > 0
      invariant 0 <= index <= |w.node.entries|
      invariant stack == base + Pushed(w, index, unquote)
    {
      index := index - 1;
      stack := stack + [ChildWork(w, index, unquote)];
    }
  }

  /** The worklist loop prints exactly `DocumentRows`. */
  method BuildJsonTreeRows(root: Node, collapsed: set<string>, unquote: string -> string) returns (rows: seq<Row>)
    ensures rows == DocumentRows(root, collapsed, unquote)
  {
    hide WorkRows, StackRows, StackSpan, OpenRow, CloseRow, SummaryRow, Pushed, Span;
    rows := [];
    var stack := [RootWork(root)];
    var line: nat := 1;
    TopRows([], RootWork(root), line, collapsed, unquote);
    assert [] + [RootWork(root)] == stack;
    NoStackRows(line + WorkSpan(RootWork(root)), collapsed, unquote);
    while stack != []
      invariant rows + StackRows(stack, line, collapsed, unquote) == DocumentRows(root, collapsed, unquote)
      decreases StackSpan(stack)
    {
      var w, base := stack[|stack| - 1], Pop(stack);
      assert stack == base + [w];
      TopRows(base, w, line, collapsed, unquote);
      if w.NodeWork? && Folds(w.node) && w.id !in collapsed {
        OpenContainer(w, base, line, collapsed, unquote);
        OpenSpan(w, base, unquote);
        stack := PushEntries(w, base + [CloseOf(w)], unquote);
        Append(rows, OpenRow(w, line), StackRows(stack, line + 1, collapsed, unquote));
        rows, line := rows + [OpenRow(w, line)], line + 1;
      } else {
        var row :=
          if w.CloseWork? then CloseRow(w, line) else if Folds(w.node) then SummaryRow(w, line) else OpenRow(w, line);
        Append(rows, row, StackRows(base, line + WorkSpan(w), collapsed, unquote));
        rows, line, stack := rows + [row], line + WorkSpan(w), base;
      }
    }
    NoStackRows(line, collapsed, unquote);
  }

  lemma NoStackRows(line: nat, collapsed: set<string>, unquote: string -> string)
    ensures StackRows([], line, collapsed, unquote) == []
  {
  }

  /** What the top of the stack prints when it is not opened. */
  lemma TopRows(base: seq<Work>, w: Work, line: nat, collapsed: set<string>, unquote: string -> string)
    ensures StackSpan(base + [w]) == StackSpan(base) + WorkSpan(w)
    ensures var rest := StackRows(base, line + WorkSpan(w), collapsed, unquote);
            StackRows(base + [w], line, collapsed, unquote) == WorkRows(w, line, collapsed, unquote) + rest
    ensures w.CloseWork? ==> WorkRows(w, line, collapsed, unquote) == [CloseRow(w, line)]
    ensures w.NodeWork? && !Folds(w.node) ==> WorkRows(w, line, collapsed, unquote) == [OpenRow(w, line)] && WorkSpan(w) == 1
    ensures w.NodeWork? && Folds(w.node) && w.id in collapsed ==> WorkRows(w, line, collapsed, unquote) == [SummaryRow(w, line)]
  {
    assert Pop(base + [w]) == base;
  }

  // ---- fully expanded: every line, in order --------------------------------------------------------------

  ghost predicate Numbered(rows: seq<Row>, line: nat) {
    forall k :: 0 <= k < |rows| ==> rows[k].line == line + k
  }

  lemma NumberedConcat(a: seq<Row>, b: seq<Row>, line: nat)
    requires Numbered(a, line) && Numbered(b, line + |a|)
    ensures Numbered(a + b, line)
  {
  }

  lemma NothingNumbered(es: seq<Entry>, line: nat)
    ensures Numbered([], line) && SpanEntries(es[..0]) == 0
  {
  }

  lemma {:induction false} ExpandedWork(w: Work, line: nat, unquote: string -> string)
    ensures |WorkRows(w, line, {}, unquote)| == WorkSpan(w) && Numbered(WorkRows(w, line, {}, unquote), line)
    decreases if w.NodeWork? then 1 else 0, if w.NodeWork? then w.node else Scalar(Ws, ""), 2
  {
    if w.NodeWork? && Folds(w.node) {
      hide WorkRows, ChildRows, OpenRow, CloseRow;
      var es := w.node.entries;
      OpenRows(w, line, {}, unquote);
      FirstLine(w, line);
      ExpandedChildren(w, |es|, line + 1, unquote);
      assert es[..|es|] == es;
      var children := ChildRows(w, |es|, line + 1, {}, unquote);
      NumberedConcat([OpenRow(w, line)], children, line);
      NumberedConcat([OpenRow(w, line)] + children, [CloseRow(CloseOf(w), line + 1 + SpanEntries(es))], line);
    }
  }

  lemma FirstLine(w: Work, line: nat)
    requires w.NodeWork?
    ensures OpenRow(w, line).line == line && forall x: Work, l: nat | x.CloseWork? :: CloseRow(x, l).line == l
  {
  }

  lemma {:induction false} ExpandedChildren(w: Work, k: nat, line: nat, unquote: string -> string)
    requires w.NodeWork? && w.node.Container? && k <= |w.node.entries|
    ensures |ChildRows(w, k, line, {}, unquote)| == SpanEntries(w.node.entries[..k])
    ensures Numbered(ChildRows(w, k, line, {}, unquote), line)
    decreases 1, w.node, 1, k
  {
    if k > 0 {
      hide WorkRows, Numbered, SpanEntries, ChildWork;
      var es := w.node.entries;
      ChildIs(w, k - 1, unquote);
      var c, at := ChildWork(w, k - 1, unquote), line + SpanEntries(es[..k - 1]);
      ExpandedChildren(w, k - 1, line, unquote);
      ExpandedWork(c, at, unquote);
      SpanNext(es, k - 1);
      NumberedConcat(ChildRows(w, k - 1, line, {}, unquote), WorkRows(c, at, {}, unquote), line);
    } else {
      NothingNumbered(w.node.entries, line);
    }
  }

  /** Expanded, the document has one row per line, numbered from 1 without gaps. */
  lemma ExpandedRowsAreNumbered(root: Node, unquote: string -> string)
    ensures |DocumentRows(root, {}, unquote)| == Span(root) && Numbered(DocumentRows(root, {}, unquote), 1)
  {
    ExpandedWork(RootWork(root), 1, unquote);
  }

  // ---- what the rows print --------------------------------------------------------------------------------

  function CellText(v: Option<Cell>): string {
    if v.Some? then v.value.text else ""
  }

  function CommaText(comma: bool): string {
    if comma then "," else ""
  }

  function KeyText(key: Option<string>): string {
    if key.Some? then key.value + ": " else ""
  }

  lemma KeyPrints(key: Option<string>)
    ensures KeyText(key) == PrintKey(key, Pretty)
  {
  }

  /** One printed line of the expanded view, without its line break. */
  function RowText(row: Row): string {
    Indent(row.depth) + KeyText(row.key) + CellText(row.value) + CommaText(row.comma)
  }

  function RowTexts(rows: seq<Row>): (r: seq<string>)
    ensures |r| == |rows| && forall i :: 0 <= i < |r| ==> r[i] == RowText(rows[i])
  {
    if rows == [] then [] else [RowText(rows[0])] + RowTexts(rows[1..])
  }

  /** The printed view: a line break after every row but the last. */
  function ViewText(rows: seq<Row>): string {
    Join(RowTexts(rows), "\n")
  }

  lemma {:induction false} JoinConcat(a: seq<string>, b: seq<string>, sep: string)
    requires a != [] && b != []
    ensures Join(a + b, sep) == Join(a, sep) + sep + Join(b, sep)
  {
    assert (a + b)[1..] == a[1..] + b;
    if |a| == 1 {
      assert a[1..] + b == b;
    } else {
      JoinConcat(a[1..], b, sep);
    }
  }

  lemma ViewConcat(a: seq<Row>, b: seq<Row>)
    requires a != [] && b != []
    ensures ViewText(a + b) == ViewText(a) + "\n" + ViewText(b)
  {
    assert RowTexts(a + b) == RowTexts(a) + RowTexts(b);
    JoinConcat(RowTexts(a), RowTexts(b), "\n");
  }

  /** The text of a node on its own lines, with its key and separating comma. */
  function WorkText(w: Work): string {
    if w.CloseWork? then Indent(w.depth) + [CloseChar(w.isObject)] + CommaText(w.comma)
    else Indent(w.depth) + PrintKey(w.key, Pretty) + Print(w.node, w.depth, Pretty) + CommaText(w.comma)
  }

  lemma ViewOne(row: Row)
    ensures ViewText([row]) == RowText(row)
  {
  }

  /** The entries of a container, one level deeper. */
  function BodyText(w: Work): string
    requires w.NodeWork? && w.node.Container?
  {
    Indent(w.depth + 1) + PrintEntries(w.node.entries, w.depth + 1, Pretty)
  }

  lemma {:induction false} RowsPrintWork(w: Work, line: nat, unquote: string -> string)
    ensures WorkRows(w, line, {}, unquote) != [] && ViewText(WorkRows(w, line, {}, unquote)) == WorkText(w)
    decreases if w.NodeWork? then 1 else 0, if w.NodeWork? then w.node else Scalar(Ws, ""), 2
  {
    if w.NodeWork? && Folds(w.node) {
      hide WorkRows, ChildRows, OpenRow, CloseRow, SpanEntries, RowText, ViewText, WorkText, BodyText;
      AllChildrenPrint(w, line + 1, unquote);
      OpenRows(w, line, {}, unquote);
      AroundChildren(w, line, line + 1 + SpanEntries(w.node.entries), ChildRows(w, |w.node.entries|, line + 1, {}, unquote));
    } else {
      LeafPrints(w, line, unquote);
    }
  }

  lemma {:induction false} AllChildrenPrint(w: Work, line: nat, unquote: string -> string)
    requires w.NodeWork? && Folds(w.node)
    ensures ChildRows(w, |w.node.entries|, line, {}, unquote) != []
    ensures ViewText(ChildRows(w, |w.node.entries|, line, {}, unquote)) == BodyText(w)
    decreases 1, w.node, 1, |w.node.entries| + 1
  {
    hide ChildRows, ViewText, Indent, PrintEntries;
    var es := w.node.entries;
    ChildrenPrint(w, |es|, line, unquote);
    assert es[..|es|] == es;
    assert CommaText(false) == "";
    Unit(BodyText(w));
  }

  lemma AroundChildren(w: Work, line: nat, end: nat, children: seq<Row>)
    requires w.NodeWork? && Folds(w.node) && children != [] && ViewText(children) == BodyText(w)
    ensures ViewText([OpenRow(w, line)] + children + [CloseRow(CloseOf(w), end)]) == WorkText(w)
  {
    hide OpenRow, CloseRow, RowText, ViewText, WorkText, BodyText;
    var open, close := OpenRow(w, line), CloseRow(CloseOf(w), end);
    ViewConcat([open], children);
    ViewConcat([open] + children, [close]);
    ViewOne(open);
    ViewOne(close);
    PrintContainer(w, line, end);
  }

  lemma LeafPrints(w: Work, line: nat, unquote: string -> string)
    requires w.CloseWork? || !Folds(w.node)
    ensures WorkRows(w, line, {}, unquote) != [] && ViewText(WorkRows(w, line, {}, unquote)) == WorkText(w)
  {
    hide ViewText, Indent, PrintKey, KeyText;
    NoKey();
    KeyPrints(if w.NodeWork? then w.key else None);
    ViewOne(if w.NodeWork? then OpenRow(w, line) else CloseRow(w, line));
  }

  /** A container is its opening row, its entries one level deeper, and its closing row. */
  lemma PrintContainer(w: Work, line: nat, end: nat)
    requires w.NodeWork? && Folds(w.node)
    ensures WorkText(w) == RowText(OpenRow(w, line)) + "\n" + BodyText(w) + "\n" + RowText(CloseRow(CloseOf(w), end))
  {
    hide Indent, PrintKey, RowText, OpenRow, CloseRow, Print, CommaText, BodyText;
    OpenText(w, line);
    CloseText(CloseOf(w), end);
    PrintFolded(w);
    Assemble(Indent(w.depth) + PrintKey(w.key, Pretty), [OpenChar(w.node.isObject)], BodyText(w), Indent(w.depth),
             [CloseChar(w.node.isObject)], CommaText(w.comma));
  }

  lemma OpenText(w: Work, line: nat)
    requires w.NodeWork? && Folds(w.node)
    ensures RowText(OpenRow(w, line)) == Indent(w.depth) + PrintKey(w.key, Pretty) + [OpenChar(w.node.isObject)]
  {
    hide Indent, PrintKey, KeyText;
    KeyPrints(w.key);
    Unit(Indent(w.depth) + PrintKey(w.key, Pretty) + [OpenChar(w.node.isObject)]);
  }

  lemma CloseText(w: Work, line: nat)
    requires w.CloseWork?
    ensures RowText(CloseRow(w, line)) == Indent(w.depth) + [CloseChar(w.isObject)] + CommaText(w.comma)
  {
    hide Indent, PrintKey, KeyText, CommaText;
    NoKey();
    KeyPrints(None);
    Unit(Indent(w.depth));
  }

  lemma PrintFolded(w: Work)
    requires w.NodeWork? && Folds(w.node)
    ensures Print(w.node, w.depth, Pretty) ==
            [OpenChar(w.node.isObject)] + ("\n" + BodyText(w)) + ("\n" + Indent(w.depth)) + [CloseChar(w.node.isObject)]
  {
    hide Indent, PrintEntries;
    var o, a, b := [OpenChar(w.node.isObject)], Indent(w.depth + 1), PrintEntries(w.node.entries, w.depth + 1, Pretty);
    Assoc("\n", a, b);
    Assoc(o, "\n" + a, b);
  }

  lemma Assemble(head: string, o: string, body: string, d: string, x: string, c: string)
    ensures head + (o + ("\n" + body) + ("\n" + d) + x) + c == head + o + "\n" + body + "\n" + (d + x + c)
  {
    var p, q := "\n" + body, "\n" + d;
    Assoc(head, o + p + q, x);
    Assoc(head, o + p, q);
    Assoc(head, o, p);
    Assoc(head + o, "\n", body);
    Assoc(head + o + "\n" + body, "\n", d);
    Assoc(head + o + "\n" + body + "\n" + d, x, c);
    Assoc(head + o + "\n" + body + "\n", d, x + c);
    Assoc(d, x, c);
  }

  lemma NoKey()
    ensures PrintKey(None, Pretty) == ""
  {
  }

  lemma {:induction false} ChildrenPrint(w: Work, k: nat, line: nat, unquote: string -> string)
    requires w.NodeWork? && w.node.Container? && 0 < k <= |w.node.entries|
    ensures ChildRows(w, k, line, {}, unquote) != []
    ensures ViewText(ChildRows(w, k, line, {}, unquote))
         == Indent(w.depth + 1) + PrintEntries(w.node.entries[..k], w.depth + 1, Pretty) + CommaText(k < |w.node.entries|)
    decreases 1, w.node, 1, k
  {
    hide WorkRows, ViewText, Indent, SpanEntries, PrintEntries, ChildWork, WorkText;
    var es := w.node.entries;
    ChildIs(w, k - 1, unquote);
    var c := ChildWork(w, k - 1, unquote);
    var at := line + SpanEntries(es[..k - 1]);
    RowsPrintWork(c, at, unquote);
    ChildText(w, k, unquote);
    if k == 1 {
      NoChildRows(w, line, {}, unquote);
      assert [] + WorkRows(c, at, {}, unquote) == WorkRows(c, at, {}, unquote);
    } else {
      ChildrenPrint(w, k - 1, line, unquote);
      ViewConcat(ChildRows(w, k - 1, line, {}, unquote), WorkRows(c, at, {}, unquote));
    }
  }

  lemma ChildText(w: Work, k: nat, unquote: string -> string)
    requires w.NodeWork? && w.node.Container? && 0 < k <= |w.node.entries|
    ensures var before := Indent(w.depth + 1) + PrintEntries(w.node.entries[..k - 1], w.depth + 1, Pretty) + ",";
            (if k == 1 then "" else before + "\n") + WorkText(ChildWork(w, k - 1, unquote)) ==
            Indent(w.depth + 1) + PrintEntries(w.node.entries[..k], w.depth + 1, Pretty) + CommaText(k < |w.node.entries|)
  {
    hide Indent, PrintKey, Print, PrintEntries;
    var es, d := w.node.entries, w.depth + 1;
    var e := es[k - 1];
    PrintSnoc(es, k, d);
    if k == 1 {
      assert Indent(d) + PrintKey(e.key, Pretty) + Print(e.node, d, Pretty) == Indent(d) + PrintEntry(e, d, Pretty);
    } else {
      ChildAssemble(Indent(d), PrintEntries(es[..k - 1], d, Pretty), PrintKey(e.key, Pretty), Print(e.node, d, Pretty),
                    CommaText(k < |es|));
    }
  }

  lemma ChildAssemble(i: string, p: string, key: string, v: string, c: string)
    ensures i + p + "," + "\n" + (i + key + v + c) == i + (p + ("," + ("\n" + i)) + (key + v)) + c
  {
    assert i + key + v + c == i + (key + v) + c;
  }

  lemma PrintSnoc(es: seq<Entry>, k: nat, d: nat)
    requires 0 < k <= |es|
    ensures PrintEntries(es[..k], d, Pretty)
         == if k == 1 then PrintEntry(es[k - 1], d, Pretty)
            else PrintEntries(es[..k - 1], d, Pretty) + ("," + ("\n" + Indent(d))) + PrintEntry(es[k - 1], d, Pretty)
  {
    assert es[..k][..k - 1] == es[..k - 1];
  }

  /** The printed rows of the expanded view are the pretty-printed document. */
  lemma RowsPrintDocument(text: string, unquote: string -> string)
    requires WellFormed(text)
    ensures ParseTree(text).Some?
    ensures Some(ViewText(DocumentRows(ParseTree(text).value, {}, unquote))) == Reemit(text, Pretty)
  {
    hide ParseTree, Solids, Reemit, WorkRows, Print, ViewText, WellFormed;
    ParseWellFormed(text);
    var n := ParseTree(text).value;
    ReemitPrints(text, n, Pretty);
    RowsPrintWork(RootWork(n), 1, unquote);
    assert WorkText(RootWork(n)) == Print(n, 0, Pretty);
  }
}
