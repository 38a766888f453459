/**
  What each visible row says about the document.

  A row is a closing bracket, or it shows the node at some route of indexes from the root
  (`RowsTell`): its id is the route, its depth the length of the route, its key that of the entry,
  and its comma says whether a sibling follows on the next line.  A container with entries can
  be toggled under the label of its route, and collapsed it shows its kind and its number of
  entries.
*/
module JsonToggles {
  import opened Seqs
  import opened Decimals
  import opened JsonLex
  import opened JsonSyntax
  import opened JsonRows

  type Route = seq<nat>

  // ---- the node at a route ------------------------------------------------------------------------------------

  function NodeOn(root: Node, route: Route): Option<Node>
    decreases |route|
  {
    if route == [] then Some(root)
    else if EntryOn(root, route).Some? then Some(EntryOn(root, route).value.node)
    else None
  }

  function EntryOn(root: Node, route: Route): Option<Entry>
    requires route != []
    decreases |route|, 0
  {
    var parent, i := NodeOn(root, route[..|route| - 1]), route[|route| - 1];
    if parent.Some? && parent.value.Container? && i < |parent.value.entries| then Some(parent.value.entries[i]) else None
  }

  function IdOn(route: Route): string {
    if route == [] then "$" else IdOn(route[..|route| - 1]) + "." + Decimal(route[|route| - 1])
  }

  /** The steps to a node as they are written: decoded keys joined by dots, indexes in brackets. */
  function LabelOn(root: Node, route: Route, unquote: string -> string): string
    decreases |route|
  {
    if route == [] then ""
    else
      var above, e := LabelOn(root, route[..|route| - 1], unquote), EntryOn(root, route);
      if e.None? || e.value.key.None? then above + "[" + Decimal(route[|route| - 1]) + "]"
      else (if above == "" then "" else above + ".") + unquote(e.value.key.value)
  }

  function KeyOn(root: Node, route: Route): Option<string> {
    if route == [] || EntryOn(root, route).None? then None else EntryOn(root, route).value.key
  }

  /** A sibling comes after the node. */
  predicate HasNext(root: Node, route: Route) {
    route != [] && EntryOn(root, route[..|route| - 1] + [route[|route| - 1] + 1]).Some?
  }

  // ---- what a row shows ----------------------------------------------------------------------------------------

  /** The row of the node at a route. */
  ghost predicate ShowsNode(row: Row, root: Node, route: Route, collapsed: set<string>, unquote: string -> string) {
    NodeOn(root, route).Some? && row.id == IdOn(route) && row.depth == |route| && row.key == KeyOn(root, route) &&
    match NodeOn(root, route).value
    case Scalar(kind, text) =>
      row.value == Some(Cell(kind, text)) && row.summary.None? && row.toggle.None? && row.comma == HasNext(root, route)
    case Container(isObject, entries) =>
      if entries == [] then
        row.value == Some(Cell(Punct, if isObject then "{}" else "[]")) && row.summary.None? && row.toggle.None? &&
        row.comma == HasNext(root, route)
      else
        row.toggle == Some(Toggle(row.id, LabelOn(root, route, unquote), row.id in collapsed)) &&
        if row.id in collapsed then
          row.value.None? && row.summary == Some(Summary(isObject, |entries|)) && row.comma == HasNext(root, route)
        else row.value == Some(Cell(Punct, if isObject then "{" else "[")) && row.summary.None? && !row.comma
  }

  /** The closing bracket of the container at a route. */
  ghost predicate ShowsClose(row: Row, root: Node, route: Route) {
    NodeOn(root, route).Some? && NodeOn(root, route).value.Container? && row.depth == |route| && row.key.None? &&
    row.value == Some(Cell(Punct, if NodeOn(root, route).value.isObject then "}" else "]")) && row.summary.None? && row.toggle.None? &&
    row.comma == HasNext(root, route)
  }

  ghost predicate Tells(row: Row, root: Node, collapsed: set<string>, unquote: string -> string) {
    exists route :: ShowsNode(row, root, route, collapsed, unquote) || ShowsClose(row, root, route)
  }

  ghost predicate AllTell(rows: seq<Row>, root: Node, collapsed: set<string>, unquote: string -> string) {
    forall i :: 0 <= i < |rows| ==> Tells(rows[i], root, collapsed, unquote)
  }

  lemma TellConcat(a: seq<Row>, b: seq<Row>, root: Node, collapsed: set<string>, unquote: string -> string)
    requires AllTell(a, root, collapsed, unquote) && AllTell(b, root, collapsed, unquote)
    ensures AllTell(a + b, root, collapsed, unquote)
  {
    hide Tells;
  }

  lemma TellOne(row: Row, root: Node, route: Route, collapsed: set<string>, unquote: string -> string)
    requires ShowsNode(row, root, route, collapsed, unquote) || ShowsClose(row, root, route)
    ensures AllTell([row], root, collapsed, unquote)
  {
    hide ShowsNode, ShowsClose;
  }

  // ---- the worklist ------------------------------------------------------------------------------------------------

  /** The work is for the node at a route. */
  ghost predicate WorkOn(w: Work, root: Node, route: Route, unquote: string -> string) {
    w.NodeWork? && w == NodeWork(w.node, IdOn(route), LabelOn(root, route, unquote), KeyOn(root, route), |route|, HasNext(root, route)) &&
    NodeOn(root, route) == Some(w.node)
  }

  lemma ChildOn(w: Work, i: nat, root: Node, route: Route, unquote: string -> string)
    requires w.NodeWork? && w.node.Container? && i < |w.node.entries| && WorkOn(w, root, route, unquote)
    ensures WorkOn(ChildWork(w, i, unquote), root, route + [i], unquote)
  {
    hide Decimal;
    var deep := route + [i];
    Snoc(route, i);
    assert EntryOn(root, deep) == Some(w.node.entries[i]);
    Snoc(route, i + 1);
    assert deep[..|deep| - 1] + [deep[|deep| - 1] + 1] == route + [i + 1];
  }

  lemma {:induction false} NodeTells(w: Work, line: nat, root: Node, route: Route, collapsed: set<string>, unquote: string -> string)
    requires w.NodeWork? && WorkOn(w, root, route, unquote)
    ensures AllTell(WorkRows(w, line, collapsed, unquote), root, collapsed, unquote)
    decreases w.node, 1
  {
    if Folds(w.node) && w.id !in collapsed {
      var es := w.node.entries;
      var open, close := OpenRow(w, line), CloseRow(CloseOf(w), line + 1 + SpanEntries(es));
      OpenShows(w, line, root, route, collapsed, unquote);
      CloseShows(w, line + 1 + SpanEntries(es), root, route, unquote);
      OpenRows(w, line, collapsed, unquote);
      hide WorkRows, ChildRows, OpenRow, CloseRow, SpanEntries, AllTell, WorkOn, ShowsNode, ShowsClose;
      TellOne(open, root, route, collapsed, unquote);
      TellOne(close, root, route, collapsed, unquote);
      ChildrenTell(w, |es|, line + 1, root, route, collapsed, unquote);
      TellConcat([open], ChildRows(w, |es|, line + 1, collapsed, unquote), root, collapsed, unquote);
      TellConcat([open] + ChildRows(w, |es|, line + 1, collapsed, unquote), [close], root, collapsed, unquote);
    } else {
      var row := if Folds(w.node) then SummaryRow(w, line) else OpenRow(w, line);
      OpenShows(w, line, root, route, collapsed, unquote);
      hide AllTell, WorkOn, ShowsNode, ShowsClose, OpenRow, SummaryRow;
      TellOne(row, root, route, collapsed, unquote);
    }
  }

  lemma OpenShows(w: Work, line: nat, root: Node, route: Route, collapsed: set<string>, unquote: string -> string)
    requires w.NodeWork? && WorkOn(w, root, route, unquote)
    ensures ShowsNode(if Folds(w.node) && w.id in collapsed then SummaryRow(w, line) else OpenRow(w, line), root, route, collapsed, unquote)
  {
    hide IdOn, LabelOn, KeyOn, HasNext, NodeOn;
    assert ['{', '}'] == "{}" && ['[', ']'] == "[]";
  }

  lemma CloseShows(w: Work, line: nat, root: Node, route: Route, unquote: string -> string)
    requires w.NodeWork? && w.node.Container? && WorkOn(w, root, route, unquote)
    ensures ShowsClose(CloseRow(CloseOf(w), line), root, route)
  {
    hide IdOn, LabelOn, KeyOn, HasNext, NodeOn;
  }

  lemma {:induction false} ChildrenTell(w: Work, k: nat, line: nat, root: Node, route: Route, collapsed: set<string>, unquote: string -> string)
    requires w.NodeWork? && w.node.Container? && k <= |w.node.entries| && WorkOn(w, root, route, unquote)
    ensures AllTell(ChildRows(w, k, line, collapsed, unquote), root, collapsed, unquote)
    decreases w.node, 0, k
  {
    if k > 0 {
      var c, at := ChildWork(w, k - 1, unquote), line + SpanEntries(w.node.entries[..k - 1]);
      ChildIs(w, k - 1, unquote);
      hide WorkRows, SpanEntries, AllTell, WorkOn, ChildWork;
      ChildrenTell(w, k - 1, line, root, route, collapsed, unquote);
      ChildOn(w, k - 1, root, route, unquote);
      NodeTells(c, at, root, route + [k - 1], collapsed, unquote);
      TellConcat(ChildRows(w, k - 1, line, collapsed, unquote), WorkRows(c, at, collapsed, unquote), root, collapsed, unquote);
    }
  }

  /** For any collapsed set, every visible row is that of a node of the document or of its closing bracket. */
  lemma RowsTell(root: Node, collapsed: set<string>, unquote: string -> string)
    ensures AllTell(DocumentRows(root, collapsed, unquote), root, collapsed, unquote)
  {
    hide WorkRows, AllTell;
    NodeTells(RootWork(root), 1, root, [], collapsed, unquote);
  }
}
