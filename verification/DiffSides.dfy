/**
  What a recorded change says about either document: both texts are those at its path, its kind
  tells which of them there are, and read backwards the changes lead from the second document to
  the first.
*/
module DiffSides {
  import opened Seqs
  import opened JsonSyntax
  import opened JsonTree
  import opened ValueDiff

  // ---- both texts --------------------------------------------------------------------------------------------

  /** The text of what a document has at a path, objects by decoded key with the last duplicate winning. */
  function TextAt(n: Option<Node>, path: seq<string>, unquote: string -> string): Option<string>
    decreases |path|
  {
    if n.None? then None
    else if path == [] then Some(NodeText(n.value))
    else if n.value.Scalar? then None
    else TextAt(Get(NodeKids(n.value, unquote), path[0]), path[1..], unquote)
  }

  function KindOf(before: Option<string>, after: Option<string>): ChangeKind {
    if before.None? then Added else if after.None? then Removed else Changed
  }

  /** The change tells what is at its path in either document, and that the two differ. */
  ghost predicate Tells(c: Change, a: Option<Node>, b: Option<Node>, unquote: string -> string) {
    c.before == TextAt(a, c.path, unquote) && c.after == TextAt(b, c.path, unquote) && c.before != c.after &&
    c.kind == KindOf(c.before, c.after) && c.fromPath.None?
  }

  lemma {:induction false} UnderHas(k: string, cs: seq<Change>, c: Change)
    requires c in Under(k, cs)
    ensures exists d :: d in cs && c == d.(path := [k] + d.path)
    decreases |cs|
  {
    if cs != [] && c != cs[0].(path := [k] + cs[0].path) {
      assert c in Under(k, cs[1..]);
      UnderHas(k, cs[1..], c);
    } else if cs != [] {
      assert cs[0] in cs;
    }
  }

  lemma TellsUnder(d: Change, k: string, a: Node, b: Node, unquote: string -> string)
    requires a.Container? && b.Container?
    requires Tells(d, Get(NodeKids(a, unquote), k), Get(NodeKids(b, unquote), k), unquote)
    ensures Tells(d.(path := [k] + d.path), Some(a), Some(b), unquote)
  {
    hide NodeKids, NodeText, Get;
    Tail(k, d.path);
  }

  /** Every recorded change tells both sides truly. */
  lemma {:induction false} ChangesTell(a: Option<Node>, b: Option<Node>, c: Change, unquote: string -> string)
    requires c in Diff(a, b, unquote)
    ensures Tells(c, a, b, unquote)
    decreases OptSize(a) + OptSize(b), 1, 0
  {
    if a.Some? && b.Some? && SameShape(a.value, b.value) {
      hide NodeText, NodeKids, Order, NodeSize, Tells, DiffKids;
      KidsTell(Order(a.value.isObject, a.value.entries, b.value.entries, unquote), a.value, b.value, c, unquote);
    } else {
      hide NodeText, NodeKids;
    }
  }

  lemma {:induction false} KidsTell(order: seq<string>, a: Node, b: Node, c: Change, unquote: string -> string)
    requires a.Container? && b.Container?
    requires c in DiffKids(order, NodeKids(a, unquote), NodeKids(b, unquote), NodeSize(a), NodeSize(b), unquote)
    ensures Tells(c, Some(a), Some(b), unquote)
    decreases NodeSize(a) + NodeSize(b), 0, |order|
  {
    if order != [] {
      var ka, kb, k := NodeKids(a, unquote), NodeKids(b, unquote), order[0];
      GetSmaller(ka, kb, NodeSize(a), NodeSize(b), k);
      var first := Diff(Get(ka, k), Get(kb, k), unquote);
      hide Diff, NodeKids, NodeSize, Get, Tells, Under;
      if c in Under(k, first) {
        UnderHas(k, first, c);
        var d :| d in first && c == d.(path := [k] + d.path);
        ChangesTell(Get(ka, k), Get(kb, k), d, unquote);
        TellsUnder(d, k, a, b, unquote);
      } else {
        KidsTell(order[1..], a, b, c, unquote);
      }
    }
  }

  // ---- read backwards ------------------------------------------------------------------------------------------

  function SwapKind(kind: ChangeKind): ChangeKind {
    match kind
    case Added => Removed
    case Removed => Added
    case other => other
  }

  function Swapped(c: Change): Change {
    c.(kind := SwapKind(c.kind), before := c.after, after := c.before)
  }

  function SwapAll(cs: seq<Change>): (r: seq<Change>)
    ensures |r| == |cs| && forall i :: 0 <= i < |cs| ==> r[i] == Swapped(cs[i])
  {
    seq(|cs|, i requires 0 <= i < |cs| => Swapped(cs[i]))
  }

  lemma SwapConcat(x: seq<Change>, y: seq<Change>)
    ensures SwapAll(x + y) == SwapAll(x) + SwapAll(y)
  {
    hide Swapped;
  }

  lemma {:induction false} SwapUnder(k: string, cs: seq<Change>)
    ensures Under(k, SwapAll(cs)) == SwapAll(Under(k, cs))
    decreases |cs|
  {
    if cs != [] {
      SwapUnder(k, cs[1..]);
      assert SwapAll(cs)[1..] == SwapAll(cs[1..]);
      assert cs == [cs[0]] + cs[1..];
    }
  }

  /** Keys in their sort order are determined by which keys there are. */
  lemma {:induction false} SortedUnique(x: seq<string>, y: seq<string>)
    requires Sorted(x) && Sorted(y) && forall k :: k in x <==> k in y
    ensures x == y
    decreases |x|
  {
    assert y == [] || y[0] in y;
    if x != [] {
      hide Sorted;
      assert x[0] in x && x[0] in y;
      SameFirst(x, y);
      RestOf(x);
      RestOf(y);
      SortedUnique(x[1..], y[1..]);
      Around(x, 0);
      Around(y, 0);
    }
  }

  lemma RestOf(x: seq<string>)
    requires x != [] && Sorted(x)
    ensures Sorted(x[1..]) && forall k :: k in x[1..] <==> k in x && k != x[0]
  {
    FirstOnce(x);
    Around(x, 0);
  }

  lemma SameFirst(x: seq<string>, y: seq<string>)
    requires x != [] && y != [] && Sorted(x) && Sorted(y) && x[0] in y && y[0] in x
    ensures x[0] == y[0]
  {
    hide Less;
    var i :| 0 <= i < |y| && y[i] == x[0];
    var j :| 0 <= j < |x| && x[j] == y[0];
    if i > 0 && j > 0 {
      LessTransitive(x[0], y[0], x[0]);
      LessIrreflexive(x[0]);
    }
  }

  lemma FirstOnce(x: seq<string>)
    requires x != [] && Sorted(x)
    ensures x[0] !in x[1..]
  {
    if x[0] in x[1..] {
      var i :| 0 <= i < |x[1..]| && x[1..][i] == x[0];
      assert Less(x[0], x[i + 1]);
      LessIrreflexive(x[0]);
    }
  }

  lemma OrderEitherWay(isObject: bool, a: seq<Entry>, b: seq<Entry>, unquote: string -> string)
    ensures Order(isObject, a, b, unquote) == Order(isObject, b, a, unquote)
  {
    if isObject {
      OrderCovers(true, a, b, unquote);
      OrderCovers(true, b, a, unquote);
      hide Order, Sorted, Kids;
      SortedUnique(Order(true, a, b, unquote), Order(true, b, a, unquote));
    }
  }

  /** The changes from the second document to the first are those from the first to the second, read backwards. */
  lemma {:induction false} DiffBackwards(a: Option<Node>, b: Option<Node>, unquote: string -> string)
    ensures Diff(b, a, unquote) == SwapAll(Diff(a, b, unquote))
    decreases OptSize(a) + OptSize(b), 1, 0
  {
    if a.Some? && b.Some? && SameShape(a.value, b.value) {
      hide NodeText, NodeKids, Order, NodeSize, DiffKids, SwapAll;
      OrderEitherWay(a.value.isObject, a.value.entries, b.value.entries, unquote);
      KidsBackwards(Order(a.value.isObject, a.value.entries, b.value.entries, unquote), NodeKids(a.value, unquote), NodeKids(b.value, unquote),
                    OptSize(a), OptSize(b), unquote);
    } else {
      hide NodeText;
    }
  }

  lemma {:induction false} KidsBackwards(order: seq<string>, ka: map<string, Node>, kb: map<string, Node>, sa: nat, sb: nat,
                                         unquote: string -> string)
    requires sa > 0 && sb > 0
    requires (forall k :: k in ka ==> NodeSize(ka[k]) < sa) && (forall k :: k in kb ==> NodeSize(kb[k]) < sb)
    ensures DiffKids(order, kb, ka, sb, sa, unquote) == SwapAll(DiffKids(order, ka, kb, sa, sb, unquote))
    decreases sa + sb, 0, |order|
  {
    if order != [] {
      var k := order[0];
      GetSmaller(ka, kb, sa, sb, k);
      hide NodeSize, Diff, Get, Under, SwapAll;
      DiffBackwards(Get(ka, k), Get(kb, k), unquote);
      SwapUnder(k, Diff(Get(ka, k), Get(kb, k), unquote));
      KidsBackwards(order[1..], ka, kb, sa, sb, unquote);
      SwapConcat(Under(k, Diff(Get(ka, k), Get(kb, k), unquote)), DiffKids(order[1..], ka, kb, sa, sb, unquote));
    }
  }

  /** Read backwards and applied to the second document, the changes give the meaning of the first. */
  lemma DiffReverts(a: Option<Node>, b: Option<Node>, unquote: string -> string)
    requires WfOpt(a) && WfOpt(b)
    ensures Apply(SemOpt(b, unquote), SwapAll(Diff(a, b, unquote)), unquote) == SemOpt(a, unquote)
  {
    hide Apply, SemOpt, Diff, SwapAll, WfOpt;
    DiffBackwards(a, b, unquote);
    DiffApplies(b, a, unquote);
  }
}
