/**
  The structural diff of two JSON documents: objects walked by key, arrays by index, and a
  change recorded where the trees part.

  A document means a tree of keyed values (`Sem`): an object by decoded name, the last
  duplicate winning, an array by index.  Main results: applying the recorded changes to the
  meaning of the first document gives the meaning of the second (`DiffApplies`), and there
  are none exactly when the two mean the same (`NoChangesIffSame`).
*/
module ValueDiff {
  import opened Seqs
  import opened Decimals
  import opened JsonSyntax
  import opened JsonTree

  datatype ChangeKind = Added | Removed | Changed | Moved

  /** `path` and `fromPath` hold decoded keys and `[i]` segments; `before` and `after` are raw JSON texts. */
  datatype Change = Change(path: seq<string>, kind: ChangeKind, before: Option<string>, after: Option<string>,
                           fromPath: Option<seq<string>>)

  // ---- sizes, for termination ----------------------------------------------------------------------

  function NodeSize(n: Node): (r: nat)
    ensures r > 0
    decreases n, 1
  {
    match n
    case Scalar(_, _) => 1
    case Container(_, es) => 1 + EntriesSize(es)
  }

  function EntriesSize(es: seq<Entry>): nat
    decreases es, 0
  {
    if es == [] then 0 else EntriesSize(es[..|es| - 1]) + EntrySize(es[|es| - 1])
  }

  function EntrySize(e: Entry): nat
    decreases e, 0
  {
    NodeSize(e.node)
  }

  function OptSize(n: Option<Node>): nat {
    if n.Some? then NodeSize(n.value) else 0
  }

  // ---- children by segment ---------------------------------------------------------------------------

  function IndexSegment(i: nat): string {
    "[" + Decimal(i) + "]"
  }

  /** The path segment of the entry at index `i`. */
  function Segment(isObject: bool, e: Entry, i: nat, unquote: string -> string): string {
    if isObject then unquote(if e.key.Some? then e.key.value else "") else IndexSegment(i)
  }

  /** The children by segment; of entries with the same decoded key the last one counts. */
  function Kids(isObject: bool, es: seq<Entry>, unquote: string -> string): (m: map<string, Node>)
    ensures forall k :: k in m ==> NodeSize(m[k]) <= EntriesSize(es)
    ensures es == [] ==> m == map[]
  {
    if es == [] then map[]
    else
      var i := |es| - 1;
      Kids(isObject, es[..i], unquote)[Segment(isObject, es[i], i, unquote) := es[i].node]
  }

  function NodeKids(n: Node, unquote: string -> string): (m: map<string, Node>)
    requires n.Container?
    ensures forall k :: k in m ==> NodeSize(m[k]) < NodeSize(n)
  {
    Kids(n.isObject, n.entries, unquote)
  }

  function Get<V>(m: map<string, V>, k: string): Option<V> {
    if k in m then Some(m[k]) else None
  }

  // ---- meaning ------------------------------------------------------------------------------------------

  datatype Val = Leaf(text: string) | Branch(isObject: bool, kids: map<string, Val>)

  function Sem(n: Node, unquote: string -> string): Val
    decreases NodeSize(n)
  {
    match n
    case Scalar(_, text) => Leaf(text)
    case Container(isObject, _) =>
      var kids := NodeKids(n, unquote);
      Branch(isObject, map k | k in kids :: Sem(kids[k], unquote))
  }

  function SemOpt(n: Option<Node>, unquote: string -> string): Option<Val> {
    if n.Some? then Some(Sem(n.value, unquote)) else None
  }

  function SemKids(kids: map<string, Node>, unquote: string -> string): map<string, Val> {
    map k | k in kids :: Sem(kids[k], unquote)
  }

  ghost predicate WfOpt(n: Option<Node>) {
    n.Some? ==> WfNode(n.value)
  }

  ghost predicate WfKids(m: map<string, Node>) {
    forall k :: k in m ==> WfNode(m[k])
  }

  lemma {:induction false} KidsWf(isObject: bool, es: seq<Entry>, unquote: string -> string)
    requires WfEntries(isObject, es)
    ensures WfKids(Kids(isObject, es, unquote))
    decreases |es|
  {
    if es != [] {
      hide WfNode;
      KidsWf(isObject, es[..|es| - 1], unquote);
      assert WfEntry(isObject, es[|es| - 1]);
    }
  }

  // ---- the order of the walk ------------------------------------------------------------------------------

  /** Code-unit order on strings. */
  predicate Less(a: string, b: string) {
    b != "" && (a == "" || a[0] < b[0] || (a[0] == b[0] && Less(a[1..], b[1..])))
  }

  lemma {:induction false} LessTotal(a: string, b: string)
    ensures Less(a, b) || Less(b, a) || a == b
  {
    if a != "" && b != "" && a[0] == b[0] {
      LessTotal(a[1..], b[1..]);
      assert a == [a[0]] + a[1..] && b == [b[0]] + b[1..];
    }
  }

  lemma {:induction false} LessTransitive(a: string, b: string, c: string)
    requires Less(a, b) && Less(b, c)
    ensures Less(a, c)
  {
    if a != "" && a[0] == b[0] == c[0] {
      LessTransitive(a[1..], b[1..], c[1..]);
    }
  }

  lemma {:induction false} LessIrreflexive(a: string)
    ensures !Less(a, a)
  {
    if a != "" {
      LessIrreflexive(a[1..]);
    }
  }

  /** Adds a key to a sorted list of distinct keys. */
  function Insert(k: string, ks: seq<string>): seq<string> {
    if ks == [] then [k]
    else if k == ks[0] then ks
    else if Less(k, ks[0]) then [k] + ks
    else [ks[0]] + Insert(k, ks[1..])
  }

  ghost predicate Sorted(ks: seq<string>) {
    forall i, j :: 0 <= i < j < |ks| ==> Less(ks[i], ks[j])
  }

  lemma {:induction false} InsertSorted(k: string, ks: seq<string>)
    requires Sorted(ks)
    ensures Sorted(Insert(k, ks)) && forall x :: x in Insert(k, ks) <==> x == k || x in ks
  {
    if ks != [] && k != ks[0] {
      if Less(k, ks[0]) {
        forall j | 0 <= j < |ks|
          ensures Less(k, ks[j])
        {
          if j > 0 {
            LessTransitive(k, ks[0], ks[j]);
          }
        }
      } else {
        InsertSorted(k, ks[1..]);
        LessTotal(k, ks[0]);
        var rest := Insert(k, ks[1..]);
        forall j | 0 <= j < |rest|
          ensures Less(ks[0], rest[j])
        {
          assert rest[j] in rest;
          if rest[j] != k {
            assert rest[j] in ks[1..];
            var i :| 0 <= i < |ks[1..]| && ks[1..][i] == rest[j];
            assert ks[i + 1] == rest[j];
          }
        }
      }
    }
  }

  function SortKeys(ks: seq<string>): seq<string> {
    if ks == [] then [] else Insert(ks[|ks| - 1], SortKeys(ks[..|ks| - 1]))
  }

  lemma {:induction false} SortKeysSorted(ks: seq<string>)
    ensures Sorted(SortKeys(ks)) && forall x :: x in SortKeys(ks) <==> x in ks
    decreases |ks|
  {
    if ks != [] {
      SortKeysSorted(ks[..|ks| - 1]);
      InsertSorted(ks[|ks| - 1], SortKeys(ks[..|ks| - 1]));
      assert ks == ks[..|ks| - 1] + [ks[|ks| - 1]];
    }
  }

  function Segments(isObject: bool, es: seq<Entry>, unquote: string -> string): seq<string> {
    if es == [] then []
    else Segments(isObject, es[..|es| - 1], unquote) + [Segment(isObject, es[|es| - 1], |es| - 1, unquote)]
  }

  lemma {:induction false} SegmentsAreKids(isObject: bool, es: seq<Entry>, unquote: string -> string)
    ensures forall k :: k in Segments(isObject, es, unquote) <==> k in Kids(isObject, es, unquote)
    decreases |es|
  {
    if es != [] {
      hide Segment;
      SegmentsAreKids(isObject, es[..|es| - 1], unquote);
    }
  }

  function Indexes(n: nat): (r: seq<string>)
    ensures |r| == n && forall i :: 0 <= i < n ==> r[i] == IndexSegment(i)
  {
    seq(n, i requires 0 <= i < n => IndexSegment(i))
  }

  function Longest(a: nat, b: nat): nat {
    if a >= b then a else b
  }

  /** Object keys of either side, sorted; array indexes in order. */
  function Order(isObject: bool, a: seq<Entry>, b: seq<Entry>, unquote: string -> string): seq<string> {
    if isObject then SortKeys(Segments(true, a, unquote) + Segments(true, b, unquote))
    else Indexes(Longest(|a|, |b|))
  }

  ghost predicate Distinct(ks: seq<string>) {
    forall i, j :: 0 <= i < j < |ks| ==> ks[i] != ks[j]
  }

  lemma IndexSegmentInjective(i: nat, j: nat)
    requires IndexSegment(i) == IndexSegment(j)
    ensures i == j
  {
    var s, t := IndexSegment(i), IndexSegment(j);
    assert s[1..|s| - 1] == Decimal(i) && t[1..|t| - 1] == Decimal(j);
    DecimalInjective(i, j);
  }

  ghost predicate IndexBelow(k: string, n: nat) {
    exists i :: 0 <= i < n && k == IndexSegment(i)
  }

  lemma IndexBelowNext(k: string, n: nat)
    ensures IndexBelow(k, n + 1) <==> IndexBelow(k, n) || k == IndexSegment(n)
  {
    hide IndexSegment;
    if IndexBelow(k, n + 1) && k != IndexSegment(n) {
      var i :| 0 <= i < n + 1 && k == IndexSegment(i);
      assert i < n;
    }
    if IndexBelow(k, n) {
      var i :| 0 <= i < n && k == IndexSegment(i);
      assert i < n + 1;
    }
  }

  lemma {:induction false} ArrayKids(es: seq<Entry>, unquote: string -> string, k: string)
    ensures k in Kids(false, es, unquote) <==> IndexBelow(k, |es|)
    decreases |es|
  {
    if es != [] {
      hide IndexSegment, IndexBelow;
      ArrayKids(es[..|es| - 1], unquote, k);
      IndexBelowNext(k, |es| - 1);
    }
  }

  lemma IndexesAre(k: string, n: nat)
    ensures k in Indexes(n) <==> IndexBelow(k, n)
  {
    if IndexBelow(k, n) {
      var i :| 0 <= i < n && k == IndexSegment(i);
      assert Indexes(n)[i] == k;
    }
  }

  /** The walk visits every segment of either side once, keys in their sort order and indexes counting up. */
  lemma OrderCovers(isObject: bool, a: seq<Entry>, b: seq<Entry>, unquote: string -> string)
    ensures isObject ==> Sorted(Order(isObject, a, b, unquote))
    ensures !isObject ==> forall i :: 0 <= i < |Order(isObject, a, b, unquote)| ==> Order(isObject, a, b, unquote)[i] == IndexSegment(i)
    ensures Distinct(Order(isObject, a, b, unquote))
    ensures forall k :: k in Order(isObject, a, b, unquote) <==> k in Kids(isObject, a, unquote) || k in Kids(isObject, b, unquote)
  {
    var order := Order(isObject, a, b, unquote);
    if isObject {
      hide Kids, Segments, SortKeys, Less;
      SortKeysSorted(Segments(true, a, unquote) + Segments(true, b, unquote));
      SegmentsAreKids(true, a, unquote);
      SegmentsAreKids(true, b, unquote);
      forall i, j | 0 <= i < j < |order|
        ensures order[i] != order[j]
      {
        LessIrreflexive(order[i]);
      }
    } else {
      hide Kids, IndexSegment, IndexBelow;
      forall k
        ensures k in order <==> k in Kids(isObject, a, unquote) || k in Kids(isObject, b, unquote)
      {
        ArrayKids(a, unquote, k);
        ArrayKids(b, unquote, k);
        IndexesAre(k, Longest(|a|, |b|));
        IndexBelowLongest(k, |a|, |b|);
      }
      forall i, j | 0 <= i < j < |order|
        ensures order[i] != order[j]
      {
        if order[i] == order[j] {
          IndexSegmentInjective(i, j);
        }
      }
    }
  }

  lemma IndexBelowLongest(k: string, m: nat, n: nat)
    ensures IndexBelow(k, Longest(m, n)) <==> IndexBelow(k, m) || IndexBelow(k, n)
  {
    hide IndexSegment;
    if IndexBelow(k, Longest(m, n)) {
      var i :| 0 <= i < Longest(m, n) && k == IndexSegment(i);
    }
    if IndexBelow(k, m) {
      var i :| 0 <= i < m && k == IndexSegment(i);
    }
    if IndexBelow(k, n) {
      var i :| 0 <= i < n && k == IndexSegment(i);
    }
  }

  // ---- the walk --------------------------------------------------------------------------------------------

  function AddedAt(path: seq<string>, text: string): Change {
    Change(path, Added, None, Some(text), None)
  }

  function RemovedAt(path: seq<string>, text: string): Change {
    Change(path, Removed, Some(text), None, None)
  }

  function ChangedAt(path: seq<string>, before: string, after: string): Change {
    Change(path, Changed, Some(before), Some(after), None)
  }

  /** The same changes seen from one level up. */
  function Under(segment: string, cs: seq<Change>): (r: seq<Change>)
    ensures |r| == |cs|
  {
    if cs == [] then [] else [cs[0].(path := [segment] + cs[0].path)] + Under(segment, cs[1..])
  }

  predicate SameShape(a: Node, b: Node) {
    a.Container? && b.Container? && a.isObject == b.isObject
  }

  /** Every change between two subtrees, with paths relative to them. */
  function Diff(a: Option<Node>, b: Option<Node>, unquote: string -> string): seq<Change>
    decreases OptSize(a) + OptSize(b), 1, 0
  {
    if a.None? && b.None? then []
    else if a.None? then [AddedAt([], NodeText(b.value))]
    else if b.None? then [RemovedAt([], NodeText(a.value))]
    else if !SameShape(a.value, b.value) then
      if NodeText(a.value) == NodeText(b.value) then []
      else [ChangedAt([], NodeText(a.value), NodeText(b.value))]
    else
      DiffKids(Order(a.value.isObject, a.value.entries, b.value.entries, unquote),
               NodeKids(a.value, unquote), NodeKids(b.value, unquote), OptSize(a), OptSize(b), unquote)
  }

  function DiffKids(order: seq<string>, ka: map<string, Node>, kb: map<string, Node>, sa: nat, sb: nat,
                    unquote: string -> string): seq<Change>
    requires sa > 0 && sb > 0
    requires (forall k :: k in ka ==> NodeSize(ka[k]) < sa) && (forall k :: k in kb ==> NodeSize(kb[k]) < sb)
    decreases sa + sb, 0, |order|
  {
    if order == [] then []
    else
      Under(order[0], Diff(Get(ka, order[0]), Get(kb, order[0]), unquote)) +
      DiffKids(order[1..], ka, kb, sa, sb, unquote)
  }

  // ---- unchanged leaves -----------------------------------------------------------------------------------------

  function Prefixed(k: string, ps: seq<seq<string>>): (r: seq<seq<string>>)
    ensures |r| == |ps| && forall i :: 0 <= i < |ps| ==> r[i] == [k] + ps[i]
  {
    seq(|ps|, i requires 0 <= i < |ps| => [k] + ps[i])
  }

  /** Where the walk finds a leaf unchanged, in order. */
  function Common(a: Option<Node>, b: Option<Node>, unquote: string -> string): seq<seq<string>>
    decreases OptSize(a) + OptSize(b), 1, 0
  {
    if a.None? || b.None? then []
    else if !SameShape(a.value, b.value) then if NodeText(a.value) == NodeText(b.value) then [[]] else []
    else if a.value.entries == [] && b.value.entries == [] then [[]]
    else
      CommonKids(Order(a.value.isObject, a.value.entries, b.value.entries, unquote),
                 NodeKids(a.value, unquote), NodeKids(b.value, unquote), OptSize(a), OptSize(b), unquote)
  }

  function CommonKids(order: seq<string>, ka: map<string, Node>, kb: map<string, Node>, sa: nat, sb: nat,
                      unquote: string -> string): seq<seq<string>>
    requires sa > 0 && sb > 0
    requires (forall k :: k in ka ==> NodeSize(ka[k]) < sa) && (forall k :: k in kb ==> NodeSize(kb[k]) < sb)
    decreases sa + sb, 0, |order|
  {
    if order == [] then []
    else
      Prefixed(order[0], Common(Get(ka, order[0]), Get(kb, order[0]), unquote)) +
      CommonKids(order[1..], ka, kb, sa, sb, unquote)
  }

  // ---- applying changes --------------------------------------------------------------------------------------

  /** Puts a value at a path, or takes it away. */
  function Put(v: Option<Val>, path: seq<string>, x: Option<Val>): Option<Val>
    decreases |path|
  {
    if path == [] then x
    else if v.None? || v.value.Leaf? then v
    else Some(Branch(v.value.isObject, PutKid(v.value.kids, path[0], Put(Get(v.value.kids, path[0]), path[1..], x))))
  }

  function PutKid(kids: map<string, Val>, k: string, x: Option<Val>): map<string, Val> {
    if x.Some? then kids[k := x.value] else kids - {k}
  }

  /** The value a recorded text denotes. */
  function TextVal(text: Option<string>, unquote: string -> string): Option<Val> {
    if text.None? then None else SemOpt(ParseTree(text.value), unquote)
  }

  function Apply(v: Option<Val>, cs: seq<Change>, unquote: string -> string): Option<Val>
    decreases |cs|
  {
    if cs == [] then v else Apply(Put(v, cs[0].path, TextVal(cs[0].after, unquote)), cs[1..], unquote)
  }

  lemma {:induction false} ApplyConcat(v: Option<Val>, a: seq<Change>, b: seq<Change>, unquote: string -> string)
    ensures Apply(v, a + b, unquote) == Apply(Apply(v, a, unquote), b, unquote)
    decreases |a|
  {
    hide Put, TextVal;
    if a == [] {
      Unit(b);
    } else {
      Cons(a, b);
      ApplyConcat(Put(v, a[0].path, TextVal(a[0].after, unquote)), a[1..], b, unquote);
    }
  }

  lemma PutUnder(isObject: bool, kids: map<string, Val>, k: string, path: seq<string>, x: Option<Val>)
    ensures Put(Some(Branch(isObject, kids)), [k] + path, x)
         == Some(Branch(isObject, PutKid(kids, k, Put(Get(kids, k), path, x))))
  {
    Tail(k, path);
  }

  lemma PutKidTwice(kids: map<string, Val>, k: string, x: Option<Val>, y: Option<Val>)
    ensures PutKid(PutKid(kids, k, x), k, y) == PutKid(kids, k, y) && Get(PutKid(kids, k, x), k) == x
  {
  }

  lemma PutKidSame(kids: map<string, Val>, k: string)
    ensures PutKid(kids, k, Get(kids, k)) == kids
  {
  }

  /** Changes under one segment change that child and nothing else. */
  lemma {:induction false} ApplyUnder(isObject: bool, kids: map<string, Val>, k: string, cs: seq<Change>, unquote: string -> string)
    ensures Apply(Some(Branch(isObject, kids)), Under(k, cs), unquote)
         == Some(Branch(isObject, PutKid(kids, k, Apply(Get(kids, k), cs, unquote))))
    decreases |cs|
  {
    hide Put, TextVal, PutKid;
    if cs == [] {
      PutKidSame(kids, k);
    } else {
      var c := cs[0];
      var x := TextVal(c.after, unquote);
      var child := Put(Get(kids, k), c.path, x);
      var under := Under(k, cs);
      assert under[0].path == [k] + c.path && under[0].after == c.after && under[1..] == Under(k, cs[1..]);
      PutUnder(isObject, kids, k, c.path, x);
      ApplyUnder(isObject, PutKid(kids, k, child), k, cs[1..], unquote);
      PutKidTwice(kids, k, child, Apply(child, cs[1..], unquote));
    }
  }

  // ---- the changes turn the first value into the second ----------------------------------------------------------

  lemma TextValOf(n: Node, unquote: string -> string)
    requires WfNode(n)
    ensures TextVal(Some(NodeText(n)), unquote) == Some(Sem(n, unquote))
  {
    hide NodeText, ParseTree, Sem;
    NodeTextRoundTrip(n);
  }

  lemma NodeTextInjective(a: Node, b: Node)
    requires WfNode(a) && WfNode(b) && NodeText(a) == NodeText(b)
    ensures a == b
  {
    hide NodeText, ParseTree;
    NodeTextRoundTrip(a);
    NodeTextRoundTrip(b);
  }

  lemma ApplyOne(v: Option<Val>, c: Change, unquote: string -> string)
    requires c.path == []
    ensures Apply(v, [c], unquote) == TextVal(c.after, unquote)
  {
    hide TextVal;
    assert [c][1..] == [];
  }

  lemma NodeKidsWf(n: Node, unquote: string -> string)
    requires n.Container? && WfNode(n)
    ensures WfKids(NodeKids(n, unquote))
  {
    KidsWf(n.isObject, n.entries, unquote);
  }

  /** Applying the recorded changes to the first value gives the second. */
  lemma {:induction false} DiffApplies(a: Option<Node>, b: Option<Node>, unquote: string -> string)
    requires WfOpt(a) && WfOpt(b)
    ensures Apply(SemOpt(a, unquote), Diff(a, b, unquote), unquote) == SemOpt(b, unquote)
    decreases OptSize(a) + OptSize(b), 1, 0
  {
    if a.Some? && b.Some? && SameShape(a.value, b.value) {
      hide WfNode, Order, NodeKids, NodeSize, Sem, Merged, SemKids, WfKids, Distinct, Apply;
      var ka, kb := NodeKids(a.value, unquote), NodeKids(b.value, unquote);
      var order := Order(a.value.isObject, a.value.entries, b.value.entries, unquote);
      NodeKidsWf(a.value, unquote);
      NodeKidsWf(b.value, unquote);
      OrderCoversKids(a.value, b.value, unquote);
      KidsApply(a.value.isObject, SemKids(ka, unquote), order, ka, kb, OptSize(a), OptSize(b), unquote);
      MergedAll(ka, order, kb, unquote);
      SemBranch(a.value, unquote);
      SemBranch(b.value, unquote);
    } else {
      DiffAppliesLeaf(a, b, unquote);
    }
  }

  lemma SemBranch(n: Node, unquote: string -> string)
    requires n.Container?
    ensures Sem(n, unquote) == Branch(n.isObject, SemKids(NodeKids(n, unquote), unquote))
  {
  }

  lemma OrderCoversKids(a: Node, b: Node, unquote: string -> string)
    requires SameShape(a, b)
    ensures var order := Order(a.isObject, a.entries, b.entries, unquote);
            Distinct(order) && forall k :: k in order <==> k in NodeKids(a, unquote) || k in NodeKids(b, unquote)
  {
    OrderCovers(a.isObject, a.entries, b.entries, unquote);
  }

  lemma DiffAppliesLeaf(a: Option<Node>, b: Option<Node>, unquote: string -> string)
    requires WfOpt(a) && WfOpt(b) && !(a.Some? && b.Some? && SameShape(a.value, b.value))
    ensures Apply(SemOpt(a, unquote), Diff(a, b, unquote), unquote) == SemOpt(b, unquote)
  {
    hide NodeText, Sem, TextVal, WfNode, Put;
    if b.Some? {
      TextValOf(b.value, unquote);
    }
    if a.Some? && b.Some? && NodeText(a.value) == NodeText(b.value) {
      NodeTextInjective(a.value, b.value);
    } else if a.Some? || b.Some? {
      ApplyOne(SemOpt(a, unquote), Diff(a, b, unquote)[0], unquote);
      assert TextVal(None, unquote) == None by { NoText(unquote); }
    }
  }

  lemma NoText(unquote: string -> string)
    ensures TextVal(None, unquote) == None
  {
  }

  /** `kids` with the keys in `order` taken from `other`. */
  function Merged(kids: map<string, Val>, order: seq<string>, other: map<string, Val>): map<string, Val> {
    map k | k in kids.Keys + other.Keys && (if k in order then k in other else k in kids) ::
      if k in order then other[k] else kids[k]
  }

  lemma {:induction false} KidsApply(isObject: bool, kids: map<string, Val>, order: seq<string>, ka: map<string, Node>,
                                     kb: map<string, Node>, sa: nat, sb: nat, unquote: string -> string)
    requires sa > 0 && sb > 0 && WfKids(ka) && WfKids(kb) && Distinct(order)
    requires (forall k :: k in ka ==> NodeSize(ka[k]) < sa) && (forall k :: k in kb ==> NodeSize(kb[k]) < sb)
    requires forall k :: k in order ==> Get(kids, k) == Get(SemKids(ka, unquote), k)
    ensures Apply(Some(Branch(isObject, kids)), DiffKids(order, ka, kb, sa, sb, unquote), unquote)
         == Some(Branch(isObject, Merged(kids, order, SemKids(kb, unquote))))
    decreases sa + sb, 0, |order|
  {
    hide Diff, WfNode, Sem, NodeSize, Under, Merged, SemKids, PutKid, Get, Apply;
    var other := SemKids(kb, unquote);
    if order == [] {
      MergedNone(kids, other);
      ApplyNone(Some(Branch(isObject, kids)), unquote);
    } else {
      var k, rest := order[0], order[1..];
      var cs := Diff(Get(ka, k), Get(kb, k), unquote);
      GetSize(ka, kb, sa, sb, k);
      DiffApplies(Get(ka, k), Get(kb, k), unquote);
      SemGet(ka, k, unquote);
      SemGet(kb, k, unquote);
      ApplyUnder(isObject, kids, k, cs, unquote);
      ApplyConcat(Some(Branch(isObject, kids)), Under(k, cs), DiffKids(rest, ka, kb, sa, sb, unquote), unquote);
      var next := PutKid(kids, k, Get(other, k));
      forall j | j in rest
        ensures Get(next, j) == Get(SemKids(ka, unquote), j)
      {
        PutKidOther(kids, k, Get(other, k), j);
      }
      KidsApply(isObject, next, rest, ka, kb, sa, sb, unquote);
      MergedStep(kids, order, other);
    }
  }

  lemma GetSize(ka: map<string, Node>, kb: map<string, Node>, sa: nat, sb: nat, k: string)
    requires sa > 0 && sb > 0 && WfKids(ka) && WfKids(kb)
    requires (forall k :: k in ka ==> NodeSize(ka[k]) < sa) && (forall k :: k in kb ==> NodeSize(kb[k]) < sb)
    ensures OptSize(Get(ka, k)) + OptSize(Get(kb, k)) < sa + sb && WfOpt(Get(ka, k)) && WfOpt(Get(kb, k))
  {
    hide WfNode, NodeSize;
  }

  lemma SemGet(kids: map<string, Node>, k: string, unquote: string -> string)
    ensures SemOpt(Get(kids, k), unquote) == Get(SemKids(kids, unquote), k)
  {
    hide Sem;
  }

  lemma ApplyNone(v: Option<Val>, unquote: string -> string)
    ensures Apply(v, [], unquote) == v
  {
  }

  lemma PutKidOther(kids: map<string, Val>, k: string, x: Option<Val>, j: string)
    requires j != k
    ensures Get(PutKid(kids, k, x), j) == Get(kids, j)
  {
  }

  lemma MergedNone(kids: map<string, Val>, other: map<string, Val>)
    ensures Merged(kids, [], other) == kids
  {
  }

  lemma MergedStep(kids: map<string, Val>, order: seq<string>, other: map<string, Val>)
    requires order != [] && Distinct(order)
    ensures Merged(PutKid(kids, order[0], Get(other, order[0])), order[1..], other) == Merged(kids, order, other)
  {
    var k, rest := order[0], order[1..];
    assert k !in rest;
    assert forall j :: j in order <==> j == k || j in rest;
  }

  lemma MergedAll(ka: map<string, Node>, order: seq<string>, kb: map<string, Node>, unquote: string -> string)
    requires forall k :: k in order <==> k in ka || k in kb
    ensures Merged(SemKids(ka, unquote), order, SemKids(kb, unquote)) == SemKids(kb, unquote)
  {
    hide Sem;
  }

  // ---- no changes, same meaning ------------------------------------------------------------------------------------

  lemma {:induction false} SameMeansNoChanges(a: Option<Node>, b: Option<Node>, unquote: string -> string)
    requires SemOpt(a, unquote) == SemOpt(b, unquote)
    ensures Diff(a, b, unquote) == []
    decreases OptSize(a) + OptSize(b), 1, 0
  {
    if a.Some? && b.Some? {
      if SameShape(a.value, b.value) {
        hide NodeKids, NodeSize, Sem, SemKids, Order;
        var ka, kb := NodeKids(a.value, unquote), NodeKids(b.value, unquote);
        SemBranch(a.value, unquote);
        SemBranch(b.value, unquote);
        SameKidsNoChanges(Order(a.value.isObject, a.value.entries, b.value.entries, unquote), ka, kb, OptSize(a), OptSize(b), unquote);
      } else {
        assert a.value.Scalar? && b.value.Scalar?;
      }
    }
  }

  lemma {:induction false} SameKidsNoChanges(order: seq<string>, ka: map<string, Node>, kb: map<string, Node>, sa: nat, sb: nat,
                                             unquote: string -> string)
    requires sa > 0 && sb > 0 && SemKids(ka, unquote) == SemKids(kb, unquote)
    requires (forall k :: k in ka ==> NodeSize(ka[k]) < sa) && (forall k :: k in kb ==> NodeSize(kb[k]) < sb)
    ensures DiffKids(order, ka, kb, sa, sb, unquote) == []
    decreases sa + sb, 0, |order|
  {
    if order != [] {
      hide Diff, Sem, NodeSize, SemKids, Get;
      var k := order[0];
      SemGet(ka, k, unquote);
      SemGet(kb, k, unquote);
      GetSmaller(ka, kb, sa, sb, k);
      SameMeansNoChanges(Get(ka, k), Get(kb, k), unquote);
      SameKidsNoChanges(order[1..], ka, kb, sa, sb, unquote);
    }
  }

  lemma GetSmaller(ka: map<string, Node>, kb: map<string, Node>, sa: nat, sb: nat, k: string)
    requires sa > 0 && sb > 0
    requires (forall k :: k in ka ==> NodeSize(ka[k]) < sa) && (forall k :: k in kb ==> NodeSize(kb[k]) < sb)
    ensures OptSize(Get(ka, k)) + OptSize(Get(kb, k)) < sa + sb
  {
    hide NodeSize;
  }

  /** No change is recorded exactly when the two documents mean the same, scalars compared by raw text. */
  lemma NoChangesIffSame(a: Node, b: Node, unquote: string -> string)
    requires WfNode(a) && WfNode(b)
    ensures Diff(Some(a), Some(b), unquote) == [] <==> Sem(a, unquote) == Sem(b, unquote)
  {
    hide Sem, Diff;
    if Diff(Some(a), Some(b), unquote) == [] {
      DiffApplies(Some(a), Some(b), unquote);
    }
    if Sem(a, unquote) == Sem(b, unquote) {
      SameMeansNoChanges(Some(a), Some(b), unquote);
    }
  }

  // ---- the walk as the console runs it ---------------------------------------------------------------------------------

  /** Changes seen from the root, when the subtrees sit at `path`. */
  function At(path: seq<string>, cs: seq<Change>): (r: seq<Change>)
    ensures |r| == |cs|
  {
    if cs == [] then [] else [cs[0].(path := path + cs[0].path)] + At(path, cs[1..])
  }

  lemma {:induction false} AtUnder(path: seq<string>, k: string, cs: seq<Change>)
    ensures At(path, Under(k, cs)) == At(path + [k], cs)
  {
    if cs != [] {
      AtUnder(path, k, cs[1..]);
      assert Under(k, cs)[1..] == Under(k, cs[1..]);
      Append(path, k, cs[0].path);
    }
  }

  lemma {:induction false} AtConcat(path: seq<string>, a: seq<Change>, b: seq<Change>)
    ensures At(path, a + b) == At(path, a) + At(path, b)
  {
    if a == [] {
      Unit(b);
      Unit(At(path, b));
    } else {
      AtConcat(path, a[1..], b);
      Cons(a, b);
      Assoc([a[0].(path := path + a[0].path)], At(path, a[1..]), At(path, b));
    }
  }

  lemma {:induction false} AtRoot(cs: seq<Change>)
    ensures At([], cs) == cs
  {
    if cs != [] {
      AtRoot(cs[1..]);
      Unit(cs[0].path);
      assert cs == [cs[0]] + cs[1..];
    }
  }

  lemma AtOne(path: seq<string>, c: Change)
    requires c.path == []
    ensures At(path, [c]) == [c.(path := path)]
  {
    Unit(path);
    assert [c][1..] == [];
  }

  function AtMost<T>(n: nat, s: seq<T>): seq<T> {
    if |s| <= n then s else s[..n]
  }

  /** Keeps the first `maxLeaves` of all changes seen (`all`) and remembers whether there were others. */
  class Recorder {
    const maxLeaves: nat
    var changes: seq<Change>
    var unchangedLeaves: nat
    var truncated: bool
    ghost var all: seq<Change>

    ghost predicate Valid()
      reads this
    {
      changes == AtMost(maxLeaves, all) && truncated == (|all| > maxLeaves)
    }

    constructor (maxLeaves: nat)
      ensures Valid() && all == [] && unchangedLeaves == 0 && this.maxLeaves == maxLeaves
    {
      this.maxLeaves := maxLeaves;
      changes, unchangedLeaves, truncated, all := [], 0, false, [];
    }

    method Record(c: Change)
      requires Valid()
      modifies this
      ensures Valid() && all == old(all) + [c] && unchangedLeaves == old(unchangedLeaves)
    {
      if |changes| >= maxLeaves {
        truncated := true;
      } else {
        changes := changes + [c];
      }
      all := all + [c];
    }

    method Walk(a: Option<Node>, b: Option<Node>, path: seq<string>, unquote: string -> string)
      requires Valid()
      modifies this
      ensures Valid() && all == old(all) + At(path, Diff(a, b, unquote))
      ensures unchangedLeaves == old(unchangedLeaves) + |Common(a, b, unquote)|
      decreases OptSize(a) + OptSize(b), 1, 0
    {
      hide NodeText, NodeSize, Order, NodeKids, DiffKids, CommonKids;
      if a.None? && b.None? {
        Unit(all);
      } else if a.None? {
        AtOne(path, AddedAt([], NodeText(b.value)));
        Record(AddedAt(path, NodeText(b.value)));
      } else if b.None? {
        AtOne(path, RemovedAt([], NodeText(a.value)));
        Record(RemovedAt(path, NodeText(a.value)));
      } else if !SameShape(a.value, b.value) {
        var l, r := NodeText(a.value), NodeText(b.value);
        if l != r {
          AtOne(path, ChangedAt([], l, r));
          Record(ChangedAt(path, l, r));
        } else {
          Unit(all);
          unchangedLeaves := unchangedLeaves + 1;
        }
      } else if a.value.entries == [] && b.value.entries == [] {
        NothingBelow(a.value, b.value, unquote);
        AtNothing(path);
        Unit(all);
        unchangedLeaves := unchangedLeaves + 1;
      } else {
        WalkKids(Order(a.value.isObject, a.value.entries, b.value.entries, unquote), NodeKids(a.value, unquote),
                 NodeKids(b.value, unquote), OptSize(a), OptSize(b), path, unquote);
      }
    }

    /** The loop over the keys or indexes of two containers. */
    method WalkKids(order: seq<string>, ka: map<string, Node>, kb: map<string, Node>, ghost sa: nat, ghost sb: nat,
                    path: seq<string>, unquote: string -> string)
      requires Valid() && sa > 0 && sb > 0
      requires (forall k :: k in ka ==> NodeSize(ka[k]) < sa) && (forall k :: k in kb ==> NodeSize(kb[k]) < sb)
      modifies this
      ensures Valid() && all == old(all) + At(path, DiffKids(order, ka, kb, sa, sb, unquote))
      ensures unchangedLeaves == old(unchangedLeaves) + |CommonKids(order, ka, kb, sa, sb, unquote)|
      decreases sa + sb, 0, |order|
    {
      hide NodeSize, DiffKids, Diff, At, Under, Get, Valid, Common, CommonKids;
      ghost var was, first := all, unchangedLeaves;
      CommonKidsNothing(ka, kb, sa, sb, unquote);
      DiffKidsNothing(ka, kb, sa, sb, unquote);
      assert order[0..] == order;
      Unit(At(path, DiffKids(order, ka, kb, sa, sb, unquote)));
      ghost var done: seq<Change> := [];
      Unit(was);
      for j := 0 to |order|
        invariant Valid() && all == was + done
        invariant unchangedLeaves + |CommonKids(order[j..], ka, kb, sa, sb, unquote)| == first + |CommonKids(order, ka, kb, sa, sb, unquote)|
        invariant done + At(path, DiffKids(order[j..], ka, kb, sa, sb, unquote)) == At(path, DiffKids(order, ka, kb, sa, sb, unquote))
      {
        var key := order[j];
        GetSmaller(ka, kb, sa, sb, key);
        Walk(Get(ka, key), Get(kb, key), path + [key], unquote);
        ghost var step := At(path + [key], Diff(Get(ka, key), Get(kb, key), unquote));
        ghost var rest := At(path, DiffKids(order[j + 1..], ka, kb, sa, sb, unquote));
        DiffKidsAt(order, j, path, ka, kb, sa, sb, unquote);
        CommonKidsAt(order, j, ka, kb, sa, sb, unquote);
        Assoc(was, done, step);
        Assoc(done, step, rest);
        done := done + step;
      }
      assert order[|order|..] == [];
      AtNothing(path);
      Unit(done);
    }
  }

  lemma AtNothing(path: seq<string>)
    ensures At(path, []) == []
  {
  }

  lemma NothingBelow(a: Node, b: Node, unquote: string -> string)
    requires SameShape(a, b) && a.entries == [] && b.entries == []
    ensures Diff(Some(a), Some(b), unquote) == []
  {
    assert Order(a.isObject, [], [], unquote) == [];
  }

  lemma CommonKidsNothing(ka: map<string, Node>, kb: map<string, Node>, sa: nat, sb: nat, unquote: string -> string)
    requires sa > 0 && sb > 0
    requires (forall k :: k in ka ==> NodeSize(ka[k]) < sa) && (forall k :: k in kb ==> NodeSize(kb[k]) < sb)
    ensures CommonKids([], ka, kb, sa, sb, unquote) == []
  {
  }

  lemma CommonKidsAt(order: seq<string>, j: nat, ka: map<string, Node>, kb: map<string, Node>, sa: nat, sb: nat, unquote: string -> string)
    requires j < |order| && sa > 0 && sb > 0
    requires (forall k :: k in ka ==> NodeSize(ka[k]) < sa) && (forall k :: k in kb ==> NodeSize(kb[k]) < sb)
    ensures CommonKids(order[j..], ka, kb, sa, sb, unquote) ==
            Prefixed(order[j], Common(Get(ka, order[j]), Get(kb, order[j]), unquote)) + CommonKids(order[j + 1..], ka, kb, sa, sb, unquote)
  {
    hide NodeSize, Common, Get;
    DropTwice(order, j, 1);
  }

  lemma DiffKidsNothing(ka: map<string, Node>, kb: map<string, Node>, sa: nat, sb: nat, unquote: string -> string)
    requires sa > 0 && sb > 0
    requires (forall k :: k in ka ==> NodeSize(ka[k]) < sa) && (forall k :: k in kb ==> NodeSize(kb[k]) < sb)
    ensures DiffKids([], ka, kb, sa, sb, unquote) == []
  {
  }

  lemma DiffKidsAt(order: seq<string>, j: nat, path: seq<string>, ka: map<string, Node>, kb: map<string, Node>, sa: nat, sb: nat,
                   unquote: string -> string)
    requires j < |order| && sa > 0 && sb > 0
    requires (forall k :: k in ka ==> NodeSize(ka[k]) < sa) && (forall k :: k in kb ==> NodeSize(kb[k]) < sb)
    ensures At(path, DiffKids(order[j..], ka, kb, sa, sb, unquote))
         == At(path + [order[j]], Diff(Get(ka, order[j]), Get(kb, order[j]), unquote)) +
            At(path, DiffKids(order[j + 1..], ka, kb, sa, sb, unquote))
  {
    hide NodeSize, Diff, At, Under, Get;
    var k := order[j];
    var cs, rest := Diff(Get(ka, k), Get(kb, k), unquote), DiffKids(order[j + 1..], ka, kb, sa, sb, unquote);
    DropTwice(order, j, 1);
    assert DiffKids(order[j..], ka, kb, sa, sb, unquote) == Under(k, cs) + rest;
    AtConcat(path, Under(k, cs), rest);
    AtUnder(path, k, cs);
  }
}
