/**
  What a structural diff with its moves says about the two documents is true of them, as long
  as no object repeats a decoded key or has a NUL in one: what is added or changed is what the
  second document has at that path, what is removed or changed is what the first one has, and a
  move has one text, which the first document has where it came from and the second where it
  went (`StructuralDiffTrue`).  No leaf is lost or invented either (`StructuralDiffConserves`).
*/
module MoveTruth {
  import opened Seqs
  import opened Flats
  import opened JsonSyntax
  import opened JsonTree
  import opened ValueDiff
  import opened DiffSides
  import opened Moves
  import opened MoveAccounts
  import opened MovePairs
  import opened MoveShape

  /** Every change between two documents. */
  function AllChanges(a: Node, b: Node, unquote: string -> string): seq<Change> {
    Diff(Some(a), Some(b), unquote)
  }

  // ---- what the structural diff of two documents keeps --------------------------------------------------------------------

  /** A well-formed tree, and a clean one if that is asked for. */
  ghost predicate Good(n: Node, clean: bool, unquote: string -> string) {
    WfNode(n) && (clean ==> CleanNode(n, unquote))
  }

  ghost predicate GoodOpt(n: Option<Node>, clean: bool, unquote: string -> string) {
    n.Some? ==> Good(n.value, clean, unquote)
  }

  ghost predicate GoodKids(m: map<string, Node>, clean: bool, unquote: string -> string) {
    forall k :: k in m ==> Good(m[k], clean, unquote)
  }

  ghost predicate TextOfGood(text: Option<string>, clean: bool, unquote: string -> string) {
    text.Some? ==> exists n :: Good(n, clean, unquote) && text.value == NodeText(n)
  }

  /** A recorded change: not a move, its texts those of good trees. */
  ghost predicate GoodChange(c: Change, clean: bool, unquote: string -> string) {
    c.kind != Moved && TextOfGood(c.before, clean, unquote) && TextOfGood(c.after, clean, unquote)
  }

  ghost predicate GoodChanges(cs: seq<Change>, clean: bool, unquote: string -> string) {
    forall c :: c in cs ==> GoodChange(c, clean, unquote)
  }

  lemma {:induction false} KidsGood(isObject: bool, es: seq<Entry>, clean: bool, unquote: string -> string)
    requires WfEntries(isObject, es) && (clean ==> CleanEntries(es, unquote))
    ensures GoodKids(Kids(isObject, es, unquote), clean, unquote)
    decreases |es|
  {
    if es != [] {
      var k := |es| - 1;
      assert WfEntry(isObject, es[k]) && (clean ==> CleanEntry(es[k], unquote));
      assert Good(es[k].node, clean, unquote);
      hide Good, WfEntry, CleanEntry, Segment;
      KidsGood(isObject, es[..k], clean, unquote);
    }
  }

  lemma GoodText(n: Node, clean: bool, unquote: string -> string)
    requires Good(n, clean, unquote)
    ensures TextOfGood(Some(NodeText(n)), clean, unquote)
  {
  }

  lemma {:induction false} UnderGood(k: string, cs: seq<Change>, clean: bool, unquote: string -> string)
    requires GoodChanges(cs, clean, unquote)
    ensures GoodChanges(Under(k, cs), clean, unquote)
  {
    if cs != [] {
      hide TextOfGood;
      assert GoodChange(cs[0], clean, unquote);
      UnderGood(k, cs[1..], clean, unquote);
    }
  }

  lemma {:induction false} DiffGood(a: Option<Node>, b: Option<Node>, clean: bool, unquote: string -> string)
    requires GoodOpt(a, clean, unquote) && GoodOpt(b, clean, unquote)
    ensures GoodChanges(Diff(a, b, unquote), clean, unquote)
    decreases OptSize(a) + OptSize(b), 1, 0
  {
    if a.Some? && b.Some? && SameShape(a.value, b.value) {
      assert GoodKids(NodeKids(a.value, unquote), clean, unquote) by {
        hide Segment;
        KidsGood(a.value.isObject, a.value.entries, clean, unquote);
      }
      assert GoodKids(NodeKids(b.value, unquote), clean, unquote) by {
        hide Segment;
        KidsGood(b.value.isObject, b.value.entries, clean, unquote);
      }
      hide NodeKids, NodeSize, GoodKids, GoodChanges, Order, Good;
      DiffKidsGood(Order(a.value.isObject, a.value.entries, b.value.entries, unquote), NodeKids(a.value, unquote),
                   NodeKids(b.value, unquote), OptSize(a), OptSize(b), clean, unquote);
    } else {
      hide Good, NodeText, TextOfGood, NodeKids, NodeSize, Order, DiffKids;
      NoTextGood(clean, unquote);
      if a.Some? {
        GoodText(a.value, clean, unquote);
      }
      if b.Some? {
        GoodText(b.value, clean, unquote);
      }
    }
  }

  lemma NoTextGood(clean: bool, unquote: string -> string)
    ensures TextOfGood(None, clean, unquote)
  {
  }

  lemma {:induction false} DiffKidsGood(order: seq<string>, ka: map<string, Node>, kb: map<string, Node>, sa: nat, sb: nat, clean: bool,
                                        unquote: string -> string)
    requires sa > 0 && sb > 0 && GoodKids(ka, clean, unquote) && GoodKids(kb, clean, unquote)
    requires (forall k :: k in ka ==> NodeSize(ka[k]) < sa) && (forall k :: k in kb ==> NodeSize(kb[k]) < sb)
    ensures GoodChanges(DiffKids(order, ka, kb, sa, sb, unquote), clean, unquote)
    decreases sa + sb, 0, |order|
  {
    if order != [] {
      hide Good, GoodChange, NodeSize, Diff, Under;
      var k := order[0];
      GetSmaller(ka, kb, sa, sb, k);
      DiffGood(Get(ka, k), Get(kb, k), clean, unquote);
      UnderGood(k, Diff(Get(ka, k), Get(kb, k), unquote), clean, unquote);
      DiffKidsGood(order[1..], ka, kb, sa, sb, clean, unquote);
    }
  }

  lemma GoodTree(text: Option<string>, clean: bool, unquote: string -> string)
    requires TextOfGood(text, clean, unquote)
    ensures TreeWf(text) && (clean ==> CleanText(text, unquote))
  {
    if text.Some? {
      var n :| Good(n, clean, unquote) && text.value == NodeText(n);
      hide NodeText, WfNode, CleanNode, ParseTree, IsSubtreeText;
      NodeTextRoundTrip(n);
    }
  }

  lemma TellsShape(c: Change, a: Option<Node>, b: Option<Node>, unquote: string -> string)
    requires Tells(c, a, b, unquote)
    ensures Shaped(c)
  {
    hide TextAt;
  }

  /**
    The moves a structural diff lists keep the leaves of the changes walked: the leaves added
    for any two well-formed documents, the leaves removed too when neither repeats a decoded
    key in an object nor has a NUL in one.  Changes in place stay as they are.
  */
  lemma StructuralDiffConserves(a: Node, b: Node, maxLeaves: nat, unquote: string -> string)
    requires WfNode(a) && WfNode(b)
    ensures var cs := AtMost(maxLeaves, AllChanges(a, b, unquote));
            Flat(DetectMoves(cs, unquote), InPlace()) == Flat(cs, InPlace()) &&
            Flat(DetectMoves(cs, unquote), Adds(unquote)) == Flat(cs, Adds(unquote)) &&
            (CleanNode(a, unquote) && CleanNode(b, unquote) ==>
               AllRemoved(DetectMoves(cs, unquote), unquote) == AllRemoved(cs, unquote))
  {
    hide WfNode, CleanNode, Diff, DetectMoves, AllRemoved, Flat, TextOfGood, TreeWf, CleanText, Shaped, Tells;
    var cs := AtMost(maxLeaves, AllChanges(a, b, unquote));
    var clean := CleanNode(a, unquote) && CleanNode(b, unquote);
    DiffGood(Some(a), Some(b), clean, unquote);
    forall c | c in cs
      ensures TreeWf(c.before) && TreeWf(c.after) && (clean ==> CleanText(c.before, unquote) && CleanText(c.after, unquote))
      ensures Shaped(c)
    {
      assert c in AllChanges(a, b, unquote);
      ChangesTell(Some(a), Some(b), c, unquote);
      TellsShape(c, Some(a), Some(b), unquote);
      assert GoodChange(c, clean, unquote);
      GoodTree(c.before, clean, unquote);
      GoodTree(c.after, clean, unquote);
    }
    ChangedStay(cs, unquote);
    AddedConserved(cs, unquote);
    if clean {
      CleanKeysApart(cs, unquote);
      RemovedConserved(cs, unquote);
    }
  }

  // ---- what is at a path ------------------------------------------------------------------------------------

  function NodeAt(n: Option<Node>, path: seq<string>, unquote: string -> string): Option<Node>
    decreases |path|
  {
    if n.None? || path == [] then n
    else if n.value.Scalar? then None
    else NodeAt(Get(NodeKids(n.value, unquote), path[0]), path[1..], unquote)
  }

  lemma {:induction false} TextAtIs(n: Option<Node>, path: seq<string>, unquote: string -> string)
    ensures var x := NodeAt(n, path, unquote); TextAt(n, path, unquote) == if x.Some? then Some(NodeText(x.value)) else None
    decreases |path|
  {
    hide NodeText, NodeKids;
    if n.Some? && path != [] && n.value.Container? {
      TextAtIs(Get(NodeKids(n.value, unquote), path[0]), path[1..], unquote);
    }
  }

  lemma {:induction false} NodeAtAppend(n: Option<Node>, p: seq<string>, q: seq<string>, unquote: string -> string)
    ensures NodeAt(n, p + q, unquote) == NodeAt(NodeAt(n, p, unquote), q, unquote)
    decreases |p|
  {
    hide NodeKids;
    if p == [] {
      Unit(q);
    } else if n.Some? && n.value.Container? {
      Cons(p, q);
      NodeAtAppend(Get(NodeKids(n.value, unquote), p[0]), p[1..], q, unquote);
    }
  }

  lemma {:induction false} NodeAtGood(n: Option<Node>, path: seq<string>, unquote: string -> string)
    requires GoodOpt(n, true, unquote)
    ensures GoodOpt(NodeAt(n, path, unquote), true, unquote)
    decreases |path|
  {
    if n.Some? && path != [] && n.value.Container? {
      var x := n.value;
      assert WfEntries(x.isObject, x.entries) && CleanEntries(x.entries, unquote);
      hide WfEntries, CleanEntries, CleanSegments, Kids, Good;
      KidsGood(x.isObject, x.entries, true, unquote);
      NodeAtGood(Get(NodeKids(x, unquote), path[0]), path[1..], unquote);
    }
  }

  lemma {:induction false} KidsAt(isObject: bool, es: seq<Entry>, i: nat, unquote: string -> string)
    requires CleanSegments(isObject, es, unquote) && i < |es|
    ensures Get(Kids(isObject, es, unquote), Segment(isObject, es[i], i, unquote)) == Some(es[i].node)
    decreases |es|
  {
    var k := |es| - 1;
    if i < k {
      SegmentsClean(isObject, es, unquote, i, k);
      assert CleanSegments(isObject, es[..k], unquote);
      hide Segment, CleanSegments;
      KidsAt(isObject, es[..k], i, unquote);
    }
  }

  /** Where the child at index `i` is found. */
  lemma ChildAt(n: Node, i: nat, rel: seq<string>, unquote: string -> string)
    requires n.Container? && CleanNode(n, unquote) && i < |n.entries|
    ensures NodeAt(Some(n), [Segment(n.isObject, n.entries[i], i, unquote)] + rel, unquote) == NodeAt(Some(n.entries[i].node), rel, unquote)
    ensures CleanEntry(n.entries[i], unquote)
  {
    hide Segment, CleanEntry;
    KidsAt(n.isObject, n.entries, i, unquote);
    hide Kids, CleanSegments;
    Tail(Segment(n.isObject, n.entries[i], i, unquote), rel);
  }

  // ---- leaves and parts are found ----------------------------------------------------------------------------------

  lemma {:induction false} LeafAt(n: Node, path: seq<string>, unquote: string -> string, s: Spot) returns (rel: seq<string>)
    requires CleanNode(n, unquote) && s in Leaves(n, path, unquote)
    ensures s.path == path + rel && TextAt(Some(n), rel, unquote) == Some(s.text)
    decreases n, 1
  {
    if IsLeaf(n) {
      rel := [];
      Unit(path);
    } else {
      var i := EntryHolding(n.isObject, n.entries, path, unquote, s);
      var step := Segment(n.isObject, n.entries[i], i, unquote);
      ChildAt(n, i, [], unquote);
      hide Leaves, Segment, CleanNode, NodeText;
      var deep := EntryLeafAt(n.entries[i], path + [step], unquote, s);
      rel := [step] + deep;
      Assoc(path, [step], deep);
      ChildAt(n, i, deep, unquote);
      TextAtIs(Some(n), rel, unquote);
      TextAtIs(Some(n.entries[i].node), deep, unquote);
    }
  }

  lemma {:induction false} EntryLeafAt(e: Entry, path: seq<string>, unquote: string -> string, s: Spot) returns (rel: seq<string>)
    requires CleanEntry(e, unquote) && s in EntryLeaves(e, path, unquote)
    ensures s.path == path + rel && TextAt(Some(e.node), rel, unquote) == Some(s.text)
    decreases e, 0
  {
    rel := LeafAt(e.node, path, unquote, s);
  }

  lemma {:induction false} EntryWithPart(isObject: bool, es: seq<Entry>, path: seq<string>, keys: set<string>, unquote: string -> string, p: Part)
    returns (i: nat)
    requires p in EntriesParts(isObject, es, path, keys, unquote)
    ensures i < |es| && p in EntryParts(es[i], path + [Segment(isObject, es[i], i, unquote)], keys, unquote)
    decreases |es|
  {
    hide EntryParts, Segment;
    var k := |es| - 1;
    if p in EntriesParts(isObject, es[..k], path, keys, unquote) {
      i := EntryWithPart(isObject, es[..k], path, keys, unquote, p);
    } else {
      i := k;
    }
  }

  lemma {:induction false} PartAt(n: Node, path: seq<string>, keys: set<string>, unquote: string -> string, p: Part) returns (rel: seq<string>)
    requires CleanNode(n, unquote) && p in Parts(n, path, keys, unquote)
    ensures p.path == path + rel && TextAt(Some(n), rel, unquote) == Some(NodeText(p.node))
    decreases n, 1
  {
    hide AnyKey, Leaves, NodeText;
    if p.node == n && p.path == path {
      rel := [];
      Unit(path);
    } else {
      var i := EntryWithPart(n.isObject, n.entries, path, keys, unquote, p);
      var step := Segment(n.isObject, n.entries[i], i, unquote);
      ChildAt(n, i, [], unquote);
      hide Parts, Segment, CleanNode;
      var deep := EntryPartAt(n.entries[i], path + [step], keys, unquote, p);
      rel := [step] + deep;
      Assoc(path, [step], deep);
      ChildAt(n, i, deep, unquote);
      TextAtIs(Some(n), rel, unquote);
      TextAtIs(Some(n.entries[i].node), deep, unquote);
    }
  }

  lemma {:induction false} EntryPartAt(e: Entry, path: seq<string>, keys: set<string>, unquote: string -> string, p: Part) returns (rel: seq<string>)
    requires CleanEntry(e, unquote) && p in EntryParts(e, path, keys, unquote)
    ensures p.path == path + rel && TextAt(Some(e.node), rel, unquote) == Some(NodeText(p.node))
    decreases e, 0
  {
    hide NodeText;
    rel := PartAt(e.node, path, keys, unquote, p);
  }

  // ---- texts of a document -------------------------------------------------------------------------------------------

  /** The document has this text at this path. */
  ghost predicate Holds(d: Node, path: seq<string>, text: Option<string>, unquote: string -> string) {
    text.Some? && TextAt(Some(d), path, unquote) == text
  }

  /** The tree read off a text that a document holds is the one it holds there. */
  lemma HeldTree(d: Node, path: seq<string>, text: string, unquote: string -> string)
    requires Good(d, true, unquote) && Holds(d, path, Some(text), unquote) && TextTree(text).Some?
    ensures NodeAt(Some(d), path, unquote) == TextTree(text) && CleanNode(TextTree(text).value, unquote)
  {
    hide NodeText, NodeAt, TextAt, ParseTree, IsSubtreeText, WfNode, CleanNode;
    NodeAtGood(Some(d), path, unquote);
    TextAtIs(Some(d), path, unquote);
    NodeTextRoundTrip(NodeAt(Some(d), path, unquote).value);
  }

  lemma HeldBelow(d: Node, path: seq<string>, x: Node, rel: seq<string>, text: string, unquote: string -> string)
    requires NodeAt(Some(d), path, unquote) == Some(x) && TextAt(Some(x), rel, unquote) == Some(text)
    ensures Holds(d, path + rel, Some(text), unquote)
  {
    hide NodeText, NodeAt, TextAt;
    NodeAtAppend(Some(d), path, rel, unquote);
    TextAtIs(Some(d), path + rel, unquote);
    TextAtIs(Some(x), rel, unquote);
  }

  /** A leaf that may move is held where it is said to be. */
  lemma CandidateHeld(d: Node, path: seq<string>, text: string, unquote: string -> string, s: Spot)
    requires Good(d, true, unquote) && Holds(d, path, Some(text), unquote) && s in Candidates(path, text, unquote)
    ensures Holds(d, s.path, Some(s.text), unquote)
  {
    hide Good, Holds, Leaves, ParseTree, IsSubtreeText, NodeAt;
    if TextTree(text).Some? {
      HeldTree(d, path, text, unquote);
      var rel := LeafAt(TextTree(text).value, path, unquote, s);
      HeldBelow(d, path, TextTree(text).value, rel, s.text, unquote);
    }
  }

  lemma PartHeld(d: Node, path: seq<string>, text: string, keys: set<string>, unquote: string -> string, p: Part)
    requires Good(d, true, unquote) && Holds(d, path, Some(text), unquote)
    requires TextTree(text).Some? && p in Parts(TextTree(text).value, path, keys, unquote)
    ensures Holds(d, p.path, Some(NodeText(p.node)), unquote)
  {
    hide Good, Holds, Parts, TextTree, NodeAt, NodeText;
    HeldTree(d, path, text, unquote);
    var rel := PartAt(TextTree(text).value, path, keys, unquote, p);
    HeldBelow(d, path, TextTree(text).value, rel, NodeText(p.node), unquote);
  }

  // ---- the whole diff ---------------------------------------------------------------------------------------------------

  ghost predicate TrueOf(c: Change, a: Node, b: Node, unquote: string -> string) {
    Shaped(c) && (c.before.Some? ==> Holds(a, if c.kind == Moved then c.fromPath.value else c.path, c.before, unquote)) &&
    (c.after.Some? ==> Holds(b, c.path, c.after, unquote))
  }

  lemma RecordedTrue(c: Change, a: Node, b: Node, unquote: string -> string)
    requires Tells(c, Some(a), Some(b), unquote)
    ensures TrueOf(c, a, b, unquote) && c.kind != Moved
  {
    hide TextAt;
  }

  ghost predicate AllTrue(cs: seq<Change>, a: Node, b: Node, unquote: string -> string) {
    forall c :: c in cs ==> TrueOf(c, a, b, unquote)
  }

  /** The side of a change that a pair is about. */
  lemma SideHeld(c: Change, side: Side, a: Node, b: Node, unquote: string -> string)
    requires TrueOf(c, a, b, unquote) && SideText(c, side).Some?
    ensures Holds(if side == Before then a else b, c.path, SideText(c, side), unquote)
  {
    hide Holds;
  }

  lemma MoveTrue(cs: seq<Change>, a: Node, b: Node, unquote: string -> string, p: Pair)
    requires Good(a, true, unquote) && Good(b, true, unquote) && AllTrue(cs, a, b, unquote)
    requires p in WholePairs(cs) || p in LeafPairs(cs, unquote)
    ensures TrueOf(MoveOf(p), a, b, unquote)
  {
    hide WholePairs, LeafPairs, Good, Holds, SideText, PairedAts, Candidates;
    if p in WholePairs(cs) {
      WholeFits(cs, p);
      SideHeld(cs[p.twin.at], After, a, b, unquote);
      SideHeld(cs[p.source.at], Before, a, b, unquote);
    } else {
      LeafFits(cs, unquote, p);
      var c, d := cs[p.twin.at], cs[p.source.at];
      SideHeld(c, After, a, b, unquote);
      SideHeld(d, Before, a, b, unquote);
      CandidateHeld(b, c.path, SideText(c, After).value, unquote, p.twin.spot);
      CandidateHeld(a, d.path, SideText(d, Before).value, unquote, p.source.spot);
    }
  }

  /** What is not a move in the pieces of a change is that change, or one of its parts. */
  lemma PieceTrue(c: Change, at: nat, whole: seq<Pair>, leaf: seq<Pair>, a: Node, b: Node, unquote: string -> string, m: Change)
    requires Good(a, true, unquote) && Good(b, true, unquote) && TrueOf(c, a, b, unquote) && PieceOk(c, at, whole, leaf, unquote)
    requires m in Piece(c, at, whole, leaf, unquote) && m.kind != Moved
    ensures TrueOf(m, a, b, unquote)
  {
    hide Good, Holds, Flat, Parts, TextTree, IsSource, MoveAt, Origins, Gone, TreeWf, PairedAts, NodeText;
    if m != c {
      var from, keys := Origins(leaf, at), Gone(leaf, at);
      if from != map[] {
        var parts := Parts(OptTree(c.after).value, c.path, from.Keys, unquote);
        FlatMember(parts, ShowAdded(from), m);
        var p :| p in parts && m in ShowAdded(from)(p);
        PartHeld(b, c.path, c.after.value, from.Keys, unquote, p);
      } else {
        var parts := Parts(OptTree(c.before).value, c.path, keys, unquote);
        FlatMember(parts, ShowRemoved, m);
        var p :| p in parts && m in ShowRemoved(p);
        PartHeld(a, c.path, c.before.value, keys, unquote, p);
      }
    }
  }

  /** Every change and every move of a structural diff is true of the two documents. */
  lemma StructuralDiffTrue(a: Node, b: Node, maxLeaves: nat, unquote: string -> string, m: Change)
    requires WfNode(a) && WfNode(b) && CleanNode(a, unquote) && CleanNode(b, unquote)
    requires m in DetectMoves(AtMost(maxLeaves, AllChanges(a, b, unquote)), unquote)
    ensures TrueOf(m, a, b, unquote)
  {
    hide *;
    var cs := AtMost(maxLeaves, AllChanges(a, b, unquote));
    RecordedAll(a, b, maxLeaves, unquote);
    var whole, leaf := WholePairs(cs), LeafPairs(cs, unquote);
    DetectIs(cs, unquote);
    if m.kind == Moved {
      CleanKeysApart(cs, unquote);
      MovesAreThePairs(cs, unquote, m);
      var p :| (p in whole || p in leaf) && m == MoveOf(p);
      MoveTrue(cs, a, b, unquote, p);
    } else {
      PairsFit(cs, unquote);
      InPieces(cs, whole, leaf, unquote, m);
      var at: nat :| InPiece(cs, at, whole, leaf, unquote, m);
      PieceOf(cs, at, whole, leaf, a, b, unquote, m);
      PieceTrue(cs[at], at, whole, leaf, a, b, unquote, m);
    }
  }

  lemma DetectIs(cs: seq<Change>, unquote: string -> string)
    ensures DetectMoves(cs, unquote) == Pieces(cs, WholePairs(cs), LeafPairs(cs, unquote), unquote)
  {
    hide Pieces, WholePairs, LeafPairs;
  }

  lemma PieceOf(cs: seq<Change>, at: nat, whole: seq<Pair>, leaf: seq<Pair>, a: Node, b: Node, unquote: string -> string, m: Change)
    requires InPiece(cs, at, whole, leaf, unquote, m) && AllOk(cs, whole, leaf, unquote) && AllTrue(cs, a, b, unquote)
    ensures at < |cs| && m in Piece(cs[at], at, whole, leaf, unquote) && PieceOk(cs[at], at, whole, leaf, unquote) && TrueOf(cs[at], a, b, unquote)
  {
    hide Piece, PieceOk, TrueOf;
  }

  lemma RecordedAll(a: Node, b: Node, maxLeaves: nat, unquote: string -> string)
    requires WfNode(a) && WfNode(b) && CleanNode(a, unquote) && CleanNode(b, unquote)
    ensures var cs := AtMost(maxLeaves, AllChanges(a, b, unquote));
            Good(a, true, unquote) && Good(b, true, unquote) && AllTrue(cs, a, b, unquote) && TreesWf(cs) && NoMoves(cs) &&
            forall c :: c in cs ==> CleanText(c.before, unquote) && CleanText(c.after, unquote)
  {
    var all := AllChanges(a, b, unquote);
    var cs := AtMost(maxLeaves, all);
    assert Good(a, true, unquote) && Good(b, true, unquote);
    hide WfNode, CleanNode, Diff, TextOfGood, TreeWf, CleanText, TrueOf, Tells, Good;
    DiffGood(Some(a), Some(b), true, unquote);
    forall c | c in cs
      ensures TrueOf(c, a, b, unquote) && TreeWf(c.before) && TreeWf(c.after) && CleanText(c.before, unquote) && CleanText(c.after, unquote)
      ensures c.kind != Moved
    {
      assert c in all;
      ChangesTell(Some(a), Some(b), c, unquote);
      RecordedTrue(c, a, b, unquote);
      assert GoodChange(c, true, unquote);
      GoodTree(c.before, true, unquote);
      GoodTree(c.after, true, unquote);
    }
  }

  /** Between documents without repeated or NUL-holding keys every change listed is true. */
  ghost predicate ChangesTrue(cs: seq<Change>, a: Node, b: Node, unquote: string -> string) {
    CleanNode(a, unquote) && CleanNode(b, unquote) ==> AllTrue(cs, a, b, unquote)
  }

  lemma DiffIsTrue(a: Node, b: Node, maxLeaves: nat, unquote: string -> string)
    requires WfNode(a) && WfNode(b)
    ensures ChangesTrue(DetectMoves(AtMost(maxLeaves, AllChanges(a, b, unquote)), unquote), a, b, unquote)
  {
    hide WfNode, CleanNode, DetectMoves, Diff, TrueOf;
    var cs := DetectMoves(AtMost(maxLeaves, AllChanges(a, b, unquote)), unquote);
    if CleanNode(a, unquote) && CleanNode(b, unquote) {
      forall m | m in cs
        ensures TrueOf(m, a, b, unquote)
      {
        StructuralDiffTrue(a, b, maxLeaves, unquote, m);
      }
    }
  }
}
