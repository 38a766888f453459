/** Which moves are listed, and which documents keep path keys apart. */
module MovePairs {
  import opened Seqs
  import opened Flats
  import opened JsonLex
  import opened JsonGrammar
  import opened JsonSyntax
  import opened JsonTree
  import opened ValueDiff
  import opened Moves
  import opened MoveAccounts

  // ---- the moves are the pairs -------------------------------------------------------------------------------

  ghost predicate InPiece(cs: seq<Change>, at: nat, whole: seq<Pair>, leaf: seq<Pair>, unquote: string -> string, c: Change) {
    at < |cs| && c in Piece(cs[at], at, whole, leaf, unquote)
  }

  lemma InPieceInit(cs: seq<Change>, at: nat, whole: seq<Pair>, leaf: seq<Pair>, unquote: string -> string, c: Change)
    requires cs != []
    ensures InPiece(cs, at, whole, leaf, unquote, c) <==>
            InPiece(cs[..|cs| - 1], at, whole, leaf, unquote, c) ||
            (at == |cs| - 1 && c in Piece(cs[|cs| - 1], |cs| - 1, whole, leaf, unquote))
  {
    hide Piece;
  }

  lemma {:induction false} InPieces(cs: seq<Change>, whole: seq<Pair>, leaf: seq<Pair>, unquote: string -> string, c: Change)
    ensures c in Pieces(cs, whole, leaf, unquote) <==> exists at :: InPiece(cs, at, whole, leaf, unquote, c)
    decreases |cs|
  {
    if cs == [] {
      hide Piece;
    } else {
      hide *;
      var k := |cs| - 1;
      InPieces(cs[..k], whole, leaf, unquote, c);
      UnfoldRun(cs, whole, leaf, Before, unquote);
      InConcat(Pieces(cs[..k], whole, leaf, unquote), Piece(cs[k], k, whole, leaf, unquote), c);
      InPieceInit(cs, k, whole, leaf, unquote, c);
      if c in Pieces(cs[..k], whole, leaf, unquote) {
        var at: nat :| InPiece(cs[..k], at, whole, leaf, unquote, c);
        InPieceInit(cs, at, whole, leaf, unquote, c);
      }
      if at: nat :| InPiece(cs, at, whole, leaf, unquote, c) {
        InPieceInit(cs, at, whole, leaf, unquote, c);
      }
    }
  }

  /** A paired part is a leaf of the tree whose key is among the keys. */
  ghost predicate PartFor(p: Part, s: Spot) {
    p.paired && s == Spot(p.path, NodeText(p.node))
  }

  ghost predicate PartsFor(parts: seq<Part>, spots: seq<Spot>, keys: set<string>) {
    (forall p :: p in parts && p.paired ==> Spot(p.path, NodeText(p.node)) in spots && PathKey(p.path) in keys) &&
    (forall s :: s in spots && PathKey(s.path) in keys ==> exists p :: p in parts && PartFor(p, s))
  }

  lemma PartsForConcat(ps: seq<Part>, ss: seq<Spot>, qs: seq<Part>, ts: seq<Spot>, keys: set<string>)
    requires PartsFor(ps, ss, keys) && PartsFor(qs, ts, keys)
    ensures PartsFor(ps + qs, ss + ts, keys)
  {
    hide PathKey, NodeText;
    forall s | s in ss + ts && PathKey(s.path) in keys
      ensures exists p :: p in ps + qs && PartFor(p, s)
    {
      if s in ss {
        var p :| p in ps && PartFor(p, s);
        assert p in ps + qs;
      } else {
        var p :| p in qs && PartFor(p, s);
        assert p in ps + qs;
      }
    }
  }

  lemma {:induction false} PartsArePaired(n: Node, path: seq<string>, keys: set<string>, unquote: string -> string)
    ensures PartsFor(Parts(n, path, keys, unquote), Leaves(n, path, unquote), keys)
    decreases n, 1
  {
    if AnyKey(Leaves(n, path, unquote), keys) {
      if IsLeaf(n) {
        assert Leaves(n, path, unquote) == [Spot(path, NodeText(n))];
        assert Parts(n, path, keys, unquote) == [Part(n, path, true)];
        hide Leaves, Parts, NodeText, PathKey;
        assert PartFor(Part(n, path, true), Spot(path, NodeText(n)));
        assert Part(n, path, true) in [Part(n, path, true)];
      } else {
        hide PartsFor;
        EntriesArePaired(n.isObject, n.entries, path, keys, unquote);
      }
    } else {
      hide Leaves, PathKey;
    }
  }

  lemma {:induction false} EntriesArePaired(isObject: bool, es: seq<Entry>, path: seq<string>, keys: set<string>,
                                            unquote: string -> string)
    ensures PartsFor(EntriesParts(isObject, es, path, keys, unquote), EntriesLeaves(isObject, es, path, unquote), keys)
    decreases es, 0
  {
    if es != [] {
      var k := |es| - 1;
      var here := path + [Segment(isObject, es[k], k, unquote)];
      hide PartsFor, Segment, EntryParts, EntryLeaves;
      EntriesArePaired(isObject, es[..k], path, keys, unquote);
      EntryIsPaired(es[k], here, keys, unquote);
      PartsForConcat(EntriesParts(isObject, es[..k], path, keys, unquote), EntriesLeaves(isObject, es[..k], path, unquote),
                     EntryParts(es[k], here, keys, unquote), EntryLeaves(es[k], here, unquote), keys);
    }
  }

  lemma {:induction false} EntryIsPaired(e: Entry, path: seq<string>, keys: set<string>, unquote: string -> string)
    ensures PartsFor(EntryParts(e, path, keys, unquote), EntryLeaves(e, path, unquote), keys)
    decreases e, 0
  {
    hide PartsFor;
    PartsArePaired(e.node, path, keys, unquote);
  }

  /** The move a pair stands for. */
  function MoveOf(p: Pair): Change {
    MovedAt(p.twin.spot.path, p.source.spot.path, p.twin.spot.text)
  }

  /** `m` moves the added leaf `s` of a change from where its key comes from. */
  ghost predicate MovesLeaf(m: Change, s: Spot, c: Change, from: map<string, seq<string>>, unquote: string -> string) {
    IsCandidate(s, c, After, unquote) && PathKey(s.path) in from && m == MovedAt(s.path, from[PathKey(s.path)], s.text)
  }

  lemma ScalarPieceMoves(c: Change, from: map<string, seq<string>>, unquote: string -> string, m: Change)
    requires Fits(c, After, from.Keys) && TextTree(c.after.value).None?
    ensures m in AddedPiece(c, from, unquote) <==> exists s :: MovesLeaf(m, s, c, from, unquote)
  {
    hide TextTree, PathKey;
    var here := Spot(c.path, c.after.value);
    assert Candidates(c.path, c.after.value, unquote) == [here];
    assert IsCandidate(here, c, After, unquote);
    assert MovesLeaf(AddedPiece(c, from, unquote)[0], here, c, from, unquote);
    if s :| MovesLeaf(m, s, c, from, unquote) {
      assert s == here;
    }
  }

  lemma TreeCandidate(c: Change, unquote: string -> string, s: Spot)
    requires SideText(c, After).Some? && TextTree(c.after.value).Some?
    ensures IsCandidate(s, c, After, unquote) <==> s in Leaves(TextTree(c.after.value).value, c.path, unquote)
  {
    hide Leaves, ParseTree, IsSubtreeText;
  }

  lemma TreePieceMoves(c: Change, from: map<string, seq<string>>, unquote: string -> string, m: Change)
    requires Fits(c, After, from.Keys) && TextTree(c.after.value).Some? && m.kind == Moved
    ensures m in AddedPiece(c, from, unquote) <==> exists s :: MovesLeaf(m, s, c, from, unquote)
  {
    hide Parts, Leaves, TextTree, NodeText, PathKey, IsCandidate, Flat, IsSubtreeText;
    var tree := OptTree(c.after).value;
    var parts := Parts(tree, c.path, from.Keys, unquote);
    PartsArePaired(tree, c.path, from.Keys, unquote);
    FlatMember(parts, ShowAdded(from), m);
    if m in AddedPiece(c, from, unquote) {
      var p :| p in parts && m in ShowAdded(from)(p);
      TreeCandidate(c, unquote, Spot(p.path, NodeText(p.node)));
      assert MovesLeaf(m, Spot(p.path, NodeText(p.node)), c, from, unquote);
    }
    if s :| MovesLeaf(m, s, c, from, unquote) {
      TreeCandidate(c, unquote, s);
      var p :| p in parts && PartFor(p, s);
      assert m in ShowAdded(from)(p);
    }
  }

  /** The moves listed for a split added change are its leaves whose key has an origin. */
  lemma AddedPieceMoves(c: Change, from: map<string, seq<string>>, unquote: string -> string, m: Change)
    requires Fits(c, After, from.Keys) && m.kind == Moved
    ensures m in AddedPiece(c, from, unquote) <==> exists s :: MovesLeaf(m, s, c, from, unquote)
  {
    assert SideText(c, After).Some?;
    hide AddedPiece, MovesLeaf, TextTree, Fits;
    if TextTree(c.after.value).None? {
      ScalarPieceMoves(c, from, unquote, m);
    } else {
      TreePieceMoves(c, from, unquote, m);
    }
  }

  ghost predicate NoMoves(cs: seq<Change>) {
    forall c :: c in cs ==> c.kind != Moved
  }

  lemma NoMovesRemoved(c: Change, keys: set<string>, unquote: string -> string, m: Change)
    requires m in RemovedPiece(c, keys, unquote)
    ensures m.kind == Removed
  {
    hide Parts, TextTree, NodeText;
    var tree := OptTree(c.before);
    if tree.Some? {
      FlatMember(Parts(tree.value, c.path, keys, unquote), ShowRemoved, m);
    }
  }

  /** An added leaf that has an origin is the twin of a pair, and the origin is its source. */
  lemma OriginIsSource(cs: seq<Change>, at: nat, unquote: string -> string, s: Spot)
    requires KeysApart(cs, unquote) && at < |cs| && IsCandidate(s, cs[at], After, unquote)
    requires PathKey(s.path) in Origins(LeafPairs(cs, unquote), at)
    ensures exists p :: p in LeafPairs(cs, unquote) && p.twin == Found(at, s) &&
                        p.source.spot.path == Origins(LeafPairs(cs, unquote), at)[PathKey(s.path)]
  {
    hide PathKey, LeafPairs, WholePairs, PairedAts, IsCandidate, Origins;
    var leaf := LeafPairs(cs, unquote);
    OriginsMember(leaf, at, PathKey(s.path));
    var p :| p in leaf && TwinKey(p, at, PathKey(s.path)) && p.source.spot.path == Origins(leaf, at)[PathKey(s.path)];
    LeafFits(cs, unquote, p);
    assert SideApart(cs[at], After, unquote);
    assert SameKey(p.twin.spot, s);
  }

  /** A move listed comes from a pair. */
  lemma MoveHasPair(cs: seq<Change>, unquote: string -> string, m: Change, at: nat)
    requires KeysApart(cs, unquote) && NoMoves(cs) && at < |cs| && m.kind == Moved
    requires m in Piece(cs[at], at, WholePairs(cs), LeafPairs(cs, unquote), unquote)
    ensures exists p :: (p in WholePairs(cs) || p in LeafPairs(cs, unquote)) && m == MoveOf(p)
  {
    hide PathKey, LeafPairs, WholePairs, IsCandidate, Origins, Gone, AddedPiece, RemovedPiece, MoveAt, KeysApart, Fits;
    var whole, leaf := WholePairs(cs), LeafPairs(cs, unquote);
    assert cs[at] in cs;
    if MoveAt(whole, at).Some? {
      MoveAtMember(whole, at);
    } else if Origins(leaf, at) != map[] {
      var from := Origins(leaf, at);
      OriginsFit(cs, at, unquote);
      AddedPieceMoves(cs[at], from, unquote, m);
      var s :| MovesLeaf(m, s, cs[at], from, unquote);
      OriginIsSource(cs, at, unquote, s);
    } else if Gone(leaf, at) != {} {
      NoMovesRemoved(cs[at], Gone(leaf, at), unquote, m);
    }
  }

  lemma SamePair<T>(ps: seq<T>, p: T, q: T) returns (i: nat, j: nat)
    requires p in ps && q in ps && p != q
    ensures i < j < |ps| && ((ps[i] == p && ps[j] == q) || (ps[i] == q && ps[j] == p))
  {
    var a: nat :| a < |ps| && ps[a] == p;
    var b: nat :| b < |ps| && ps[b] == q;
    i, j := if a < b then a else b, if a < b then b else a;
  }

  /** A whole pair is listed as a move. */
  lemma WholeIsListed(cs: seq<Change>, unquote: string -> string, p: Pair)
    requires p in WholePairs(cs)
    ensures p.twin.at < |cs| && MoveOf(p) in Piece(cs[p.twin.at], p.twin.at, WholePairs(cs), LeafPairs(cs, unquote), unquote)
  {
    hide LeafPairs, WholePairs, MoveAt, Origins, Gone, AddedPiece, RemovedPiece;
    var whole, at := WholePairs(cs), p.twin.at;
    WholeFits(cs, p);
    MoveAtMember(whole, at);
    var q := MoveAt(whole, at).value;
    if q != p {
      var i, j := SamePair(whole, p, q);
      WholesApart(cs, i, j);
    }
    if r :| r in whole && r.source.at == at {
      WholeFits(cs, r);
    }
  }

  lemma LeafIsListed(cs: seq<Change>, unquote: string -> string, p: Pair)
    requires KeysApart(cs, unquote) && p in LeafPairs(cs, unquote)
    ensures p.twin.at < |cs| && MoveOf(p) in Piece(cs[p.twin.at], p.twin.at, WholePairs(cs), LeafPairs(cs, unquote), unquote)
  {
    hide LeafPairs, WholePairs, MoveAt, Origins, Gone, AddedPiece, RemovedPiece, PairedAts, PathKey, IsCandidate, KeysApart, Fits;
    var whole, leaf, at := WholePairs(cs), LeafPairs(cs, unquote), p.twin.at;
    var key := PathKey(p.twin.spot.path);
    LeafFits(cs, unquote, p);
    InPairedAts(whole, at);
    OriginsMember(leaf, at, key);
    assert TwinKey(p, at, key);
    OriginsFit(cs, at, unquote);
    OriginIsSource(cs, at, unquote, p.twin.spot);
    var q :| q in leaf && q.twin == p.twin && q.source.spot.path == Origins(leaf, at)[key];
    if q != p {
      var i, j := SamePair(leaf, p, q);
      LeavesApart(cs, unquote, i, j);
    }
    AddedPieceMoves(cs[at], Origins(leaf, at), unquote, MoveOf(p));
    assert MovesLeaf(MoveOf(p), p.twin.spot, cs[at], Origins(leaf, at), unquote);
  }

  /**
    The moves listed are exactly the pairs: texts worth pairing that occur once among the
    whole changes of each side, or else once among the leaves of the changes left.
  */
  lemma MovesAreThePairs(cs: seq<Change>, unquote: string -> string, m: Change)
    requires KeysApart(cs, unquote) && NoMoves(cs) && m.kind == Moved
    ensures m in DetectMoves(cs, unquote) <==>
            exists p :: (p in WholePairs(cs) || p in LeafPairs(cs, unquote)) && m == MoveOf(p)
  {
    hide Pieces, Piece, WholePairs, LeafPairs, KeysApart, NoMoves;
    var whole, leaf := WholePairs(cs), LeafPairs(cs, unquote);
    InPieces(cs, whole, leaf, unquote, m);
    if m in DetectMoves(cs, unquote) {
      var at: nat :| InPiece(cs, at, whole, leaf, unquote, m);
      MoveHasPair(cs, unquote, m, at);
    }
    if p :| (p in whole || p in leaf) && m == MoveOf(p) {
      if p in whole {
        WholeIsListed(cs, unquote, p);
      } else {
        LeafIsListed(cs, unquote, p);
      }
      assert InPiece(cs, p.twin.at, whole, leaf, unquote, m);
    }
  }

  // ---- documents that keep path keys apart ----------------------------------------------------------------------

  predicate NulFree(s: string) {
    '\0' !in s
  }

  /** No object repeats a decoded key, and no decoded key holds a NUL character. */
  ghost predicate CleanNode(n: Node, unquote: string -> string)
    decreases n, 1
  {
    n.Container? ==> CleanSegments(n.isObject, n.entries, unquote) && CleanEntries(n.entries, unquote)
  }

  ghost predicate CleanEntries(es: seq<Entry>, unquote: string -> string)
    decreases es, 0
  {
    forall i :: 0 <= i < |es| ==> CleanEntry(es[i], unquote)
  }

  ghost predicate CleanEntry(e: Entry, unquote: string -> string)
    decreases e, 0
  {
    CleanNode(e.node, unquote)
  }

  ghost predicate CleanSegments(isObject: bool, es: seq<Entry>, unquote: string -> string) {
    isObject ==>
      (forall i :: 0 <= i < |es| ==> NulFree(Segment(true, es[i], i, unquote))) &&
      (forall i, j :: 0 <= i < j < |es| ==> Segment(true, es[i], i, unquote) != Segment(true, es[j], j, unquote))
  }

  lemma SegmentsClean(isObject: bool, es: seq<Entry>, unquote: string -> string, i: nat, j: nat)
    requires CleanSegments(isObject, es, unquote) && i < |es| && j < |es|
    ensures NulFree(Segment(isObject, es[i], i, unquote))
    ensures Segment(isObject, es[i], i, unquote) == Segment(isObject, es[j], j, unquote) ==> i == j
  {
    if !isObject {
      IndexNulFree(i);
      if IndexSegment(i) == IndexSegment(j) {
        IndexSegmentInjective(i, j);
      }
    }
  }

  lemma IndexNulFree(i: nat)
    ensures NulFree(IndexSegment(i))
  {
  }

  lemma JoinCons(x: string, rest: seq<string>, sep: string)
    ensures Join([x] + rest, sep) == if rest == [] then x else x + sep + Join(rest, sep)
  {
    Tail(x, rest);
  }

  /** A segment free of NUL can be read back off a path key. */
  lemma ReadSegment(a: string, r: string, b: string, q: string)
    requires NulFree(a) && NulFree(b) && a + r == b + q
    requires (r == "" || r[0] == '\0') && (q == "" || q[0] == '\0')
    ensures a == b
  {
    assert forall i :: 0 <= i < |a| ==> (a + r)[i] == a[i];
    assert forall i :: 0 <= i < |b| ==> (b + q)[i] == b[i];
    assert r != "" ==> (a + r)[|a|] == '\0';
    assert q != "" ==> (b + q)[|b|] == '\0';
    assert |a| == |b|;
  }

  lemma KeyHead(a: string, r: seq<string>, b: string, q: seq<string>)
    requires NulFree(a) && NulFree(b) && PathKey([a] + r) == PathKey([b] + q)
    ensures a == b
  {
    JoinCons(a, r, "\0");
    JoinCons(b, q, "\0");
    hide Join, NulFree;
    var x, y := if r == [] then "" else "\0" + Join(r, "\0"), if q == [] then "" else "\0" + Join(q, "\0");
    Unit(a);
    Unit(b);
    Assoc(a, "\0", Join(r, "\0"));
    Assoc(b, "\0", Join(q, "\0"));
    ReadSegment(a, x, b, y);
  }

  lemma KeyTail(x: string, s: seq<string>, t: seq<string>)
    requires s != [] && t != [] && PathKey([x] + s) == PathKey([x] + t)
    ensures PathKey(s) == PathKey(t)
  {
    JoinCons(x, s, "\0");
    JoinCons(x, t, "\0");
    var pre := x + "\0";
    assert (pre + Join(s, "\0"))[|pre|..] == Join(s, "\0") && (pre + Join(t, "\0"))[|pre|..] == Join(t, "\0");
  }

  lemma {:induction false} KeySegment(path: seq<string>, a: string, r: seq<string>, b: string, q: seq<string>)
    requires NulFree(a) && NulFree(b) && PathKey(path + ([a] + r)) == PathKey(path + ([b] + q))
    ensures a == b
    decreases |path|
  {
    hide PathKey, NulFree;
    if path == [] {
      Unit([a] + r);
      Unit([b] + q);
      KeyHead(a, r, b, q);
    } else {
      var s, t := path[1..] + ([a] + r), path[1..] + ([b] + q);
      assert path + ([a] + r) == [path[0]] + s && path + ([b] + q) == [path[0]] + t;
      KeyTail(path[0], s, t);
      KeySegment(path[1..], a, r, b, q);
    }
  }

  /** Every leaf sits below the path its tree is at. */
  lemma {:induction false} LeavesBelow(n: Node, path: seq<string>, unquote: string -> string, s: Spot)
    requires s in Leaves(n, path, unquote)
    ensures path <= s.path
    decreases n, 1
  {
    if !IsLeaf(n) {
      var i := EntryHolding(n.isObject, n.entries, path, unquote, s);
      EntryBelow(n.entries[i], path + [Segment(n.isObject, n.entries[i], i, unquote)], unquote, s);
    }
  }

  lemma {:induction false} EntryBelow(e: Entry, path: seq<string>, unquote: string -> string, s: Spot)
    requires s in EntryLeaves(e, path, unquote)
    ensures path <= s.path
    decreases e, 0
  {
    LeavesBelow(e.node, path, unquote, s);
  }

  lemma {:induction false} EntryHolding(isObject: bool, es: seq<Entry>, path: seq<string>, unquote: string -> string, s: Spot)
    returns (i: nat)
    requires s in EntriesLeaves(isObject, es, path, unquote)
    ensures i < |es| && s in EntryLeaves(es[i], path + [Segment(isObject, es[i], i, unquote)], unquote)
    decreases |es|
  {
    hide EntryLeaves, Segment;
    var k := |es| - 1;
    if s in EntriesLeaves(isObject, es[..k], path, unquote) {
      i := EntryHolding(isObject, es[..k], path, unquote, s);
    } else {
      i := k;
    }
  }

  lemma {:induction false} CleanApart(n: Node, path: seq<string>, unquote: string -> string, s: Spot, t: Spot)
    requires CleanNode(n, unquote) && s in Leaves(n, path, unquote) && t in Leaves(n, path, unquote)
    requires SameKey(s, t)
    ensures s == t
    decreases n, 1
  {
    if !IsLeaf(n) {
      assert CleanEntries(n.entries, unquote) && CleanSegments(n.isObject, n.entries, unquote);
      assert s in EntriesLeaves(n.isObject, n.entries, path, unquote) && t in EntriesLeaves(n.isObject, n.entries, path, unquote);
      hide Leaves, EntriesLeaves, EntryLeaves, CleanSegments, Segment, PathKey, NulFree;
      var i := EntryHolding(n.isObject, n.entries, path, unquote, s);
      var j := EntryHolding(n.isObject, n.entries, path, unquote, t);
      var a, b := Segment(n.isObject, n.entries[i], i, unquote), Segment(n.isObject, n.entries[j], j, unquote);
      EntryBelow(n.entries[i], path + [a], unquote, s);
      EntryBelow(n.entries[j], path + [b], unquote, t);
      SegmentsClean(n.isObject, n.entries, unquote, i, j);
      SegmentsClean(n.isObject, n.entries, unquote, j, i);
      var p, q := s.path[|path| + 1..], t.path[|path| + 1..];
      BelowSegment(path, a, s.path);
      BelowSegment(path, b, t.path);
      KeySegment(path, a, p, b, q);
      EntryApart(n.entries[i], path + [a], unquote, s, t);
    }
  }

  lemma BelowSegment(path: seq<string>, a: string, s: seq<string>)
    requires path + [a] <= s
    ensures s == path + ([a] + s[|path| + 1..])
  {
    Append(path, a, s[|path| + 1..]);
    Split(s, |path| + 1);
    assert s[..|path| + 1] == path + [a];
  }

  lemma {:induction false} EntryApart(e: Entry, path: seq<string>, unquote: string -> string, s: Spot, t: Spot)
    requires CleanEntry(e, unquote) && s in EntryLeaves(e, path, unquote) && t in EntryLeaves(e, path, unquote)
    requires SameKey(s, t)
    ensures s == t
    decreases e, 0
  {
    CleanApart(e.node, path, unquote, s, t);
  }

  ghost predicate CleanText(text: Option<string>, unquote: string -> string) {
    OptTree(text).Some? ==> CleanNode(OptTree(text).value, unquote)
  }

  /** Changes whose trees have no repeated key and no NUL in a key keep their path keys apart. */
  lemma CleanKeysApart(cs: seq<Change>, unquote: string -> string)
    requires forall c :: c in cs ==> CleanText(c.before, unquote) && CleanText(c.after, unquote)
    ensures KeysApart(cs, unquote)
  {
    forall at, side | 0 <= at < |cs|
      ensures SideApart(cs[at], side, unquote)
    {
      var c := cs[at];
      forall s, t | IsCandidate(s, c, side, unquote) && IsCandidate(t, c, side, unquote) && SameKey(s, t)
        ensures s == t
      {
        var text := SideText(c, side).value;
        hide Leaves, ParseTree, CleanNode, PathKey;
        if TextTree(text).Some? {
          CleanApart(TextTree(text).value, c.path, unquote, s, t);
        }
      }
    }
  }

  // ---- a repeated key loses a leaf --------------------------------------------------------------------------------------

  const K := "\"k\""

  /** `{"k":100,"k":1}`: both entries have the path key of `k`. */
  function Repeated(): Node {
    Container(true, [Entry(Some(K), Scalar(Num, "100")), Entry(Some(K), Scalar(Num, "1"))])
  }

  const A := "\"a\""

  const B := "\"b\""

  /** `{"a":{"k":100,"k":1}}` */
  function LosingBefore(): Node {
    Container(true, [Entry(Some(A), Repeated())])
  }

  /** `{"b":100}` */
  function LosingAfter(): Node {
    Container(true, [Entry(Some(B), Scalar(Num, "100"))])
  }

  /** The object is removed and its first number added elsewhere. */
  function LosingChanges(): seq<Change> {
    [RemovedAt(["a"], NodeText(Repeated())), AddedAt(["b"], "100")]
  }

  lemma RepeatedWf()
    ensures WfNode(Repeated())
  {
    var n := Repeated();
    assert NumberParts("1", 0, 1, 1) && NumberParts("100", 0, 3, 3);
    assert K[1..2] == "k" && "k"[1..] == "";
    assert IsString(K);
    assert WfEntry(true, n.entries[0]) && WfEntry(true, n.entries[1]);
  }

  lemma ContainerTree(n: Node)
    requires WfNode(n) && n.Container?
    ensures TextTree(NodeText(n)) == Some(n) && IsSubtreeText(NodeText(n)) && NodeText(n)[0] == OpenChar(n.isObject)
  {
    assert NodeText(n)[0] == OpenChar(n.isObject);
    assert IsSubtreeText(NodeText(n));
    hide NodeText, ParseTree;
    NodeTextRoundTrip(n);
  }

  lemma HundredText()
    ensures !IsSubtreeText("100") && !TrivialLeafText("100")
  {
  }

  lemma RepeatedText()
    ensures TextTree(NodeText(Repeated())) == Some(Repeated()) && IsSubtreeText(NodeText(Repeated()))
    ensures NodeText(Repeated()) != "100"
  {
    RepeatedWf();
    hide NodeText, TextTree, IsSubtreeText, WfNode;
    ContainerTree(Repeated());
  }

  lemma RepeatedLeaves(unquote: string -> string)
    ensures Leaves(Repeated(), ["a"], unquote) == [Spot(["a", unquote(K)], "100"), Spot(["a", unquote(K)], "1")]
  {
    var es, path := Repeated().entries, ["a", unquote(K)];
    assert ["a"] + [unquote(K)] == path;
    assert EntryLeaves(es[0], path, unquote) == [Spot(path, "100")] && EntryLeaves(es[1], path, unquote) == [Spot(path, "1")];
    assert es[..1] == [es[0]] && [es[0]][..0] == [];
    assert EntriesLeaves(true, [es[0]], ["a"], unquote) == [Spot(path, "100")];
    assert EntriesLeaves(true, es, ["a"], unquote) == [Spot(path, "100")] + [Spot(path, "1")];
  }

  const HUNDRED := Found(1, Spot(["b"], "100"))

  lemma TwoWholes(c: Change, d: Change, side: Side)
    ensures Wholes([c, d], side) == WholeOne(c, 0, side) + WholeOne(d, 1, side)
  {
    hide WholeOne;
    assert [c, d][..1] == [c] && [c][..0] == [];
    assert Wholes([c], side) == Wholes([], side) + WholeOne(c, 0, side);
    Unit(WholeOne(c, 0, side));
  }

  lemma LosingWholes()
    ensures WholePairs(LosingChanges()) == []
  {
    var t := NodeText(Repeated());
    RepeatedText();
    hide NodeText, TextTree, IsSubtreeText, TrivialLeafText, Repeated;
    var c, d, f := RemovedAt(["a"], t), AddedAt(["b"], "100"), Found(0, Spot(["a"], t));
    TwoWholes(c, d, After);
    TwoWholes(c, d, Before);
    assert WholeOne(c, 0, After) == [] && WholeOne(d, 1, After) == [HUNDRED];
    assert WholeOne(c, 0, Before) == [f] && WholeOne(d, 1, Before) == [];
    hide Wholes, WholeOne;
    assert With([f], "100") == [] by { FlatOne(f, TextIs("100")); }
    hide With;
    FlatOne(HUNDRED, PairOf([HUNDRED], [f]));
  }

  lemma LosingInner(unquote: string -> string)
    ensures Inner(LosingChanges(), After, {}, unquote) == [HUNDRED]
    ensures Inner(LosingChanges(), Before, {}, unquote) ==
            [Found(0, Spot(["a", unquote(K)], "100")), Found(0, Spot(["a", unquote(K)], "1"))]
  {
    var t, n := NodeText(Repeated()), Repeated();
    RepeatedText();
    RepeatedLeaves(unquote);
    HundredText();
    hide NodeText, Leaves, ParseTree, IsSubtreeText, Repeated;
    var c, d := RemovedAt(["a"], t), AddedAt(["b"], "100");
    assert PartOne(c, 0, Before, {}, unquote) == Tag(0, Leaves(n, ["a"], unquote));
    assert PartOne(d, 1, After, {}, unquote) == [HUNDRED];
    assert PartOne(c, 0, After, {}, unquote) == [] && PartOne(d, 1, Before, {}, unquote) == [];
    hide PartOne;
    assert [c, d][..1] == [c] && [c][..0] == [];
  }

  lemma WithTwo(x: Found, y: Found, t: string)
    requires x.spot.text == t && y.spot.text != t
    ensures With([x, y], t) == [x] && With([x], t) == [x]
  {
    FlatOne(x, TextIs(t));
    FlatSnoc([x], y, TextIs(t));
    assert [x, y] == [x] + [y];
  }

  lemma OnePair(x: Found, y: Found)
    requires x.spot.text == "100" && y.spot.text != "100"
    ensures Pairs([HUNDRED], [x, y]) == [Pair(HUNDRED, x)]
  {
    HundredText();
    WithTwo(x, y, "100");
    WithTwo(HUNDRED, y, "100");
    hide With, TrivialLeafText;
    FlatOne(HUNDRED, PairOf([HUNDRED], [x, y]));
  }

  lemma LosingLeafPairs(unquote: string -> string, x: Found, y: Found)
    requires x == Found(0, Spot(["a", unquote(K)], "100")) && y == Found(0, Spot(["a", unquote(K)], "1"))
    ensures PairedAts(WholePairs(LosingChanges())) == {} && LeafPairs(LosingChanges(), unquote) == [Pair(HUNDRED, x)]
  {
    hide WholePairs, Inner, LosingChanges, Pairs;
    LosingWholes();
    LosingInner(unquote);
    assert PairedAts([]) == {};
    OnePair(x, y);
  }

  lemma OneGone(p: Pair)
    ensures Gone([p], p.source.at) == {PathKey(p.source.spot.path)}
  {
    assert [p][..0] == [];
  }

  lemma LosingChangesLose(unquote: string -> string)
    ensures AllRemoved(DetectMoves(LosingChanges(), unquote), unquote) != AllRemoved(LosingChanges(), unquote)
  {
    var cs, path := LosingChanges(), ["a", unquote(K)];
    var x, y := Found(0, Spot(path, "100")), Found(0, Spot(path, "1"));
    LosingWf();
    LosingInner(unquote);
    LosingLeafPairs(unquote, x, y);
    hide WholePairs, LeafPairs, Inner, LosingChanges, DetectMoves, AllRemoved, TreesWf, PathKey, Gone, PairedAts, Origins, Flat;
    var leaf := [Pair(HUNDRED, x)];
    OneGone(leaf[0]);
    assert [x, y] == [x] + [y];
    FlatOne(x, DropOne(leaf));
    FlatSnoc([x], y, DropOne(leaf));
    FlatOne(HUNDRED, EmitOne(leaf));
    assert |Dropped(cs, unquote)| == 2 && |Emitted(cs, unquote)| <= 1;
    RemovedConservedIff(cs, unquote);
    assert |multiset(Dropped(cs, unquote))| == 2 && |multiset(Emitted(cs, unquote))| <= 1;
  }

  lemma LosingWf()
    ensures TreesWf(LosingChanges())
  {
    RepeatedText();
    RepeatedWf();
    HundredText();
    hide NodeText, ParseTree, IsSubtreeText, WfNode;
  }

  lemma LosingOrder(unquote: string -> string)
    requires unquote(A) == "a" && unquote(B) == "b"
    ensures Order(true, LosingBefore().entries, LosingAfter().entries, unquote) == ["a", "b"]
    ensures NodeKids(LosingBefore(), unquote) == map["a" := Repeated()] && NodeKids(LosingAfter(), unquote) == map["b" := Scalar(Num, "100")]
  {
    hide Repeated;
    var x, y := LosingBefore().entries[0], LosingAfter().entries[0];
    assert [x][..0] == [] && [y][..0] == [];
    assert Segments(true, [x], unquote) == ["a"] && Segments(true, [y], unquote) == ["b"];
    assert ["a"] + ["b"] == ["a", "b"] && ["a", "b"][..1] == ["a"] && ["a"][..0] == [];
    assert SortKeys(["a"]) == ["a"];
    assert SortKeys(["a", "b"]) == Insert("b", ["a"]);
  }

  lemma LosingDiff(unquote: string -> string)
    requires unquote(A) == "a" && unquote(B) == "b"
    ensures Diff(Some(LosingBefore()), Some(LosingAfter()), unquote) == LosingChanges()
  {
    LosingOrder(unquote);
    var a, b := LosingBefore(), LosingAfter();
    var ka, kb, sa, sb := NodeKids(a, unquote), NodeKids(b, unquote), OptSize(Some(a)), OptSize(Some(b));
    assert sa > 0 && sb > 0;
    hide NodeText, Repeated, Order, NodeKids, NodeSize, Kids;
    assert Diff(Some(Repeated()), None, unquote) == [RemovedAt([], NodeText(Repeated()))];
    assert Diff(None, Some(Scalar(Num, "100")), unquote) == [AddedAt([], NodeText(Scalar(Num, "100")))];
    assert NodeText(Scalar(Num, "100")) == "100" by { HundredIs(); }
    LosingKids(ka, kb, sa, sb, unquote);
  }

  lemma HundredIs()
    ensures NodeText(Scalar(Num, "100")) == "100"
  {
  }

  lemma UnderOne(segment: string, c: Change)
    requires c.path == []
    ensures Under(segment, [c]) == [c.(path := [segment])]
  {
    assert [c][1..] == [] && [segment] + [] == [segment];
    assert Under(segment, []) == [];
  }

  lemma LosingKids(ka: map<string, Node>, kb: map<string, Node>, sa: nat, sb: nat, unquote: string -> string)
    requires sa > 0 && sb > 0
    requires (forall k :: k in ka ==> NodeSize(ka[k]) < sa) && (forall k :: k in kb ==> NodeSize(kb[k]) < sb)
    requires ka == map["a" := Repeated()] && kb == map["b" := Scalar(Num, "100")]
    requires Diff(Some(Repeated()), None, unquote) == [RemovedAt([], NodeText(Repeated()))]
    requires Diff(None, Some(Scalar(Num, "100")), unquote) == [AddedAt([], "100")]
    ensures DiffKids(["a", "b"], ka, kb, sa, sb, unquote) == LosingChanges()
  {
    hide NodeText, Repeated, NodeSize, Diff;
    assert ["a", "b"][1..] == ["b"] && ["b"][1..] == [];
    assert DiffKids([], ka, kb, sa, sb, unquote) == [];
    UnderOne("b", AddedAt([], "100"));
    UnderOne("a", RemovedAt([], NodeText(Repeated())));
    assert DiffKids(["b"], ka, kb, sa, sb, unquote) == [AddedAt(["b"], "100")];
  }

  /**
    Move detection can lose a removed leaf: between `{"a":{"k":100,"k":1}}` and `{"b":100}` the
    number `1` under the repeated key is no longer listed.
  */
  lemma RepeatedKeyLosesLeaf(unquote: string -> string)
    requires unquote(A) == "a" && unquote(B) == "b"
    ensures var cs := Diff(Some(LosingBefore()), Some(LosingAfter()), unquote);
            AllRemoved(DetectMoves(cs, unquote), unquote) != AllRemoved(cs, unquote)
    ensures ParseTree(NodeText(LosingBefore())) == Some(LosingBefore()) && ParseTree(NodeText(LosingAfter())) == Some(LosingAfter())
  {
    LosingDocuments();
    hide Diff, LosingBefore, LosingAfter, LosingChanges, AllRemoved, DetectMoves, NodeText, ParseTree, WfNode;
    LosingDiff(unquote);
    LosingChangesLose(unquote);
    NodeTextRoundTrip(LosingBefore());
    NodeTextRoundTrip(LosingAfter());
  }

  lemma LosingDocuments()
    ensures WfNode(LosingBefore()) && WfNode(LosingAfter())
  {
    RepeatedWf();
    assert NumberParts("100", 0, 3, 3);
    assert A[1..2] == "a" && "a"[1..] == "" && B[1..2] == "b" && "b"[1..] == "";
    assert IsString(A) && IsString(B);
    hide Repeated;
    assert WfEntry(true, LosingBefore().entries[0]) && WfEntry(true, LosingAfter().entries[0]);
  }
}
