/**
  The shape of a change list after move detection: changes in place stay as they are and in
  order (`ChangedStay`), every change has the texts of its kind (`ShapesKept`), and a branch is
  split into as few parts as its paired leaves allow (`FewestParts`).
*/
module MoveShape {
  import opened Flats
  import opened JsonSyntax
  import opened ValueDiff
  import opened Moves
  import opened MoveAccounts

  // ---- changes in place ----------------------------------------------------------------------------------

  function InPlace(): Change -> seq<Change> {
    (c: Change) => if c.kind == Changed then [c] else []
  }

  /** A change has the texts of its kind; only a move tells where it came from, and it keeps its text. */
  predicate Shaped(c: Change) {
    match c.kind
    case Added => c.before.None? && c.after.Some? && c.fromPath.None?
    case Removed => c.before.Some? && c.after.None? && c.fromPath.None?
    case Changed => c.before.Some? && c.after.Some? && c.fromPath.None?
    case Moved => c.before.Some? && c.after == c.before && c.fromPath.Some?
  }

  ghost predicate AllShaped(cs: seq<Change>) {
    forall c :: c in cs ==> Shaped(c)
  }

  /** Shaped, and not a change in place. */
  ghost predicate Pieced(cs: seq<Change>) {
    forall c :: c in cs ==> Shaped(c) && c.kind != Changed
  }

  lemma ShownPieced(parts: seq<Part>, from: map<string, seq<string>>)
    ensures Pieced(Flat(parts, ShowAdded(from))) && Pieced(Flat(parts, ShowRemoved))
  {
    forall c | c in Flat(parts, ShowAdded(from))
      ensures Shaped(c) && c.kind != Changed
    {
      FlatMember(parts, ShowAdded(from), c);
    }
    forall c | c in Flat(parts, ShowRemoved)
      ensures Shaped(c) && c.kind != Changed
    {
      FlatMember(parts, ShowRemoved, c);
    }
  }

  /** A change in place is left alone, and any other becomes pieces that are none. */
  lemma PieceShape(c: Change, at: nat, whole: seq<Pair>, leaf: seq<Pair>, unquote: string -> string)
    requires PieceOk(c, at, whole, leaf, unquote) && Shaped(c)
    ensures var ps := Piece(c, at, whole, leaf, unquote); AllShaped(ps) && if c.kind == Changed then ps == [c] else Pieced(ps)
  {
    hide Flat, Parts, TextTree, IsSource, MoveAt, Origins, Gone, TreeWf, PairedAts;
    if OptTree(c.after).Some? {
      ShownPieced(Parts(OptTree(c.after).value, c.path, Origins(leaf, at).Keys, unquote), Origins(leaf, at));
    }
    if OptTree(c.before).Some? {
      ShownPieced(Parts(OptTree(c.before).value, c.path, Gone(leaf, at), unquote), map[]);
    }
  }

  lemma PieceInPlace(c: Change, ps: seq<Change>)
    requires if c.kind == Changed then ps == [c] else Pieced(ps)
    ensures Flat(ps, InPlace()) == InPlace()(c)
  {
    if c.kind == Changed {
      FlatOne(c, InPlace());
    } else {
      FlatNone(ps, InPlace());
    }
  }

  lemma {:induction false} PiecesShape(cs: seq<Change>, whole: seq<Pair>, leaf: seq<Pair>, unquote: string -> string)
    requires AllOk(cs, whole, leaf, unquote) && AllShaped(cs)
    ensures var ps := Pieces(cs, whole, leaf, unquote); AllShaped(ps) && Flat(ps, InPlace()) == Flat(cs, InPlace())
    decreases |cs|
  {
    if cs == [] {
      FlatNothing(InPlace());
      NoPieces(whole, leaf, unquote);
    } else {
      var k := |cs| - 1;
      var init, c := cs[..k], cs[k];
      var ps, q := Pieces(init, whole, leaf, unquote), Piece(c, k, whole, leaf, unquote);
      hide *;
      UnfoldRun(cs, whole, leaf, Before, unquote);
      AllOkInit(cs, whole, leaf, unquote);
      ShapedSplit(init, [c]);
      PiecesShape(init, whole, leaf, unquote);
      OneShaped(c);
      PieceShape(c, k, whole, leaf, unquote);
      PieceInPlace(c, q);
      ShapedSplit(ps, q);
      FlatConcat(ps, q, InPlace());
      FlatSnoc(init, c, InPlace());
    }
  }

  lemma NoPieces(whole: seq<Pair>, leaf: seq<Pair>, unquote: string -> string)
    ensures Pieces([], whole, leaf, unquote) == []
  {
  }

  lemma ShapedSplit(a: seq<Change>, b: seq<Change>)
    ensures AllShaped(a + b) <==> AllShaped(a) && AllShaped(b)
  {
    hide Shaped;
    if AllShaped(a + b) {
      assert forall c :: c in a || c in b ==> c in a + b;
    }
  }

  lemma OneShaped(c: Change)
    ensures AllShaped([c]) <==> Shaped(c)
  {
    hide Shaped;
    assert c in [c];
  }

  /** Changes in place stay as they are, in order. */
  lemma ChangedStay(cs: seq<Change>, unquote: string -> string)
    requires TreesWf(cs) && AllShaped(cs)
    ensures Flat(DetectMoves(cs, unquote), InPlace()) == Flat(cs, InPlace())
  {
    hide AllOk, AllShaped, Pieces, WholePairs, LeafPairs, TreesWf, Flat, InPlace;
    PairsFit(cs, unquote);
    PiecesShape(cs, WholePairs(cs), LeafPairs(cs, unquote), unquote);
  }

  /** Every change keeps the texts of its kind, and a move has its origin and its one text. */
  lemma ShapesKept(cs: seq<Change>, unquote: string -> string)
    requires TreesWf(cs) && AllShaped(cs)
    ensures AllShaped(DetectMoves(cs, unquote))
  {
    hide AllOk, AllShaped, Pieces, WholePairs, LeafPairs, TreesWf, Flat, InPlace;
    PairsFit(cs, unquote);
    PiecesShape(cs, WholePairs(cs), LeafPairs(cs, unquote), unquote);
  }

  // ---- as few parts as possible ------------------------------------------------------------------------------

  /** Some way to cut a tree so that every paired leaf is a part of its own. */
  ghost predicate Cuts(parts: seq<Part>, n: Node, path: seq<string>, keys: set<string>, unquote: string -> string)
    decreases n, 1
  {
    (parts == [Part(n, path, false)] && !AnyKey(Leaves(n, path, unquote), keys)) ||
    (parts == [Part(n, path, true)] && IsLeaf(n) && AnyKey(Leaves(n, path, unquote), keys)) ||
    (!IsLeaf(n) && EntriesCut(parts, n.isObject, n.entries, path, keys, unquote))
  }

  ghost predicate EntriesCut(parts: seq<Part>, isObject: bool, es: seq<Entry>, path: seq<string>, keys: set<string>, unquote: string -> string)
    decreases es, 0
  {
    if es == [] then parts == []
    else
      var k := |es| - 1;
      exists i :: 0 <= i <= |parts| && EntriesCut(parts[..i], isObject, es[..k], path, keys, unquote) &&
                  EntryCut(parts[i..], es[k], path + [Segment(isObject, es[k], k, unquote)], keys, unquote)
  }

  ghost predicate EntryCut(parts: seq<Part>, e: Entry, path: seq<string>, keys: set<string>, unquote: string -> string)
    decreases e, 0
  {
    Cuts(parts, e.node, path, keys, unquote)
  }

  /** No way to cut the tree has fewer parts than the one taken, which is one of them. */
  lemma {:induction false} FewestParts(parts: seq<Part>, n: Node, path: seq<string>, keys: set<string>, unquote: string -> string)
    ensures Cuts(Parts(n, path, keys, unquote), n, path, keys, unquote)
    ensures Cuts(parts, n, path, keys, unquote) ==> 1 <= |Parts(n, path, keys, unquote)| <= |parts|
    decreases n, 1
  {
    hide AnyKey, Leaves;
    if !IsLeaf(n) {
      EntriesFewest(parts, n.isObject, n.entries, path, keys, unquote);
    }
  }

  lemma {:induction false} EntriesFewest(parts: seq<Part>, isObject: bool, es: seq<Entry>, path: seq<string>, keys: set<string>, unquote: string -> string)
    ensures EntriesCut(EntriesParts(isObject, es, path, keys, unquote), isObject, es, path, keys, unquote)
    ensures EntriesCut(parts, isObject, es, path, keys, unquote) ==> |es| <= |EntriesParts(isObject, es, path, keys, unquote)| <= |parts|
    decreases es, 0
  {
    if es != [] {
      var k := |es| - 1;
      var at := path + [Segment(isObject, es[k], k, unquote)];
      var a, b := EntriesParts(isObject, es[..k], path, keys, unquote), EntryParts(es[k], at, keys, unquote);
      hide EntryParts, EntryCut, Segment, EntriesParts;
      EntriesFewest([], isObject, es[..k], path, keys, unquote);
      EntryFewest([], es[k], at, keys, unquote);
      assert (a + b)[..|a|] == a && (a + b)[|a|..] == b;
      EntriesPartsSnoc(isObject, es, path, keys, unquote);
      if EntriesCut(parts, isObject, es, path, keys, unquote) {
        var i :| 0 <= i <= |parts| && EntriesCut(parts[..i], isObject, es[..k], path, keys, unquote) && EntryCut(parts[i..], es[k], at, keys, unquote);
        EntriesFewest(parts[..i], isObject, es[..k], path, keys, unquote);
        EntryFewest(parts[i..], es[k], at, keys, unquote);
      }
    }
  }

  lemma EntriesPartsSnoc(isObject: bool, es: seq<Entry>, path: seq<string>, keys: set<string>, unquote: string -> string)
    requires es != []
    ensures var k := |es| - 1;
            EntriesParts(isObject, es, path, keys, unquote) == EntriesParts(isObject, es[..k], path, keys, unquote) +
                                                               EntryParts(es[k], path + [Segment(isObject, es[k], k, unquote)], keys, unquote)
  {
  }

  lemma {:induction false} EntryFewest(parts: seq<Part>, e: Entry, path: seq<string>, keys: set<string>, unquote: string -> string)
    ensures EntryCut(EntryParts(e, path, keys, unquote), e, path, keys, unquote)
    ensures EntryCut(parts, e, path, keys, unquote) ==> 1 <= |EntryParts(e, path, keys, unquote)| <= |parts|
    decreases e, 0
  {
    hide AnyKey, Leaves;
    FewestParts(parts, e.node, path, keys, unquote);
  }
}
