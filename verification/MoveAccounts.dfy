/** What move detection keeps: every leaf added and, path keys apart, every leaf removed. */
module MoveAccounts {
  import opened Seqs
  import opened Flats
  import opened JsonLex
  import opened JsonGrammar
  import opened JsonSyntax
  import opened JsonTree
  import opened ValueDiff
  import opened Moves

  // ---- the accounts ---------------------------------------------------------------------------------------

  function TextSpots(path: seq<string>, text: Option<string>, unquote: string -> string): seq<Spot> {
    if text.Some? then SpotsOf(path, text.value, unquote) else []
  }

  /** The leaves a change adds; a move adds at its path. */
  function Adds(unquote: string -> string): Change -> seq<Spot> {
    (c: Change) => if c.kind == Added || c.kind == Moved then TextSpots(c.path, c.after, unquote) else []
  }

  function Removes(unquote: string -> string): Change -> seq<Spot> {
    (c: Change) => if c.kind == Removed then TextSpots(c.path, c.before, unquote) else []
  }

  /** The leaves a move takes from where they were. */
  function Takes(unquote: string -> string): Change -> seq<Spot> {
    (c: Change) => if c.kind == Moved && c.fromPath.Some? then TextSpots(c.fromPath.value, c.before, unquote) else []
  }

  /** The texts are JSON: one that parses as a tree is a well-formed tree. */
  ghost predicate TreesWf(cs: seq<Change>) {
    forall c :: c in cs ==> TreeWf(c.before) && TreeWf(c.after)
  }

  ghost predicate TreeWf(text: Option<string>) {
    OptTree(text).Some? ==> WfNode(OptTree(text).value)
  }

  // ---- leaves of a printed node --------------------------------------------------------------------------------

  lemma ScalarIsNoSubtree(n: Node)
    requires n.Scalar? && WfNode(n)
    ensures !IsSubtreeText(n.text)
  {
    var l := Lexeme(n.kind, n.text);
    assert LexemeOk(l);
    assert n.text != "";
    if n.kind == Num {
      assert IsNumber(n.text);
    }
  }

  lemma NodeSpots(n: Node, path: seq<string>, unquote: string -> string)
    requires WfNode(n)
    ensures SpotsOf(path, NodeText(n), unquote) == Leaves(n, path, unquote)
  {
    if n.Scalar? {
      ScalarIsNoSubtree(n);
    } else {
      assert NodeText(n)[0] == OpenChar(n.isObject);
      assert IsSubtreeText(NodeText(n));
      hide NodeText, ParseTree, Leaves;
      NodeTextRoundTrip(n);
    }
  }

  // ---- a split subtree --------------------------------------------------------------------------------------------

  function Relocate(from: map<string, seq<string>>): Spot -> seq<Spot> {
    (s: Spot) => if PathKey(s.path) in from then [Spot(from[PathKey(s.path)], s.text)] else []
  }

  function Keep(keys: set<string>): Spot -> seq<Spot> {
    (s: Spot) => if PathKey(s.path) in keys then [] else [s]
  }

  lemma LeafText(n: Node, path: seq<string>, unquote: string -> string)
    requires WfNode(n) && IsLeaf(n)
    ensures SpotsOf(path, NodeText(n), unquote) == [Spot(path, NodeText(n))]
  {
    hide NodeText, SpotsOf;
    NodeSpots(n, path, unquote);
  }

  /** One part of a split added subtree. */
  lemma ShowPart(p: Part, from: map<string, seq<string>>, unquote: string -> string)
    requires WfNode(p.node)
    requires if p.paired then IsLeaf(p.node) && PathKey(p.path) in from else !AnyKey(Leaves(p.node, p.path, unquote), from.Keys)
    ensures Flat(ShowAdded(from)(p), Adds(unquote)) == Leaves(p.node, p.path, unquote)
    ensures Flat(ShowAdded(from)(p), Removes(unquote)) == []
    ensures Flat(ShowAdded(from)(p), Takes(unquote)) == Flat(Leaves(p.node, p.path, unquote), Relocate(from))
  {
    hide NodeText, SpotsOf, Leaves, PathKey, Flat, WfNode;
    var c := ShowAdded(from)(p)[0];
    assert ShowAdded(from)(p) == [c];
    FlatOne(c, Adds(unquote));
    FlatOne(c, Removes(unquote));
    FlatOne(c, Takes(unquote));
    NodeSpots(p.node, p.path, unquote);
    if p.paired {
      LeafText(p.node, p.path, unquote);
      LeafText(p.node, from[PathKey(p.path)], unquote);
      FlatOne(Spot(p.path, NodeText(p.node)), Relocate(from));
    } else {
      FlatNone(Leaves(p.node, p.path, unquote), Relocate(from));
    }
  }

  lemma {:induction false} ShowParts(n: Node, path: seq<string>, from: map<string, seq<string>>, unquote: string -> string)
    requires WfNode(n)
    ensures ShownAs(Flat(Parts(n, path, from.Keys, unquote), ShowAdded(from)), Leaves(n, path, unquote), from, unquote)
    decreases n, 1
  {
    var parts := Parts(n, path, from.Keys, unquote);
    if AnyKey(Leaves(n, path, unquote), from.Keys) && !IsLeaf(n) {
      assert WfEntries(n.isObject, n.entries);
      hide *;
      ShowEntries(n.isObject, n.entries, path, from, unquote);
      SplitParts(n, path, from.Keys, unquote);
    } else {
      var p := parts[0];
      assert p.paired ==> PathKey(p.path) in from by {
        assert p.paired ==> Leaves(n, path, unquote) == [Spot(path, NodeText(n))];
      }
      assert parts == [p];
      hide Parts, Leaves, ShowAdded, Adds, Removes, Takes, PathKey, NodeText, Flat;
      FlatOne(p, ShowAdded(from));
      ShowPart(p, from, unquote);
    }
  }

  lemma SplitParts(n: Node, path: seq<string>, keys: set<string>, unquote: string -> string)
    requires !IsLeaf(n)
    ensures Leaves(n, path, unquote) == EntriesLeaves(n.isObject, n.entries, path, unquote)
    ensures AnyKey(Leaves(n, path, unquote), keys) ==>
              Parts(n, path, keys, unquote) == EntriesParts(n.isObject, n.entries, path, keys, unquote)
  {
  }

  /** The changes `out` stand for the added leaves `spots`, those paired shown as moves. */
  ghost predicate ShownAs(out: seq<Change>, spots: seq<Spot>, from: map<string, seq<string>>, unquote: string -> string) {
    Flat(out, Adds(unquote)) == spots &&
    Flat(out, Removes(unquote)) == [] &&
    Flat(out, Takes(unquote)) == Flat(spots, Relocate(from))
  }

  lemma ShownConcat(a: seq<Change>, s: seq<Spot>, b: seq<Change>, t: seq<Spot>, from: map<string, seq<string>>,
                    unquote: string -> string)
    requires ShownAs(a, s, from, unquote) && ShownAs(b, t, from, unquote)
    ensures ShownAs(a + b, s + t, from, unquote)
  {
    hide Flat, Adds, Removes, Takes, Relocate;
    FlatConcat(a, b, Adds(unquote));
    FlatConcat(a, b, Removes(unquote));
    FlatConcat(a, b, Takes(unquote));
    FlatConcat(s, t, Relocate(from));
  }

  lemma {:induction false} ShowEntries(isObject: bool, es: seq<Entry>, path: seq<string>, from: map<string, seq<string>>,
                                       unquote: string -> string)
    requires WfEntries(isObject, es)
    ensures ShownAs(Flat(EntriesParts(isObject, es, path, from.Keys, unquote), ShowAdded(from)),
                    EntriesLeaves(isObject, es, path, unquote), from, unquote)
    decreases es, 0
  {
    if es != [] {
      var k := |es| - 1;
      var here := path + [Segment(isObject, es[k], k, unquote)];
      assert WfEntry(isObject, es[k]);
      var ps, qs := EntriesParts(isObject, es[..k], path, from.Keys, unquote), EntryParts(es[k], here, from.Keys, unquote);
      assert EntriesParts(isObject, es, path, from.Keys, unquote) == ps + qs;
      assert EntriesLeaves(isObject, es, path, unquote) ==
             EntriesLeaves(isObject, es[..k], path, unquote) + EntryLeaves(es[k], here, unquote);
      hide Flat, ShowAdded, Segment, EntriesParts, EntryParts, EntriesLeaves, EntryLeaves, ShownAs, WfEntry;
      ShowEntries(isObject, es[..k], path, from, unquote);
      ShowEntry(isObject, es[k], here, from, unquote);
      FlatConcat(ps, qs, ShowAdded(from));
      ShownConcat(Flat(ps, ShowAdded(from)), EntriesLeaves(isObject, es[..k], path, unquote),
                  Flat(qs, ShowAdded(from)), EntryLeaves(es[k], here, unquote), from, unquote);
    }
  }

  lemma {:induction false} ShowEntry(isObject: bool, e: Entry, path: seq<string>, from: map<string, seq<string>>,
                                     unquote: string -> string)
    requires WfEntry(isObject, e)
    ensures ShownAs(Flat(EntryParts(e, path, from.Keys, unquote), ShowAdded(from)), EntryLeaves(e, path, unquote), from, unquote)
    decreases e, 0
  {
    hide Flat, ShowAdded, ShownAs;
    ShowParts(e.node, path, from, unquote);
  }

  /** The changes `out` stand for the removed leaves `spots` that did not pair. */
  ghost predicate HiddenAs(out: seq<Change>, spots: seq<Spot>, keys: set<string>, unquote: string -> string) {
    Flat(out, Adds(unquote)) == [] &&
    Flat(out, Removes(unquote)) == Flat(spots, Keep(keys)) &&
    Flat(out, Takes(unquote)) == []
  }

  lemma HiddenConcat(a: seq<Change>, s: seq<Spot>, b: seq<Change>, t: seq<Spot>, keys: set<string>, unquote: string -> string)
    requires HiddenAs(a, s, keys, unquote) && HiddenAs(b, t, keys, unquote)
    ensures HiddenAs(a + b, s + t, keys, unquote)
  {
    hide Flat, Adds, Removes, Takes, Keep;
    FlatConcat(a, b, Adds(unquote));
    FlatConcat(a, b, Removes(unquote));
    FlatConcat(a, b, Takes(unquote));
    FlatConcat(s, t, Keep(keys));
  }

  lemma {:induction false} KeepAll(spots: seq<Spot>, keys: set<string>)
    requires !AnyKey(spots, keys)
    ensures Flat(spots, Keep(keys)) == spots
    decreases |spots|
  {
    if spots != [] {
      var k := |spots| - 1;
      assert !AnyKey(spots[..k], keys);
      KeepAll(spots[..k], keys);
      assert spots[k] in spots;
      assert spots == spots[..k] + [spots[k]];
    }
  }

  lemma HidePart(p: Part, keys: set<string>, unquote: string -> string)
    requires WfNode(p.node)
    requires if p.paired then IsLeaf(p.node) && PathKey(p.path) in keys else !AnyKey(Leaves(p.node, p.path, unquote), keys)
    ensures HiddenAs(ShowRemoved(p), Leaves(p.node, p.path, unquote), keys, unquote)
  {
    if p.paired {
      assert Leaves(p.node, p.path, unquote) == [Spot(p.path, NodeText(p.node))];
      hide NodeText, Leaves, PathKey;
      FlatOne(Spot(p.path, NodeText(p.node)), Keep(keys));
      assert ShowRemoved(p) == [];
    } else {
      hide NodeText, SpotsOf, Leaves, PathKey, Flat, WfNode;
      var c := ShowRemoved(p)[0];
      FlatOne(c, Adds(unquote));
      FlatOne(c, Removes(unquote));
      FlatOne(c, Takes(unquote));
      NodeSpots(p.node, p.path, unquote);
      KeepAll(Leaves(p.node, p.path, unquote), keys);
    }
  }

  lemma {:induction false} HideParts(n: Node, path: seq<string>, keys: set<string>, unquote: string -> string)
    requires WfNode(n)
    ensures HiddenAs(Flat(Parts(n, path, keys, unquote), ShowRemoved), Leaves(n, path, unquote), keys, unquote)
    decreases n, 1
  {
    var parts := Parts(n, path, keys, unquote);
    if AnyKey(Leaves(n, path, unquote), keys) && !IsLeaf(n) {
      assert WfEntries(n.isObject, n.entries);
      hide *;
      HideEntries(n.isObject, n.entries, path, keys, unquote);
      SplitParts(n, path, keys, unquote);
    } else {
      var p := parts[0];
      assert p.paired ==> PathKey(p.path) in keys by {
        assert p.paired ==> Leaves(n, path, unquote) == [Spot(path, NodeText(n))];
      }
      assert parts == [p];
      hide Parts, Leaves, ShowRemoved, HiddenAs, PathKey, NodeText, Flat;
      FlatOne(p, ShowRemoved);
      HidePart(p, keys, unquote);
    }
  }

  lemma {:induction false} HideEntries(isObject: bool, es: seq<Entry>, path: seq<string>, keys: set<string>,
                                       unquote: string -> string)
    requires WfEntries(isObject, es)
    ensures HiddenAs(Flat(EntriesParts(isObject, es, path, keys, unquote), ShowRemoved),
                     EntriesLeaves(isObject, es, path, unquote), keys, unquote)
    decreases es, 0
  {
    if es != [] {
      var k := |es| - 1;
      var here := path + [Segment(isObject, es[k], k, unquote)];
      assert WfEntry(isObject, es[k]);
      var ps, qs := EntriesParts(isObject, es[..k], path, keys, unquote), EntryParts(es[k], here, keys, unquote);
      assert EntriesParts(isObject, es, path, keys, unquote) == ps + qs;
      assert EntriesLeaves(isObject, es, path, unquote) ==
             EntriesLeaves(isObject, es[..k], path, unquote) + EntryLeaves(es[k], here, unquote);
      hide Flat, ShowRemoved, Segment, EntriesParts, EntryParts, EntriesLeaves, EntryLeaves, HiddenAs, WfEntry;
      HideEntries(isObject, es[..k], path, keys, unquote);
      HideEntry(isObject, es[k], here, keys, unquote);
      FlatConcat(ps, qs, ShowRemoved);
      HiddenConcat(Flat(ps, ShowRemoved), EntriesLeaves(isObject, es[..k], path, unquote),
                   Flat(qs, ShowRemoved), EntryLeaves(es[k], here, unquote), keys, unquote);
    }
  }

  lemma {:induction false} HideEntry(isObject: bool, e: Entry, path: seq<string>, keys: set<string>, unquote: string -> string)
    requires WfEntry(isObject, e)
    ensures HiddenAs(Flat(EntryParts(e, path, keys, unquote), ShowRemoved), EntryLeaves(e, path, unquote), keys, unquote)
    decreases e, 0
  {
    hide Flat, ShowRemoved, HiddenAs;
    HideParts(e.node, path, keys, unquote);
  }

  // ---- who pairs with whom --------------------------------------------------------------------------------------

  lemma WithMember(fs: seq<Found>, t: string, f: Found)
    ensures f in With(fs, t) <==> f in fs && f.spot.text == t
  {
    FlatMember(fs, TextIs(t), f);
    if f in fs && f.spot.text == t {
      assert f in TextIs(t)(f);
    }
  }

  /** A pair is a text worth pairing that occurs once on each side. */
  ghost predicate Matches(p: Pair, added: seq<Found>, removed: seq<Found>) {
    var t := p.twin.spot.text;
    p.twin in added && !TrivialLeafText(t) && With(added, t) == [p.twin] && With(removed, t) == [p.source]
  }

  lemma PairsIff(added: seq<Found>, removed: seq<Found>, p: Pair)
    ensures p in Pairs(added, removed) <==> Matches(p, added, removed)
  {
    hide TrivialLeafText, With;
    FlatMember(added, PairOf(added, removed), p);
    var t := p.twin.spot.text;
    WithMember(added, t, p.twin);
    if p in Pairs(added, removed) {
      var f :| f in added && p in PairOf(added, removed)(f);
    }
    if Matches(p, added, removed) {
      assert p in PairOf(added, removed)(p.twin);
    }
  }

  lemma PairFacts(added: seq<Found>, removed: seq<Found>, p: Pair)
    requires p in Pairs(added, removed)
    ensures p.twin in added && p.source in removed && p.source.spot.text == p.twin.spot.text
    ensures With(added, p.twin.spot.text) == [p.twin] && With(removed, p.twin.spot.text) == [p.source]
  {
    hide TrivialLeafText, With, Pairs;
    PairsIff(added, removed, p);
    WithMember(removed, p.twin.spot.text, p.source);
  }

  ghost predicate IsWhole(f: Found, cs: seq<Change>, side: Side) {
    f.at < |cs| && SideText(cs[f.at], side) == Some(f.spot.text) && f.spot.path == cs[f.at].path
  }

  lemma {:induction false} WholeMember(cs: seq<Change>, side: Side, f: Found)
    ensures f in Wholes(cs, side) <==> IsWhole(f, cs, side)
    decreases |cs|
  {
    if cs != [] {
      hide SideText;
      WholeMember(cs[..|cs| - 1], side, f);
    }
  }

  ghost predicate IsInner(f: Found, cs: seq<Change>, side: Side, skip: set<nat>, unquote: string -> string) {
    f.at < |cs| && f.at !in skip && IsCandidate(f.spot, cs[f.at], side, unquote)
  }

  ghost predicate IsCandidate(s: Spot, c: Change, side: Side, unquote: string -> string) {
    SideText(c, side).Some? && s in Candidates(c.path, SideText(c, side).value, unquote)
  }

  lemma IsInnerInit(f: Found, cs: seq<Change>, side: Side, skip: set<nat>, unquote: string -> string)
    requires cs != []
    ensures IsInner(f, cs, side, skip, unquote) <==>
            IsInner(f, cs[..|cs| - 1], side, skip, unquote) ||
            (f.at == |cs| - 1 && f.at !in skip && IsCandidate(f.spot, cs[|cs| - 1], side, unquote))
  {
    hide IsCandidate;
  }

  lemma TagMember(at: nat, spots: seq<Spot>, f: Found)
    ensures f in Tag(at, spots) <==> f.at == at && f.spot in spots
  {
    if f.at == at && f.spot in spots {
      var i :| 0 <= i < |spots| && spots[i] == f.spot;
      assert Tag(at, spots)[i] == f;
    }
  }

  lemma {:induction false} InnerMember(cs: seq<Change>, side: Side, skip: set<nat>, unquote: string -> string, f: Found)
    ensures f in Inner(cs, side, skip, unquote) <==> IsInner(f, cs, side, skip, unquote)
    decreases |cs|
  {
    if cs != [] {
      var k := |cs| - 1;
      var last := PartOne(cs[k], k, side, skip, unquote);
      assert Inner(cs, side, skip, unquote) == Inner(cs[..k], side, skip, unquote) + last;
      hide IsCandidate, IsInner, PartOne, Inner;
      IsInnerInit(f, cs, side, skip, unquote);
      InnerMember(cs[..k], side, skip, unquote, f);
      PartMember(cs[k], k, side, skip, unquote, f);
      InConcat(Inner(cs[..k], side, skip, unquote), last, f);
    }
  }

  lemma InConcat<T>(a: seq<T>, b: seq<T>, x: T)
    ensures x in a + b <==> x in a || x in b
  {
  }

  lemma PartMember(c: Change, at: nat, side: Side, skip: set<nat>, unquote: string -> string, f: Found)
    ensures f in PartOne(c, at, side, skip, unquote) <==> f.at == at && at !in skip && IsCandidate(f.spot, c, side, unquote)
  {
    hide SideText, Candidates, Tag;
    if SideText(c, side).Some? {
      TagMember(at, Candidates(c.path, SideText(c, side).value, unquote), f);
    }
  }

  lemma {:induction false} MoveAtMember(pairs: seq<Pair>, at: nat)
    ensures MoveAt(pairs, at).Some? ==> MoveAt(pairs, at).value in pairs && MoveAt(pairs, at).value.twin.at == at
    ensures MoveAt(pairs, at).None? ==> forall p :: p in pairs ==> p.twin.at != at
    decreases |pairs|
  {
    if pairs != [] {
      MoveAtMember(pairs[..|pairs| - 1], at);
      assert pairs == pairs[..|pairs| - 1] + [pairs[|pairs| - 1]];
    }
  }

  ghost predicate TwinKey(p: Pair, at: nat, key: string) {
    p.twin.at == at && PathKey(p.twin.spot.path) == key
  }

  ghost predicate SourceKey(p: Pair, at: nat, key: string) {
    p.source.at == at && PathKey(p.source.spot.path) == key
  }

  lemma {:induction false} OriginsMember(pairs: seq<Pair>, at: nat, key: string)
    ensures key in Origins(pairs, at) <==> exists p :: p in pairs && TwinKey(p, at, key)
    ensures key in Origins(pairs, at) ==>
              exists p :: p in pairs && TwinKey(p, at, key) && p.source.spot.path == Origins(pairs, at)[key]
    decreases |pairs|
  {
    if pairs != [] {
      hide PathKey;
      var k := |pairs| - 1;
      OriginsMember(pairs[..k], at, key);
      assert pairs == pairs[..k] + [pairs[k]];
      assert pairs[k] in pairs;
      if key in Origins(pairs[..k], at) {
        var p :| p in pairs[..k] && TwinKey(p, at, key) && p.source.spot.path == Origins(pairs[..k], at)[key];
        assert p in pairs;
        if !TwinKey(pairs[k], at, key) {
          assert Origins(pairs, at)[key] == Origins(pairs[..k], at)[key];
        }
      }
      if p :| p in pairs && TwinKey(p, at, key) && p != pairs[k] {
        assert p in pairs[..k];
      }
    }
  }

  lemma {:induction false} GoneMember(pairs: seq<Pair>, at: nat, key: string)
    ensures key in Gone(pairs, at) <==> exists p :: p in pairs && SourceKey(p, at, key)
    decreases |pairs|
  {
    if pairs != [] {
      hide PathKey;
      var k := |pairs| - 1;
      GoneMember(pairs[..k], at, key);
      assert pairs == pairs[..k] + [pairs[k]];
      assert pairs[k] in pairs;
      if p :| p in pairs[..k] && SourceKey(p, at, key) {
        assert p in pairs;
      }
      if p :| p in pairs && SourceKey(p, at, key) && p != pairs[k] {
        assert p in pairs[..k];
      }
    }
  }

  // ---- one change ------------------------------------------------------------------------------------------------

  /** What the pairs say about the change at index `at` fits the change. */
  ghost predicate PieceOk(c: Change, at: nat, whole: seq<Pair>, leaf: seq<Pair>, unquote: string -> string) {
    TreeWf(c.before) && TreeWf(c.after) &&
    (IsSource(whole, at) ==> SideText(c, Before).Some?) &&
    (MoveAt(whole, at).Some? ==>
       var p := MoveAt(whole, at).value;
       SideText(c, After) == Some(p.twin.spot.text) && p.twin.spot.path == c.path) &&
    (at in PairedAts(whole) ==> Origins(leaf, at) == map[] && Gone(leaf, at) == {}) &&
    (Origins(leaf, at) != map[] ==> Fits(c, After, Origins(leaf, at).Keys)) &&
    (Gone(leaf, at) != {} ==> Fits(c, Before, Gone(leaf, at)))
  }

  ghost predicate Fits(c: Change, side: Side, keys: set<string>) {
    SideText(c, side).Some? &&
    (TextTree(SideText(c, side).value).None? ==> !IsSubtreeText(SideText(c, side).value) && PathKey(c.path) in keys)
  }

  function AddedText(c: Change, unquote: string -> string): seq<Spot> {
    TextSpots(c.path, SideText(c, After), unquote)
  }

  lemma AddedPieceAccount(c: Change, from: map<string, seq<string>>, unquote: string -> string)
    requires Fits(c, After, from.Keys) && TreeWf(c.after)
    ensures ShownAs(AddedPiece(c, from, unquote), AddedText(c, unquote), from, unquote)
  {
    var tree := OptTree(c.after);
    if tree.Some? {
      hide Flat, Parts, Leaves, ShownAs, TextTree, ShowAdded;
      ShowParts(tree.value, c.path, from, unquote);
    } else {
      var m := AddedPiece(c, from, unquote)[0];
      hide Flat, TextTree;
      FlatOne(m, Adds(unquote));
      FlatOne(m, Removes(unquote));
      FlatOne(m, Takes(unquote));
      FlatOne(Spot(c.path, c.after.value), Relocate(from));
    }
  }

  lemma RemovedPieceAccount(c: Change, keys: set<string>, unquote: string -> string)
    requires Fits(c, Before, keys) && TreeWf(c.before)
    ensures HiddenAs(RemovedPiece(c, keys, unquote), TextSpots(c.path, SideText(c, Before), unquote), keys, unquote)
  {
    var tree := OptTree(c.before);
    if tree.Some? {
      hide Flat, Parts, Leaves, HiddenAs, TextTree;
      HideParts(tree.value, c.path, keys, unquote);
    } else {
      hide TextTree;
      FlatOne(Spot(c.path, c.before.value), Keep(keys));
      assert RemovedPiece(c, keys, unquote) == [];
    }
  }

  lemma RelocateNone(spots: seq<Spot>)
    ensures Flat(spots, Relocate(map[])) == []
  {
    FlatNone(spots, Relocate(map[]));
  }

  lemma PieceAccount(c: Change, at: nat, whole: seq<Pair>, leaf: seq<Pair>, unquote: string -> string)
    requires PieceOk(c, at, whole, leaf, unquote)
    ensures Flat(Piece(c, at, whole, leaf, unquote), Adds(unquote)) == Adds(unquote)(c)
    ensures Flat(Piece(c, at, whole, leaf, unquote), Removes(unquote)) ==
            if IsSource(whole, at) then [] else Flat(Removes(unquote)(c), Keep(Gone(leaf, at)))
    ensures Flat(Piece(c, at, whole, leaf, unquote), Takes(unquote)) ==
            if IsSource(whole, at) then []
            else if MoveAt(whole, at).Some? then
              SpotsOf(MoveAt(whole, at).value.source.spot.path, MoveAt(whole, at).value.twin.spot.text, unquote)
            else Takes(unquote)(c) + Flat(AddedText(c, unquote), Relocate(Origins(leaf, at)))
  {
    hide Flat, SpotsOf, Origins, Gone, MoveAt, PathKey, TextTree, Relocate, Keep, AddedPiece, RemovedPiece, PairedAts;
    var piece := Piece(c, at, whole, leaf, unquote);
    FlatNothing(Adds(unquote));
    FlatNothing(Removes(unquote));
    FlatNothing(Takes(unquote));
    FlatNothing(Keep(Gone(leaf, at)));
    FlatNothing(Relocate(Origins(leaf, at)));
    if IsSource(whole, at) {
    } else if MoveAt(whole, at).Some? {
      FlatOne(piece[0], Adds(unquote));
      FlatOne(piece[0], Removes(unquote));
      FlatOne(piece[0], Takes(unquote));
    } else if Origins(leaf, at) != map[] {
      AddedPieceAccount(c, Origins(leaf, at), unquote);
    } else if Gone(leaf, at) != {} {
      RemovedPieceAccount(c, Gone(leaf, at), unquote);
    } else {
      FlatOne(c, Adds(unquote));
      FlatOne(c, Removes(unquote));
      FlatOne(c, Takes(unquote));
      RelocateNone(AddedText(c, unquote));
      KeepAll(Removes(unquote)(c), {});
    }
  }

  lemma FlatNothing<T, U>(f: T -> seq<U>)
    ensures Flat([], f) == []
  {
  }

  // ---- all changes ---------------------------------------------------------------------------------------------------

  /** Leaves of the changes merged into a move of a whole change. */
  function LoseOne(whole: seq<Pair>, unquote: string -> string): Found -> seq<Spot> {
    (f: Found) => if IsSource(whole, f.at) then SpotsOf(f.spot.path, f.spot.text, unquote) else []
  }

  /** Leaves such a move takes along. */
  function GainOne(whole: seq<Pair>, unquote: string -> string): Found -> seq<Spot> {
    (f: Found) =>
      if MoveAt(whole, f.at).Some? then SpotsOf(MoveAt(whole, f.at).value.source.spot.path, f.spot.text, unquote) else []
  }

  /** Removed leaves no longer listed, because their path key is that of a paired leaf. */
  function DropOne(leaf: seq<Pair>): Found -> seq<Spot> {
    (f: Found) => if PathKey(f.spot.path) in Gone(leaf, f.at) then [f.spot] else []
  }

  /** Added leaves shown as moves, at the place each is said to come from. */
  function EmitOne(leaf: seq<Pair>): Found -> seq<Spot> {
    (f: Found) =>
      if PathKey(f.spot.path) in Origins(leaf, f.at) then [Spot(Origins(leaf, f.at)[PathKey(f.spot.path)], f.spot.text)]
      else []
  }

  lemma TagSnoc(at: nat, spots: seq<Spot>)
    requires spots != []
    ensures Tag(at, spots) == Tag(at, spots[..|spots| - 1]) + [Found(at, spots[|spots| - 1])]
  {
  }

  lemma {:induction false} TagEmit(at: nat, spots: seq<Spot>, leaf: seq<Pair>)
    ensures Flat(Tag(at, spots), EmitOne(leaf)) == Flat(spots, Relocate(Origins(leaf, at)))
    decreases |spots|
  {
    hide PathKey, Tag, Origins;
    if spots != [] {
      TagEmit(at, spots[..|spots| - 1], leaf);
      TagSnoc(at, spots);
      FlatSnoc(Tag(at, spots[..|spots| - 1]), Found(at, spots[|spots| - 1]), EmitOne(leaf));
    }
  }

  /** Kept and dropped leaves are all the leaves. */
  lemma {:induction false} TagDrop(at: nat, spots: seq<Spot>, leaf: seq<Pair>)
    ensures multiset(Flat(spots, Keep(Gone(leaf, at)))) + multiset(Flat(Tag(at, spots), DropOne(leaf))) == multiset(spots)
    decreases |spots|
  {
    if spots == [] {
      FlatNothing(Keep(Gone(leaf, at)));
      FlatNothing(DropOne(leaf));
    } else {
      hide PathKey, Tag, Gone, Flat;
      var k := |spots| - 1;
      var x := spots[k];
      TagDrop(at, spots[..k], leaf);
      TagSnoc(at, spots);
      FlatSnoc(Tag(at, spots[..k]), Found(at, x), DropOne(leaf));
      assert spots == spots[..k] + [x];
      FlatSnoc(spots[..k], x, Keep(Gone(leaf, at)));
      KeepOrDrop(at, x, leaf);
    }
  }

  lemma KeepOrDrop(at: nat, x: Spot, leaf: seq<Pair>)
    ensures multiset(Keep(Gone(leaf, at))(x)) + multiset(DropOne(leaf)(Found(at, x))) == multiset{x}
  {
    hide PathKey, Gone;
  }

  lemma CandidateSpots(c: Change, side: Side, keys: set<string>, unquote: string -> string)
    requires Fits(c, side, keys)
    ensures Candidates(c.path, SideText(c, side).value, unquote) == TextSpots(c.path, SideText(c, side), unquote)
  {
  }

  lemma EmitAccount(c: Change, at: nat, whole: seq<Pair>, leaf: seq<Pair>, unquote: string -> string)
    requires PieceOk(c, at, whole, leaf, unquote)
    ensures Flat(PartOne(c, at, After, PairedAts(whole), unquote), EmitOne(leaf)) ==
            if at in PairedAts(whole) then [] else Flat(AddedText(c, unquote), Relocate(Origins(leaf, at)))
  {
    hide Flat, Candidates, SpotsOf, Tag, Origins, Gone, PairedAts, SideText, TextTree, EmitOne, Relocate, PathKey, IsSubtreeText;
    FlatNothing(EmitOne(leaf));
    FlatNothing(Relocate(Origins(leaf, at)));
    if at !in PairedAts(whole) && SideText(c, After).Some? {
      TagEmit(at, Candidates(c.path, SideText(c, After).value, unquote), leaf);
      if Origins(leaf, at) != map[] {
        CandidateSpots(c, After, Origins(leaf, at).Keys, unquote);
      } else {
        RelocateNone(Candidates(c.path, SideText(c, After).value, unquote));
        RelocateNone(AddedText(c, unquote));
      }
    }
  }

  lemma KeepEverything(spots: seq<Spot>)
    ensures Flat(spots, Keep({})) == spots
  {
    KeepAll(spots, {});
  }

  lemma DropAccount(c: Change, at: nat, whole: seq<Pair>, leaf: seq<Pair>, unquote: string -> string)
    requires PieceOk(c, at, whole, leaf, unquote)
    ensures multiset(Flat(Removes(unquote)(c), Keep(Gone(leaf, at)))) +
            multiset(Flat(PartOne(c, at, Before, PairedAts(whole), unquote), DropOne(leaf))) == multiset(Removes(unquote)(c))
  {
    hide Flat, Candidates, SpotsOf, Tag, Origins, Gone, PairedAts, TextTree, DropOne, Keep, PathKey, IsSubtreeText;
    assert TextSpots(c.path, SideText(c, Before), unquote) == Removes(unquote)(c);
    FlatNothing(DropOne(leaf));
    FlatNothing(Keep(Gone(leaf, at)));
    if at in PairedAts(whole) || SideText(c, Before).None? {
      if at in PairedAts(whole) {
        KeepEverything(Removes(unquote)(c));
      }
    } else {
      var spots := Candidates(c.path, SideText(c, Before).value, unquote);
      TagDrop(at, spots, leaf);
      if Gone(leaf, at) != {} {
        CandidateSpots(c, Before, Gone(leaf, at), unquote);
      } else {
        KeepEverything(spots);
        KeepEverything(Removes(unquote)(c));
      }
    }
  }

  ghost predicate AllOk(cs: seq<Change>, whole: seq<Pair>, leaf: seq<Pair>, unquote: string -> string) {
    forall at :: 0 <= at < |cs| ==> PieceOk(cs[at], at, whole, leaf, unquote)
  }

  lemma InPairedAts(whole: seq<Pair>, at: nat)
    ensures IsSource(whole, at) ==> at in PairedAts(whole)
    ensures MoveAt(whole, at).Some? ==> at in PairedAts(whole)
    ensures at in PairedAts(whole) ==> IsSource(whole, at) || MoveAt(whole, at).Some?
  {
    MoveAtMember(whole, at);
  }

  /** The accounts of one change. */
  lemma StepAdds(c: Change, at: nat, whole: seq<Pair>, leaf: seq<Pair>, unquote: string -> string)
    requires PieceOk(c, at, whole, leaf, unquote)
    ensures Flat(Piece(c, at, whole, leaf, unquote), Adds(unquote)) == Adds(unquote)(c)
  {
    hide *;
    PieceAccount(c, at, whole, leaf, unquote);
  }

  lemma StepRemoves(c: Change, at: nat, whole: seq<Pair>, leaf: seq<Pair>, unquote: string -> string)
    requires PieceOk(c, at, whole, leaf, unquote)
    ensures multiset(Flat(Piece(c, at, whole, leaf, unquote), Removes(unquote))) +
            multiset(Flat(WholeOne(c, at, Before), LoseOne(whole, unquote))) +
            multiset(Flat(PartOne(c, at, Before, PairedAts(whole), unquote), DropOne(leaf))) == multiset(Removes(unquote)(c))
  {
    hide Flat, SpotsOf, Origins, Gone, MoveAt, PairedAts, IsSource, PathKey, TextTree, IsSubtreeText, Relocate, Keep, Piece, PartOne, DropOne, EmitOne;
    PieceAccount(c, at, whole, leaf, unquote);
    DropAccount(c, at, whole, leaf, unquote);
    InPairedAts(whole, at);
    FlatNothing(LoseOne(whole, unquote));
    if SideText(c, Before).Some? {
      FlatOne(Found(at, Spot(c.path, c.before.value)), LoseOne(whole, unquote));
      SourceParts(c, at, whole, leaf, unquote);
    }
  }

  lemma StepTakes(c: Change, at: nat, whole: seq<Pair>, leaf: seq<Pair>, unquote: string -> string)
    requires PieceOk(c, at, whole, leaf, unquote)
    ensures multiset(Takes(unquote)(c)) + multiset(Flat(WholeOne(c, at, After), GainOne(whole, unquote))) +
            multiset(Flat(PartOne(c, at, After, PairedAts(whole), unquote), EmitOne(leaf)))
         == multiset(Flat(Piece(c, at, whole, leaf, unquote), Takes(unquote)))
  {
    hide Flat, SpotsOf, Origins, Gone, MoveAt, PairedAts, IsSource, PathKey, TextTree, IsSubtreeText, Relocate, Keep, Piece, PartOne, DropOne, EmitOne;
    PieceAccount(c, at, whole, leaf, unquote);
    EmitAccount(c, at, whole, leaf, unquote);
    InPairedAts(whole, at);
    FlatNothing(GainOne(whole, unquote));
    RelocateNone(AddedText(c, unquote));
    if SideText(c, After).Some? {
      FlatOne(Found(at, Spot(c.path, c.after.value)), GainOne(whole, unquote));
    }
  }

  lemma SourceParts(c: Change, at: nat, whole: seq<Pair>, leaf: seq<Pair>, unquote: string -> string)
    ensures at in PairedAts(whole) ==> Flat(PartOne(c, at, Before, PairedAts(whole), unquote), DropOne(leaf)) == []
  {
    hide PairedAts;
    FlatNothing(DropOne(leaf));
  }

  lemma AddUp<A, B, C, D, T>(f: A -> seq<T>, g: B -> seq<T>, h: C -> seq<T>, r: D -> seq<T>,
                             a: seq<A>, b: seq<B>, c: seq<C>, d: seq<D>, a': seq<A>, b': seq<B>, c': seq<C>, d': seq<D>)
    requires multiset(Flat(a, f)) + multiset(Flat(b, g)) + multiset(Flat(c, h)) == multiset(Flat(d, r))
    requires multiset(Flat(a', f)) + multiset(Flat(b', g)) + multiset(Flat(c', h)) == multiset(Flat(d', r))
    ensures multiset(Flat(a + a', f)) + multiset(Flat(b + b', g)) + multiset(Flat(c + c', h)) == multiset(Flat(d + d', r))
  {
    hide Flat;
    FlatConcat(a, a', f);
    FlatConcat(b, b', g);
    FlatConcat(c, c', h);
    FlatConcat(d, d', r);
  }

  lemma UnfoldRun(cs: seq<Change>, whole: seq<Pair>, leaf: seq<Pair>, side: Side, unquote: string -> string)
    requires cs != []
    ensures cs == cs[..|cs| - 1] + [cs[|cs| - 1]]
    ensures Pieces(cs, whole, leaf, unquote) ==
            Pieces(cs[..|cs| - 1], whole, leaf, unquote) + Piece(cs[|cs| - 1], |cs| - 1, whole, leaf, unquote)
    ensures Wholes(cs, side) == Wholes(cs[..|cs| - 1], side) + WholeOne(cs[|cs| - 1], |cs| - 1, side)
    ensures Inner(cs, side, PairedAts(whole), unquote) ==
            Inner(cs[..|cs| - 1], side, PairedAts(whole), unquote) +
            PartOne(cs[|cs| - 1], |cs| - 1, side, PairedAts(whole), unquote)
  {
    hide Piece, WholeOne, PartOne, PairedAts;
  }

  lemma AllOkInit(cs: seq<Change>, whole: seq<Pair>, leaf: seq<Pair>, unquote: string -> string)
    requires cs != [] && AllOk(cs, whole, leaf, unquote)
    ensures AllOk(cs[..|cs| - 1], whole, leaf, unquote)
    ensures PieceOk(cs[|cs| - 1], |cs| - 1, whole, leaf, unquote)
  {
    hide PieceOk;
  }

  /** The accounts of any number of changes, for any pairs that fit them. */
  lemma {:induction false} AddsAccount(cs: seq<Change>, whole: seq<Pair>, leaf: seq<Pair>, unquote: string -> string)
    requires AllOk(cs, whole, leaf, unquote)
    ensures Flat(Pieces(cs, whole, leaf, unquote), Adds(unquote)) == Flat(cs, Adds(unquote))
    decreases |cs|
  {
    if cs == [] {
      FlatNothing(Adds(unquote));
    } else {
      var k := |cs| - 1;
      var init, c := cs[..k], cs[k];
      var ps, q := Pieces(init, whole, leaf, unquote), Piece(c, k, whole, leaf, unquote);
      hide *;
      UnfoldRun(cs, whole, leaf, Before, unquote);
      AllOkInit(cs, whole, leaf, unquote);
      AddsAccount(init, whole, leaf, unquote);
      StepAdds(c, k, whole, leaf, unquote);
      FlatConcat(ps, q, Adds(unquote));
      FlatSnoc(init, c, Adds(unquote));
    }
  }

  lemma {:induction false} RemovesAccount(cs: seq<Change>, whole: seq<Pair>, leaf: seq<Pair>, unquote: string -> string)
    requires AllOk(cs, whole, leaf, unquote)
    ensures multiset(Flat(Pieces(cs, whole, leaf, unquote), Removes(unquote))) +
            multiset(Flat(Wholes(cs, Before), LoseOne(whole, unquote))) +
            multiset(Flat(Inner(cs, Before, PairedAts(whole), unquote), DropOne(leaf))) == multiset(Flat(cs, Removes(unquote)))
    decreases |cs|
  {
    var skip := PairedAts(whole);
    if cs == [] {
      FlatNothing(Removes(unquote));
      FlatNothing(LoseOne(whole, unquote));
      FlatNothing(DropOne(leaf));
    } else {
      var k := |cs| - 1;
      var init, c := cs[..k], cs[k];
      var ps, q := Pieces(init, whole, leaf, unquote), Piece(c, k, whole, leaf, unquote);
      var ws, w := Wholes(init, Before), WholeOne(c, k, Before);
      var js, j := Inner(init, Before, skip, unquote), PartOne(c, k, Before, skip, unquote);
      hide *;
      UnfoldRun(cs, whole, leaf, Before, unquote);
      AllOkInit(cs, whole, leaf, unquote);
      RemovesAccount(init, whole, leaf, unquote);
      StepRemoves(c, k, whole, leaf, unquote);
      FlatOne(c, Removes(unquote));
      AddUp(Removes(unquote), LoseOne(whole, unquote), DropOne(leaf), Removes(unquote), ps, ws, js, init, q, w, j, [c]);
    }
  }

  lemma {:induction false} TakesAccount(cs: seq<Change>, whole: seq<Pair>, leaf: seq<Pair>, unquote: string -> string)
    requires AllOk(cs, whole, leaf, unquote)
    ensures multiset(Flat(cs, Takes(unquote))) + multiset(Flat(Wholes(cs, After), GainOne(whole, unquote))) +
            multiset(Flat(Inner(cs, After, PairedAts(whole), unquote), EmitOne(leaf)))
         == multiset(Flat(Pieces(cs, whole, leaf, unquote), Takes(unquote)))
    decreases |cs|
  {
    var skip := PairedAts(whole);
    if cs == [] {
      FlatNothing(Takes(unquote));
      FlatNothing(GainOne(whole, unquote));
      FlatNothing(EmitOne(leaf));
    } else {
      var k := |cs| - 1;
      var init, c := cs[..k], cs[k];
      var ps, q := Pieces(init, whole, leaf, unquote), Piece(c, k, whole, leaf, unquote);
      var ws, w := Wholes(init, After), WholeOne(c, k, After);
      var js, j := Inner(init, After, skip, unquote), PartOne(c, k, After, skip, unquote);
      hide *;
      UnfoldRun(cs, whole, leaf, After, unquote);
      AllOkInit(cs, whole, leaf, unquote);
      TakesAccount(init, whole, leaf, unquote);
      StepTakes(c, k, whole, leaf, unquote);
      FlatOne(c, Takes(unquote));
      AddUp(Takes(unquote), GainOne(whole, unquote), EmitOne(leaf), Takes(unquote), init, ws, js, ps, [c], w, j, q);
    }
  }

  // ---- the pairs found fit the changes ---------------------------------------------------------------------------------

  lemma WholeFits(cs: seq<Change>, p: Pair)
    requires p in WholePairs(cs)
    ensures IsWhole(p.twin, cs, After) && IsWhole(p.source, cs, Before) && p.source.spot.text == p.twin.spot.text
  {
    hide Wholes, Pairs, IsWhole;
    PairFacts(Wholes(cs, After), Wholes(cs, Before), p);
    WholeMember(cs, After, p.twin);
    WholeMember(cs, Before, p.source);
  }

  lemma LeafFits(cs: seq<Change>, unquote: string -> string, p: Pair)
    requires p in LeafPairs(cs, unquote)
    ensures IsInner(p.twin, cs, After, PairedAts(WholePairs(cs)), unquote)
    ensures IsInner(p.source, cs, Before, PairedAts(WholePairs(cs)), unquote)
    ensures p.source.spot.text == p.twin.spot.text
  {
    hide Inner, Pairs, IsInner, PairedAts, WholePairs;
    var skip := PairedAts(WholePairs(cs));
    PairFacts(Inner(cs, After, skip, unquote), Inner(cs, Before, skip, unquote), p);
    InnerMember(cs, After, skip, unquote, p.twin);
    InnerMember(cs, Before, skip, unquote, p.source);
  }

  lemma CandidateFits(c: Change, side: Side, s: Spot, keys: set<string>, unquote: string -> string)
    requires IsCandidate(s, c, side, unquote) && PathKey(s.path) in keys
    ensures Fits(c, side, keys)
  {
  }

  lemma OriginsFit(cs: seq<Change>, at: nat, unquote: string -> string)
    requires at < |cs| && Origins(LeafPairs(cs, unquote), at) != map[]
    ensures at !in PairedAts(WholePairs(cs)) && Fits(cs[at], After, Origins(LeafPairs(cs, unquote), at).Keys)
  {
    hide LeafPairs, WholePairs, PairedAts, Origins, IsCandidate, Fits, PathKey;
    var leaf := LeafPairs(cs, unquote);
    var key :| key in Origins(leaf, at);
    OriginsMember(leaf, at, key);
    var p :| p in leaf && TwinKey(p, at, key);
    LeafFits(cs, unquote, p);
    CandidateFits(cs[at], After, p.twin.spot, Origins(leaf, at).Keys, unquote);
  }

  lemma GoneFit(cs: seq<Change>, at: nat, unquote: string -> string)
    requires at < |cs| && Gone(LeafPairs(cs, unquote), at) != {}
    ensures at !in PairedAts(WholePairs(cs)) && Fits(cs[at], Before, Gone(LeafPairs(cs, unquote), at))
  {
    hide LeafPairs, WholePairs, PairedAts, Gone, IsCandidate, Fits, PathKey;
    var leaf := LeafPairs(cs, unquote);
    var key :| key in Gone(leaf, at);
    GoneMember(leaf, at, key);
    var p :| p in leaf && SourceKey(p, at, key);
    LeafFits(cs, unquote, p);
    CandidateFits(cs[at], Before, p.source.spot, Gone(leaf, at), unquote);
  }

  lemma PairsFit(cs: seq<Change>, unquote: string -> string)
    requires TreesWf(cs)
    ensures AllOk(cs, WholePairs(cs), LeafPairs(cs, unquote), unquote)
  {
    forall at | 0 <= at < |cs|
      ensures PieceOk(cs[at], at, WholePairs(cs), LeafPairs(cs, unquote), unquote)
    {
      PieceFits(cs, at, unquote);
    }
  }

  lemma PieceFits(cs: seq<Change>, at: nat, unquote: string -> string)
    requires TreesWf(cs) && at < |cs|
    ensures PieceOk(cs[at], at, WholePairs(cs), LeafPairs(cs, unquote), unquote)
  {
    hide LeafPairs, WholePairs, PairedAts, Origins, Gone, Fits, TreeWf, MoveAt;
    var whole, leaf := WholePairs(cs), LeafPairs(cs, unquote);
    assert cs[at] in cs;
    if IsSource(whole, at) {
      var p :| p in whole && p.source.at == at;
      WholeFits(cs, p);
    }
    if MoveAt(whole, at).Some? {
      MoveAtMember(whole, at);
      WholeFits(cs, MoveAt(whole, at).value);
    }
    if Origins(leaf, at) != map[] {
      OriginsFit(cs, at, unquote);
    }
    if Gone(leaf, at) != {} {
      GoneFit(cs, at, unquote);
    }
  }

  /** Every leaf added before is added after, in the same order, a move adding where it lands. */
  lemma AddedConserved(cs: seq<Change>, unquote: string -> string)
    requires TreesWf(cs)
    ensures Flat(DetectMoves(cs, unquote), Adds(unquote)) == Flat(cs, Adds(unquote))
  {
    hide Flat, Pieces, Adds, WholePairs, LeafPairs, AllOk, TreesWf;
    PairsFit(cs, unquote);
    AddsAccount(cs, WholePairs(cs), LeafPairs(cs, unquote), unquote);
  }

  // ---- each text pairs once --------------------------------------------------------------------------------------------

  lemma {:induction false} WithCount(fs: seq<Found>, x: Found)
    ensures multiset(With(fs, x.spot.text))[x] == multiset(fs)[x]
    decreases |fs|
  {
    if fs != [] {
      WithCount(fs[..|fs| - 1], x);
      assert fs == fs[..|fs| - 1] + [fs[|fs| - 1]];
    }
  }

  lemma WithOnce(fs: seq<Found>, x: Found)
    requires With(fs, x.spot.text) == [x]
    ensures multiset(fs)[x] == 1
  {
    hide With;
    WithCount(fs, x);
  }

  lemma {:induction false} PairCount(fs: seq<Found>, added: seq<Found>, removed: seq<Found>, p: Pair)
    ensures multiset(Flat(fs, PairOf(added, removed)))[p] <= multiset(fs)[p.twin]
    decreases |fs|
  {
    if fs != [] {
      hide Partner;
      PairCount(fs[..|fs| - 1], added, removed, p);
      assert fs == fs[..|fs| - 1] + [fs[|fs| - 1]];
    }
  }

  lemma Twice<T>(s: seq<T>, i: nat, j: nat)
    requires i < j < |s| && s[i] == s[j]
    ensures multiset(s)[s[i]] >= 2
  {
    assert s == s[..j] + s[j..];
    assert s[i] in s[..j] && s[j] in s[j..];
  }

  lemma PairsDistinct(added: seq<Found>, removed: seq<Found>, i: nat, j: nat)
    requires i < j < |Pairs(added, removed)|
    ensures Pairs(added, removed)[i].twin.spot.text != Pairs(added, removed)[j].twin.spot.text
  {
    hide With, TrivialLeafText, PairOf, Flat;
    var ps := Pairs(added, removed);
    if ps[i].twin.spot.text == ps[j].twin.spot.text {
      PairFacts(added, removed, ps[i]);
      PairFacts(added, removed, ps[j]);
      Twice(ps, i, j);
      PairCount(added, added, removed, ps[i]);
      WithOnce(added, ps[i].twin);
    }
  }

  /** Counting one more element of a list. */
  lemma {:induction false} Grow<T, U>(fs: seq<T>, x: T, f: T -> seq<U>, g: T -> seq<U>)
    requires multiset(fs)[x] == 1 && f(x) == []
    requires forall y :: y in fs && y != x ==> f(y) == g(y)
    ensures multiset(Flat(fs, g)) == multiset(Flat(fs, f)) + multiset(g(x))
    decreases |fs|
  {
    var k := |fs| - 1;
    assert fs == fs[..k] + [fs[k]];
    if fs[k] == x {
      assert x !in multiset(fs[..k]);
      FlatSame(fs[..k], f, g);
    } else {
      Grow(fs[..k], x, f, g);
    }
  }

  /** The leaves of the sources of some pairs. */
  function Taken(unquote: string -> string): Pair -> seq<Spot> {
    (p: Pair) => SpotsOf(p.source.spot.path, p.source.spot.text, unquote)
  }

  lemma WholeAlone(cs: seq<Change>, side: Side, f: Found, g: Found)
    requires f in Wholes(cs, side) && g in Wholes(cs, side) && f.at == g.at
    ensures f == g
  {
    hide SideText, Wholes;
    WholeMember(cs, side, f);
    WholeMember(cs, side, g);
  }

  lemma IsSourceSnoc(pairs: seq<Pair>, p: Pair, at: nat)
    ensures IsSource(pairs + [p], at) <==> IsSource(pairs, at) || p.source.at == at
  {
    if IsSource(pairs, at) {
      var q :| q in pairs && q.source.at == at;
      assert q in pairs + [p];
    }
    assert p in pairs + [p];
  }

  lemma MoveAtSnoc(pairs: seq<Pair>, p: Pair, at: nat)
    ensures MoveAt(pairs + [p], at) == if p.twin.at == at then Some(p) else MoveAt(pairs, at)
  {
    Snoc(pairs, p);
  }

  lemma WholesApart(cs: seq<Change>, i: nat, j: nat)
    requires i < j < |WholePairs(cs)|
    ensures WholePairs(cs)[i].source.at != WholePairs(cs)[j].source.at
    ensures WholePairs(cs)[i].twin.at != WholePairs(cs)[j].twin.at
  {
    hide Pairs, Wholes;
    var p, q := WholePairs(cs)[i], WholePairs(cs)[j];
    PairsDistinct(Wholes(cs, After), Wholes(cs, Before), i, j);
    PairFacts(Wholes(cs, After), Wholes(cs, Before), p);
    PairFacts(Wholes(cs, After), Wholes(cs, Before), q);
    if p.source.at == q.source.at {
      WholeAlone(cs, Before, p.source, q.source);
    }
    if p.twin.at == q.twin.at {
      WholeAlone(cs, After, p.twin, q.twin);
    }
  }

  lemma WholeFresh(cs: seq<Change>, j: nat)
    requires j < |WholePairs(cs)|
    ensures !IsSource(WholePairs(cs)[..j], WholePairs(cs)[j].source.at)
    ensures MoveAt(WholePairs(cs)[..j], WholePairs(cs)[j].twin.at).None?
  {
    hide WholePairs, MoveAt;
    var ps := WholePairs(cs);
    forall q | q in ps[..j]
      ensures q.source.at != ps[j].source.at && q.twin.at != ps[j].twin.at
    {
      var i: nat :| i < j && ps[i] == q;
      WholesApart(cs, i, j);
    }
    MoveAtMember(ps[..j], ps[j].twin.at);
  }

  lemma {:induction false} WholeLost(cs: seq<Change>, j: nat, unquote: string -> string)
    requires j <= |WholePairs(cs)|
    ensures multiset(Flat(Wholes(cs, Before), LoseOne(WholePairs(cs)[..j], unquote))) ==
            multiset(Flat(WholePairs(cs)[..j], Taken(unquote)))
    decreases j
  {
    hide Flat, WholePairs, Wholes, SpotsOf, IsSource;
    var ps, fs := WholePairs(cs), Wholes(cs, Before);
    if j == 0 {
      NoSources();
      FlatNone(fs, LoseOne(ps[..0], unquote));
      FlatNothing(Taken(unquote));
    } else {
      var init, p := ps[..j - 1], ps[j - 1];
      assert ps[..j] == init + [p];
      WholeLost(cs, j - 1, unquote);
      WholeFresh(cs, j - 1);
      WholeSide(cs, p);
      forall y | y in fs
        ensures IsSource(init + [p], y.at) <==> IsSource(init, y.at) || y == p.source
      {
        IsSourceSnoc(init, p, y.at);
        if y.at == p.source.at {
          WholeAlone(cs, Before, y, p.source);
        }
      }
      Grow(fs, p.source, LoseOne(init, unquote), LoseOne(init + [p], unquote));
      FlatSnoc(init, p, Taken(unquote));
    }
  }

  lemma NoSources()
    ensures forall at :: !IsSource([], at)
    ensures forall at :: MoveAt([], at).None?
  {
  }

  lemma WholeSide(cs: seq<Change>, p: Pair)
    requires p in WholePairs(cs)
    ensures p.source in Wholes(cs, Before) && multiset(Wholes(cs, Before))[p.source] == 1
    ensures p.twin in Wholes(cs, After) && multiset(Wholes(cs, After))[p.twin] == 1
    ensures p.source.spot.text == p.twin.spot.text
  {
    hide Wholes, Pairs, With;
    PairFacts(Wholes(cs, After), Wholes(cs, Before), p);
    WithOnce(Wholes(cs, After), p.twin);
    WithOnce(Wholes(cs, Before), p.source);
  }

  lemma {:induction false} WholeGained(cs: seq<Change>, j: nat, unquote: string -> string)
    requires j <= |WholePairs(cs)|
    ensures multiset(Flat(Wholes(cs, After), GainOne(WholePairs(cs)[..j], unquote))) ==
            multiset(Flat(WholePairs(cs)[..j], Taken(unquote)))
    decreases j
  {
    hide Flat, WholePairs, Wholes, SpotsOf, MoveAt;
    var ps, fs := WholePairs(cs), Wholes(cs, After);
    if j == 0 {
      NoSources();
      FlatNone(fs, GainOne(ps[..0], unquote));
      FlatNothing(Taken(unquote));
    } else {
      var init, p := ps[..j - 1], ps[j - 1];
      assert ps[..j] == init + [p];
      WholeGained(cs, j - 1, unquote);
      WholeFresh(cs, j - 1);
      WholeSide(cs, p);
      forall y | y in fs
        ensures MoveAt(init + [p], y.at) == if y == p.twin then Some(p) else MoveAt(init, y.at)
      {
        MoveAtSnoc(init, p, y.at);
        if y.at == p.twin.at {
          WholeAlone(cs, After, y, p.twin);
        }
      }
      Grow(fs, p.twin, GainOne(init, unquote), GainOne(init + [p], unquote));
      FlatSnoc(init, p, Taken(unquote));
    }
  }

  // ---- the removed side ------------------------------------------------------------------------------------------------

  /** Removed leaves that move detection stops listing as removed, beside whole changes. */
  function Dropped(cs: seq<Change>, unquote: string -> string): seq<Spot> {
    Flat(Inner(cs, Before, PairedAts(WholePairs(cs)), unquote), DropOne(LeafPairs(cs, unquote)))
  }

  /** Leaves that it lists as moved, beside whole changes, where it says they came from. */
  function Emitted(cs: seq<Change>, unquote: string -> string): seq<Spot> {
    Flat(Inner(cs, After, PairedAts(WholePairs(cs)), unquote), EmitOne(LeafPairs(cs, unquote)))
  }

  /** Every leaf removed, a move removing where it came from. */
  ghost function AllRemoved(cs: seq<Change>, unquote: string -> string): multiset<Spot> {
    multiset(Flat(cs, Removes(unquote))) + multiset(Flat(cs, Takes(unquote)))
  }

  /** The removed leaves are those before, less the dropped, plus the emitted. */
  lemma RemovedBalance(cs: seq<Change>, unquote: string -> string)
    requires TreesWf(cs)
    ensures AllRemoved(DetectMoves(cs, unquote), unquote) + multiset(Dropped(cs, unquote)) ==
            AllRemoved(cs, unquote) + multiset(Emitted(cs, unquote))
  {
    hide Flat, Pieces, WholePairs, LeafPairs, AllOk, TreesWf, Wholes, Inner, PairedAts;
    var whole, leaf := WholePairs(cs), LeafPairs(cs, unquote);
    PairsFit(cs, unquote);
    RemovesAccount(cs, whole, leaf, unquote);
    TakesAccount(cs, whole, leaf, unquote);
    WholeLost(cs, |whole|, unquote);
    WholeGained(cs, |whole|, unquote);
    assert whole[..|whole|] == whole;
  }

  /** The removed leaves are conserved exactly when the leaves dropped are the leaves emitted. */
  lemma RemovedConservedIff(cs: seq<Change>, unquote: string -> string)
    requires TreesWf(cs)
    ensures AllRemoved(DetectMoves(cs, unquote), unquote) == AllRemoved(cs, unquote) <==>
            multiset(Dropped(cs, unquote)) == multiset(Emitted(cs, unquote))
  {
    hide AllRemoved, DetectMoves, Dropped, Emitted, TreesWf;
    RemovedBalance(cs, unquote);
    Cancel(AllRemoved(DetectMoves(cs, unquote), unquote), multiset(Dropped(cs, unquote)), AllRemoved(cs, unquote),
           multiset(Emitted(cs, unquote)));
  }

  lemma Cancel<T>(a: multiset<T>, b: multiset<T>, c: multiset<T>, d: multiset<T>)
    requires a + b == c + d
    ensures a == c <==> b == d
  {
    if a == c {
      assert b == (a + b) - a && d == (c + d) - c;
    }
    if b == d {
      assert a == (a + b) - b && c == (c + d) - d;
    }
  }

  // ---- path keys apart ----------------------------------------------------------------------------------------------------

  /** No two different leaves of one change have the same path key. */
  ghost predicate KeysApart(cs: seq<Change>, unquote: string -> string) {
    forall at, side :: 0 <= at < |cs| ==> SideApart(cs[at], side, unquote)
  }

  ghost predicate SideApart(c: Change, side: Side, unquote: string -> string) {
    forall s, t | IsCandidate(s, c, side, unquote) && IsCandidate(t, c, side, unquote) :: SameKey(s, t) ==> s == t
  }

  ghost predicate SameKey(s: Spot, t: Spot) {
    PathKey(s.path) == PathKey(t.path)
  }

  lemma InnerAlone(cs: seq<Change>, side: Side, unquote: string -> string, f: Found, g: Found)
    requires KeysApart(cs, unquote)
    requires f in Inner(cs, side, PairedAts(WholePairs(cs)), unquote) && g in Inner(cs, side, PairedAts(WholePairs(cs)), unquote)
    requires f.at == g.at && PathKey(f.spot.path) == PathKey(g.spot.path)
    ensures f == g
  {
    hide IsCandidate, Inner, PairedAts, WholePairs, PathKey;
    InnerMember(cs, side, PairedAts(WholePairs(cs)), unquote, f);
    InnerMember(cs, side, PairedAts(WholePairs(cs)), unquote, g);
    assert SideApart(cs[f.at], side, unquote);
    assert SameKey(f.spot, g.spot);
  }

  lemma LeafSide(cs: seq<Change>, unquote: string -> string, p: Pair)
    requires p in LeafPairs(cs, unquote)
    ensures var skip := PairedAts(WholePairs(cs));
            p.source in Inner(cs, Before, skip, unquote) && multiset(Inner(cs, Before, skip, unquote))[p.source] == 1 &&
            p.twin in Inner(cs, After, skip, unquote) && multiset(Inner(cs, After, skip, unquote))[p.twin] == 1
    ensures p.source.spot.text == p.twin.spot.text
  {
    hide Inner, Pairs, With, PairedAts, WholePairs;
    var skip := PairedAts(WholePairs(cs));
    var added, removed := Inner(cs, After, skip, unquote), Inner(cs, Before, skip, unquote);
    PairFacts(added, removed, p);
    WithOnce(added, p.twin);
    WithOnce(removed, p.source);
  }

  lemma LeavesApart(cs: seq<Change>, unquote: string -> string, i: nat, j: nat)
    requires KeysApart(cs, unquote) && i < j < |LeafPairs(cs, unquote)|
    ensures var p, q := LeafPairs(cs, unquote)[i], LeafPairs(cs, unquote)[j];
            !TwinKey(p, q.twin.at, PathKey(q.twin.spot.path)) && !SourceKey(p, q.source.at, PathKey(q.source.spot.path))
  {
    hide Pairs, Inner, PairedAts, WholePairs, PathKey, KeysApart;
    var skip := PairedAts(WholePairs(cs));
    var p, q := LeafPairs(cs, unquote)[i], LeafPairs(cs, unquote)[j];
    PairsDistinct(Inner(cs, After, skip, unquote), Inner(cs, Before, skip, unquote), i, j);
    LeafSide(cs, unquote, p);
    LeafSide(cs, unquote, q);
    if TwinKey(p, q.twin.at, PathKey(q.twin.spot.path)) {
      InnerAlone(cs, After, unquote, p.twin, q.twin);
    }
    if SourceKey(p, q.source.at, PathKey(q.source.spot.path)) {
      InnerAlone(cs, Before, unquote, p.source, q.source);
    }
  }

  lemma LeafFresh(cs: seq<Change>, unquote: string -> string, j: nat)
    requires KeysApart(cs, unquote) && j < |LeafPairs(cs, unquote)|
    ensures var ps := LeafPairs(cs, unquote);
            PathKey(ps[j].source.spot.path) !in Gone(ps[..j], ps[j].source.at) &&
            PathKey(ps[j].twin.spot.path) !in Origins(ps[..j], ps[j].twin.at)
  {
    hide LeafPairs, Gone, Origins, PathKey, KeysApart, TwinKey, SourceKey;
    var ps := LeafPairs(cs, unquote);
    var q := ps[j];
    forall p | p in ps[..j]
      ensures !TwinKey(p, q.twin.at, PathKey(q.twin.spot.path)) && !SourceKey(p, q.source.at, PathKey(q.source.spot.path))
    {
      var i: nat :| i < j && ps[i] == p;
      LeavesApart(cs, unquote, i, j);
    }
    GoneMember(ps[..j], q.source.at, PathKey(q.source.spot.path));
    OriginsMember(ps[..j], q.twin.at, PathKey(q.twin.spot.path));
  }

  lemma GoneSnoc(pairs: seq<Pair>, p: Pair, at: nat)
    ensures Gone(pairs + [p], at) == Gone(pairs, at) + if p.source.at == at then {PathKey(p.source.spot.path)} else {}
  {
    Snoc(pairs, p);
  }

  lemma OriginsSnoc(pairs: seq<Pair>, p: Pair, at: nat)
    ensures Origins(pairs + [p], at) ==
            if p.twin.at == at then Origins(pairs, at)[PathKey(p.twin.spot.path) := p.source.spot.path] else Origins(pairs, at)
  {
    Snoc(pairs, p);
  }

  function SourceSpot(p: Pair): seq<Spot> {
    [p.source.spot]
  }

  lemma NoLeafPairs(at: nat)
    ensures Gone([], at) == {} && Origins([], at) == map[]
  {
  }

  lemma {:induction false} LeafDropped(cs: seq<Change>, j: nat, unquote: string -> string)
    requires KeysApart(cs, unquote) && j <= |LeafPairs(cs, unquote)|
    ensures multiset(Flat(Inner(cs, Before, PairedAts(WholePairs(cs)), unquote), DropOne(LeafPairs(cs, unquote)[..j]))) ==
            multiset(Flat(LeafPairs(cs, unquote)[..j], SourceSpot))
    decreases j
  {
    hide Flat, WholePairs, LeafPairs, PairedAts, Inner, PathKey, KeysApart, Gone;
    var ps, fs := LeafPairs(cs, unquote), Inner(cs, Before, PairedAts(WholePairs(cs)), unquote);
    if j == 0 {
      forall y | y in fs
        ensures DropOne(ps[..0])(y) == []
      {
        NoLeafPairs(y.at);
      }
      FlatNone(fs, DropOne(ps[..0]));
      FlatNothing(SourceSpot);
    } else {
      var init, p := ps[..j - 1], ps[j - 1];
      assert ps[..j] == init + [p];
      LeafDropped(cs, j - 1, unquote);
      LeafFresh(cs, unquote, j - 1);
      LeafSide(cs, unquote, p);
      forall y | y in fs
        ensures DropOne(init + [p])(y) == if y == p.source then [y.spot] else DropOne(init)(y)
      {
        GoneSnoc(init, p, y.at);
        if y.at == p.source.at && PathKey(y.spot.path) == PathKey(p.source.spot.path) {
          InnerAlone(cs, Before, unquote, y, p.source);
        }
      }
      Grow(fs, p.source, DropOne(init), DropOne(init + [p]));
      FlatSnoc(init, p, SourceSpot);
    }
  }

  lemma {:induction false} LeafEmitted(cs: seq<Change>, j: nat, unquote: string -> string)
    requires KeysApart(cs, unquote) && j <= |LeafPairs(cs, unquote)|
    ensures multiset(Flat(Inner(cs, After, PairedAts(WholePairs(cs)), unquote), EmitOne(LeafPairs(cs, unquote)[..j]))) ==
            multiset(Flat(LeafPairs(cs, unquote)[..j], SourceSpot))
    decreases j
  {
    hide Flat, WholePairs, LeafPairs, PairedAts, Inner, PathKey, KeysApart, Origins;
    var ps, fs := LeafPairs(cs, unquote), Inner(cs, After, PairedAts(WholePairs(cs)), unquote);
    if j == 0 {
      forall y | y in fs
        ensures EmitOne(ps[..0])(y) == []
      {
        NoLeafPairs(y.at);
      }
      FlatNone(fs, EmitOne(ps[..0]));
      FlatNothing(SourceSpot);
    } else {
      var init, p := ps[..j - 1], ps[j - 1];
      assert ps[..j] == init + [p];
      LeafEmitted(cs, j - 1, unquote);
      LeafFresh(cs, unquote, j - 1);
      LeafSide(cs, unquote, p);
      forall y | y in fs
        ensures EmitOne(init + [p])(y) == if y == p.twin then [Spot(p.source.spot.path, y.spot.text)] else EmitOne(init)(y)
      {
        OriginsSnoc(init, p, y.at);
        if y.at == p.twin.at && PathKey(y.spot.path) == PathKey(p.twin.spot.path) {
          InnerAlone(cs, After, unquote, y, p.twin);
        }
      }
      Grow(fs, p.twin, EmitOne(init), EmitOne(init + [p]));
      FlatSnoc(init, p, SourceSpot);
    }
  }

  /** With path keys apart, splitting the moves back gives exactly the leaves removed before, each once. */
  lemma RemovedConserved(cs: seq<Change>, unquote: string -> string)
    requires TreesWf(cs) && KeysApart(cs, unquote)
    ensures AllRemoved(DetectMoves(cs, unquote), unquote) == AllRemoved(cs, unquote)
  {
    hide AllRemoved, DetectMoves, TreesWf, LeafPairs, Inner, WholePairs, PairedAts, Flat, KeysApart;
    var leaf := LeafPairs(cs, unquote);
    RemovedConservedIff(cs, unquote);
    LeafDropped(cs, |leaf|, unquote);
    LeafEmitted(cs, |leaf|, unquote);
    assert leaf[..|leaf|] == leaf;
  }
}
