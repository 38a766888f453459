/** Move detection and the structural diff as the console runs them. */
module MoveDetection {
  import opened Seqs
  import opened Flats
  import JsonCheck
  import opened JsonSyntax
  import opened JsonTree
  import opened ValueDiff
  import opened Moves
  import opened MoveAccounts
  import opened MovePairs
  import opened MoveTruth

  // ---- leaves ----------------------------------------------------------------------------------------------

  method CollectLeaves(node: Node, path: seq<string>, unquote: string -> string, into: seq<Spot>) returns (out: seq<Spot>)
    ensures out == into + Leaves(node, path, unquote)
    decreases node, 1
  {
    hide NodeText, Segment;
    if IsLeaf(node) {
      out := into + [Spot(path, NodeText(node))];
      return;
    }
    out := into;
    var es := node.entries;
    assert es[..0] == [];
    Unit(into);
    for k := 0 to |es|
      invariant out == into + EntriesLeaves(node.isObject, es[..k], path, unquote)
    {
      ghost var done := EntriesLeaves(node.isObject, es[..k], path, unquote);
      var here := path + [Segment(node.isObject, es[k], k, unquote)];
      EntriesLeavesNext(node.isObject, es, k, path, unquote);
      out := CollectEntry(es[k], here, unquote, out);
      Assoc(into, done, EntryLeaves(es[k], here, unquote));
    }
    assert es[..|es|] == es;
  }

  method CollectEntry(e: Entry, path: seq<string>, unquote: string -> string, into: seq<Spot>) returns (out: seq<Spot>)
    ensures out == into + EntryLeaves(e, path, unquote)
    decreases e, 0
  {
    out := CollectLeaves(e.node, path, unquote, into);
  }

  lemma EntriesLeavesNext(isObject: bool, es: seq<Entry>, k: nat, path: seq<string>, unquote: string -> string)
    requires k < |es|
    ensures EntriesLeaves(isObject, es[..k + 1], path, unquote) ==
            EntriesLeaves(isObject, es[..k], path, unquote) +
            EntryLeaves(es[k], path + [Segment(isObject, es[k], k, unquote)], unquote)
  {
    hide EntryLeaves, Segment;
    assert es[..k + 1][..k] == es[..k];
  }

  // ---- the index by text --------------------------------------------------------------------------------------

  /** The texts worth pairing, in the order they are first met. */
  function FirstTexts(fs: seq<Found>): seq<string> {
    if fs == [] then []
    else
      var init, t := FirstTexts(fs[..|fs| - 1]), fs[|fs| - 1].spot.text;
      if TrivialLeafText(t) || t in init then init else init + [t]
  }

  ghost predicate Indexed(fs: seq<Found>, lists: map<string, seq<Found>>) {
    forall t :: if t in lists then lists[t] == With(fs, t) && !TrivialLeafText(t) && With(fs, t) != []
                else TrivialLeafText(t) || With(fs, t) == []
  }

  lemma WithSnoc(fs: seq<Found>, f: Found, t: string)
    ensures With(fs + [f], t) == With(fs, t) + if f.spot.text == t then [f] else []
  {
    FlatSnoc(fs, f, TextIs(t));
  }

  lemma {:induction false} FirstTextsAre(fs: seq<Found>, t: string)
    ensures t in FirstTexts(fs) <==> !TrivialLeafText(t) && With(fs, t) != []
    decreases |fs|
  {
    hide TrivialLeafText, With;
    if fs == [] {
      NothingWith(t);
    } else {
      var k := |fs| - 1;
      FirstTextsAre(fs[..k], t);
      WithSnoc(fs[..k], fs[k], t);
      assert fs == fs[..k] + [fs[k]];
    }
  }

  lemma NothingWith(t: string)
    ensures With([], t) == []
  {
  }

  method IndexByText(fs: seq<Found>) returns (order: seq<string>, lists: map<string, seq<Found>>)
    ensures order == FirstTexts(fs) && Indexed(fs, lists)
  {
    hide TrivialLeafText, With;
    order, lists := [], map[];
    assert fs[..0] == [];
    forall t
      ensures With([], t) == []
    {
      NothingWith(t);
    }
    for k := 0 to |fs|
      invariant order == FirstTexts(fs[..k]) && Indexed(fs[..k], lists)
    {
      var f := fs[k];
      var text := f.spot.text;
      assert fs[..k + 1] == fs[..k] + [f];
      Snoc(fs[..k], f);
      FirstTextsAre(fs[..k], text);
      forall t
        ensures With(fs[..k + 1], t) == With(fs[..k], t) + if text == t then [f] else []
      {
        WithSnoc(fs[..k], f, t);
      }
      if !TrivialLeafText(text) {
        if text !in lists {
          order := order + [text];
        }
        lists := lists[text := (if text in lists then lists[text] else []) + [f]];
      }
    }
    assert fs[..|fs|] == fs;
  }

  // ---- pairing ---------------------------------------------------------------------------------------------------

  function PairOfText(added: seq<Found>, removed: seq<Found>): string -> seq<Pair> {
    (t: string) =>
      if Partner(t, added, removed).Some? then [Pair(With(added, t)[0], Partner(t, added, removed).value)] else []
  }

  /** Going through the texts finds the pairs that going through the elements does, in the same order. */
  lemma {:induction false} TextsPair(added: seq<Found>, removed: seq<Found>, k: nat)
    requires k <= |added|
    ensures Flat(FirstTexts(added[..k]), PairOfText(added, removed)) == Flat(added[..k], PairOf(added, removed))
    decreases k
  {
    hide TrivialLeafText, With, Flat;
    if k == 0 {
      FlatNothing(PairOfText(added, removed));
      FlatNothing(PairOf(added, removed));
    } else {
      var init, f := added[..k - 1], added[k - 1];
      var t := f.spot.text;
      assert added[..k] == init + [f];
      Snoc(init, f);
      TextsPair(added, removed, k - 1);
      FlatSnoc(init, f, PairOf(added, removed));
      FlatSnoc(FirstTexts(init), t, PairOfText(added, removed));
      FirstTextsAre(init, t);
      WithSnoc(init, f, t);
      WithSplit(added, k, t);
      Unit(Flat(init, PairOf(added, removed)));
    }
  }

  lemma WithSplit(fs: seq<Found>, k: nat, t: string)
    requires k <= |fs|
    ensures With(fs, t) == With(fs[..k], t) + With(fs[k..], t)
  {
    Split(fs, k);
    FlatConcat(fs[..k], fs[k..], TextIs(t));
  }

  method PairUp(added: seq<Found>, removed: seq<Found>) returns (pairs: seq<Pair>)
    ensures pairs == Pairs(added, removed)
  {
    hide TrivialLeafText, With, Flat, FirstTexts;
    var order, twinsOf := IndexByText(added);
    var _, sourcesOf := IndexByText(removed);
    pairs := [];
    assert order[..0] == [];
    FlatNothing(PairOfText(added, removed));
    for k := 0 to |order|
      invariant pairs == Flat(order[..k], PairOfText(added, removed))
    {
      var text := order[k];
      assert order[..k + 1] == order[..k] + [text];
      FlatSnoc(order[..k], text, PairOfText(added, removed));
      FirstTextsAre(added, text);
      assert text in order;
      assert text in twinsOf;
      Unit(pairs);
      if |twinsOf[text]| == 1 && text in sourcesOf && |sourcesOf[text]| == 1 {
        pairs := pairs + [Pair(twinsOf[text][0], sourcesOf[text][0])];
      }
    }
    assert order[..|order|] == order && added[..|added|] == added;
    TextsPair(added, removed, |added|);
  }

  // ---- what the pairs say, by change index ------------------------------------------------------------------------

  ghost predicate Merged(merged: set<nat>, pairs: seq<Pair>) {
    forall at: nat :: at in merged <==> IsSource(pairs, at)
  }

  ghost predicate Moving(moves: map<nat, Change>, pairs: seq<Pair>) {
    forall at: nat :: if at in moves then MoveAt(pairs, at).Some? && moves[at] == MoveOf(MoveAt(pairs, at).value)
                      else MoveAt(pairs, at).None?
  }

  ghost predicate Arriving(from: map<nat, map<string, seq<string>>>, pairs: seq<Pair>) {
    forall at: nat :: if at in from then from[at] == Origins(pairs, at) && from[at] != map[] else Origins(pairs, at) == map[]
  }

  ghost predicate Leaving(gone: map<nat, set<string>>, pairs: seq<Pair>) {
    forall at: nat :: if at in gone then gone[at] == Gone(pairs, at) && gone[at] != {} else Gone(pairs, at) == {}
  }

  /** Files the pairs of whole changes. */
  method FileMoves(pairs: seq<Pair>) returns (merged: set<nat>, moves: map<nat, Change>)
    ensures Merged(merged, pairs) && Moving(moves, pairs)
  {
    hide IsSource, MoveAt, MoveOf;
    merged, moves := {}, map[];
    NoSources();
    assert pairs[..0] == [];
    for k := 0 to |pairs|
      invariant Merged(merged, pairs[..k]) && Moving(moves, pairs[..k])
    {
      var p := pairs[k];
      assert pairs[..k + 1] == pairs[..k] + [p];
      forall at: nat
        ensures IsSource(pairs[..k + 1], at) <==> IsSource(pairs[..k], at) || p.source.at == at
        ensures MoveAt(pairs[..k + 1], at) == if p.twin.at == at then Some(p) else MoveAt(pairs[..k], at)
      {
        IsSourceSnoc(pairs[..k], p, at);
        MoveAtSnoc(pairs[..k], p, at);
      }
      merged := merged + {p.source.at};
      moves := moves[p.twin.at := MoveOf(p)];
    }
    assert pairs[..|pairs|] == pairs;
  }

  lemma ArrivingNext(from: map<nat, map<string, seq<string>>>, pairs: seq<Pair>, p: Pair)
    requires Arriving(from, pairs)
    ensures var byPath := if p.twin.at in from then from[p.twin.at] else map[];
            Arriving(from[p.twin.at := byPath[PathKey(p.twin.spot.path) := p.source.spot.path]], pairs + [p])
  {
    hide Origins, PathKey;
    forall at: nat
      ensures Origins(pairs + [p], at) ==
              if p.twin.at == at then Origins(pairs, at)[PathKey(p.twin.spot.path) := p.source.spot.path] else Origins(pairs, at)
    {
      OriginsSnoc(pairs, p, at);
    }
    assert PathKey(p.twin.spot.path) in Origins(pairs + [p], p.twin.at);
  }

  lemma LeavingNext(gone: map<nat, set<string>>, pairs: seq<Pair>, p: Pair)
    requires Leaving(gone, pairs)
    ensures var paths := if p.source.at in gone then gone[p.source.at] else {};
            Leaving(gone[p.source.at := paths + {PathKey(p.source.spot.path)}], pairs + [p])
  {
    hide Gone, PathKey;
    forall at: nat
      ensures Gone(pairs + [p], at) == Gone(pairs, at) + if p.source.at == at then {PathKey(p.source.spot.path)} else {}
    {
      GoneSnoc(pairs, p, at);
    }
    assert PathKey(p.source.spot.path) in Gone(pairs + [p], p.source.at);
  }

  lemma NothingFiled()
    ensures Arriving(map[], []) && Leaving(map[], [])
  {
  }

  /** Files the pairs of leaves. */
  method FileLeaves(pairs: seq<Pair>) returns (from: map<nat, map<string, seq<string>>>, gone: map<nat, set<string>>)
    ensures Arriving(from, pairs) && Leaving(gone, pairs)
  {
    hide Origins, Gone, PathKey, Arriving, Leaving;
    from, gone := map[], map[];
    assert pairs[..0] == [];
    NothingFiled();
    for k := 0 to |pairs|
      invariant Arriving(from, pairs[..k]) && Leaving(gone, pairs[..k])
    {
      var p := pairs[k];
      assert pairs[..k + 1] == pairs[..k] + [p];
      ArrivingNext(from, pairs[..k], p);
      LeavingNext(gone, pairs[..k], p);
      var byPath := if p.twin.at in from then from[p.twin.at] else map[];
      from := from[p.twin.at := byPath[PathKey(p.twin.spot.path) := p.source.spot.path]];
      var paths := if p.source.at in gone then gone[p.source.at] else {};
      gone := gone[p.source.at := paths + {PathKey(p.source.spot.path)}];
    }
    assert pairs[..|pairs|] == pairs;
  }

  // ---- move detection --------------------------------------------------------------------------------------------------

  method FindWholes(changes: seq<Change>) returns (added: seq<Found>, removed: seq<Found>)
    ensures added == Wholes(changes, After) && removed == Wholes(changes, Before)
  {
    added, removed := [], [];
    assert changes[..0] == [];
    for at := 0 to |changes|
      invariant added == Wholes(changes[..at], After) && removed == Wholes(changes[..at], Before)
    {
      var c := changes[at];
      assert changes[..at + 1][..at] == changes[..at];
      Unit(added);
      Unit(removed);
      if c.kind == Removed && c.before.Some? {
        removed := removed + [Found(at, Spot(c.path, c.before.value))];
      }
      if c.kind == Added && c.after.Some? {
        added := added + [Found(at, Spot(c.path, c.after.value))];
      }
    }
    assert changes[..|changes|] == changes;
  }

  method LeavesOf(c: Change, at: nat, text: string, unquote: string -> string) returns (found: seq<Found>)
    ensures found == Tag(at, Candidates(c.path, text, unquote))
  {
    if !IsSubtreeText(text) {
      found := [Found(at, Spot(c.path, text))];
      return;
    }
    hide ParseTree, Leaves;
    var node := ParseJsonTree(text);
    if node.None? {
      found := [];
    } else {
      var out := CollectLeaves(node.value, c.path, unquote, []);
      Unit(Leaves(node.value, c.path, unquote));
      found := Tag(at, out);
    }
  }

  lemma InnerNext(cs: seq<Change>, at: nat, side: Side, skip: set<nat>, unquote: string -> string)
    requires at < |cs|
    ensures Inner(cs[..at + 1], side, skip, unquote) ==
            Inner(cs[..at], side, skip, unquote) + PartOne(cs[at], at, side, skip, unquote)
  {
    hide PartOne;
    assert cs[..at + 1][..at] == cs[..at];
  }

  method FindInner(changes: seq<Change>, skip: set<nat>, unquote: string -> string)
    returns (added: seq<Found>, removed: seq<Found>)
    ensures added == Inner(changes, After, skip, unquote) && removed == Inner(changes, Before, skip, unquote)
  {
    added, removed := [], [];
    assert changes[..0] == [];
    hide Candidates, Tag;
    for at := 0 to |changes|
      invariant added == Inner(changes[..at], After, skip, unquote) && removed == Inner(changes[..at], Before, skip, unquote)
    {
      InnerNext(changes, at, After, skip, unquote);
      InnerNext(changes, at, Before, skip, unquote);
      var c := changes[at];
      Unit(added);
      Unit(removed);
      if at in skip {
        continue;
      }
      if c.kind == Removed && c.before.Some? {
        var found := LeavesOf(c, at, c.before.value, unquote);
        removed := removed + found;
      }
      if c.kind == Added && c.after.Some? {
        var found := LeavesOf(c, at, c.after.value, unquote);
        added := added + found;
      }
    }
    assert changes[..|changes|] == changes;
  }

  /** Nothing paired leaves the changes as they are. */
  lemma {:induction false} NothingMoves(cs: seq<Change>, unquote: string -> string)
    ensures Pieces(cs, [], [], unquote) == cs
    decreases |cs|
  {
    if cs != [] {
      var k := |cs| - 1;
      NothingMoves(cs[..k], unquote);
      NoSources();
      NoLeafPairs(k);
      assert cs == cs[..k] + [cs[k]];
    }
  }

  lemma NoPairs(leaf: seq<Pair>, whole: seq<Pair>)
    requires forall at: nat :: Origins(leaf, at) == map[]
    requires forall at: nat :: MoveAt(whole, at).None?
    ensures leaf == [] && whole == []
  {
    if leaf != [] {
      var p := leaf[|leaf| - 1];
      assert PathKey(p.twin.spot.path) in Origins(leaf, p.twin.at);
    }
    if whole != [] {
      assert MoveAt(whole, whole[|whole| - 1].twin.at).Some?;
    }
  }

  lemma PiecesNext(cs: seq<Change>, at: nat, whole: seq<Pair>, leaf: seq<Pair>, unquote: string -> string)
    requires at < |cs|
    ensures Pieces(cs[..at + 1], whole, leaf, unquote) ==
            Pieces(cs[..at], whole, leaf, unquote) + Piece(cs[at], at, whole, leaf, unquote)
  {
    hide Piece;
    assert cs[..at + 1][..at] == cs[..at];
  }

  method FindMoves(changes: seq<Change>, unquote: string -> string) returns (out: seq<Change>)
    ensures out == DetectMoves(changes, unquote)
  {
    hide WholePairs, LeafPairs, Pairs, Wholes, Inner, Pieces, PairedAts, AddedPiece, RemovedPiece, IsSource, MoveAt, Origins, Gone;
    var added, removed := FindWholes(changes);
    var whole := PairUp(added, removed);
    assert whole == WholePairs(changes) by { IsWholePairs(changes); }
    var merged, moves := FileMoves(whole);
    SkipIsPaired(merged, moves, whole);
    var innerAdded, innerRemoved := FindInner(changes, merged + moves.Keys, unquote);
    var leaf := PairUp(innerAdded, innerRemoved);
    assert leaf == LeafPairs(changes, unquote) by { IsLeafPairs(changes, unquote); }
    var pairedAdded, pairedRemoved := FileLeaves(leaf);
    if moves == map[] && pairedAdded == map[] {
      NoPairs(leaf, whole);
      NothingMoves(changes, unquote);
      return changes;
    }
    out := [];
    assert changes[..0] == [];
    assert out == Pieces(changes[..0], whole, leaf, unquote) by { NoPieces(whole, leaf, unquote); }
    for at := 0 to |changes|
      invariant out == Pieces(changes[..at], whole, leaf, unquote)
    {
      var c := changes[at];
      PiecesNext(changes, at, whole, leaf, unquote);
      Unit(out);
      if at in merged {
      } else if at in moves {
        out := out + [moves[at]];
      } else if at in pairedAdded {
        out := out + AddedPiece(c, pairedAdded[at], unquote);
      } else if at in pairedRemoved {
        out := out + RemovedPiece(c, pairedRemoved[at], unquote);
      } else {
        out := out + [c];
      }
    }
    assert changes[..|changes|] == changes;
  }

  lemma NoPieces(whole: seq<Pair>, leaf: seq<Pair>, unquote: string -> string)
    ensures Pieces([], whole, leaf, unquote) == []
  {
  }

  lemma IsWholePairs(cs: seq<Change>)
    ensures WholePairs(cs) == Pairs(Wholes(cs, After), Wholes(cs, Before))
  {
  }

  lemma IsLeafPairs(cs: seq<Change>, unquote: string -> string)
    ensures LeafPairs(cs, unquote) == Pairs(Inner(cs, After, PairedAts(WholePairs(cs)), unquote),
                                            Inner(cs, Before, PairedAts(WholePairs(cs)), unquote))
  {
  }

  lemma SkipIsPaired(merged: set<nat>, moves: map<nat, Change>, whole: seq<Pair>)
    requires Merged(merged, whole) && Moving(moves, whole)
    ensures merged + moves.Keys == PairedAts(whole)
  {
    hide IsSource, MoveAt, PairedAts;
    forall at: nat
      ensures at in merged + moves.Keys <==> at in PairedAts(whole)
    {
      InPairedAts(whole, at);
    }
  }

  // ---- the structural diff -------------------------------------------------------------------------------------------------

  datatype StructuralDiff = StructuralDiff(changes: seq<Change>, unchangedLeaves: nat, truncated: bool)

  lemma DerivableParses(text: string)
    requires Derivable(text)
    ensures ParseTree(text).Some? && WfNode(ParseTree(text).value)
  {
    hide ParseTree, Derivable;
    JsonCheck.AcceptsIffDerivable(text);
    ParseWellFormed(text);
  }

  method DiffStructure(before: string, after: string, maxLeaves: nat, unquote: string -> string)
    returns (r: Option<StructuralDiff>)
    ensures r.None? <==> ParseTree(before).None? || ParseTree(after).None?
    ensures r.Some? ==>
              var all := AllChanges(ParseTree(before).value, ParseTree(after).value, unquote);
              r.value.changes == DetectMoves(AtMost(maxLeaves, all), unquote) && r.value.truncated == (|all| > maxLeaves) &&
              r.value.unchangedLeaves == |Common(ParseTree(before), ParseTree(after), unquote)|
    ensures r.Some? && Derivable(before) && Derivable(after) ==>
              ChangesTrue(r.value.changes, ParseTree(before).value, ParseTree(after).value, unquote)
  {
    hide ParseTree, Diff, DetectMoves, Common, Derivable, ChangesTrue;
    var left := ParseJsonTree(before);
    var right := ParseJsonTree(after);
    if left.None? || right.None? {
      return None;
    }
    var result := new Recorder(maxLeaves);
    result.Walk(left, right, [], unquote);
    AtRoot(Diff(left, right, unquote));
    Unit(Diff(left, right, unquote));
    var changes := FindMoves(result.changes, unquote);
    r := Some(StructuralDiff(changes, result.unchangedLeaves, result.truncated));
    if Derivable(before) && Derivable(after) {
      DerivableParses(before);
      DerivableParses(after);
      DiffIsTrue(left.value, right.value, maxLeaves, unquote);
    }
  }
}
