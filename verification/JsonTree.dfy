/**
  The node tree of a document, built in one pass over the tokens with a stack of open
  containers, and the minified text of a subtree.

  The builder ignores commas and colons, so it says nothing about malformed text; on every
  document it builds the tree the tokens came from (`ParseFindsTree`), and printing that
  tree gives the minified document (`NodeTextIsMinified`).
*/
module JsonTree {
  import opened Seqs
  import opened JsonLex
  import opened JsonSyntax
  import opened JsonCheck
  import opened JsonPrint
  import opened JsonTokenizer
  import opened JsonText

  /** A container being filled; `pending` is the key read last. */
  datatype OpenNode = OpenNode(isObject: bool, entries: seq<Entry>, pending: Option<string>)

  datatype Builder = Builder(stack: seq<OpenNode>, root: Option<Node>)

  const EMPTY := Builder([], None)

  function Grow(f: OpenNode, n: Node): OpenNode {
    OpenNode(f.isObject, f.entries + [Entry(f.pending, n)], None)
  }

  /** Hangs a finished node under the innermost open container, or makes it the root. */
  function Hang(b: Builder, n: Node): Builder {
    if b.stack == [] then b.(root := Some(n))
    else b.(stack := Pop(b.stack) + [Grow(b.stack[|b.stack| - 1], n)])
  }

  /** A second root is not JSON. */
  predicate HasRoom(b: Builder) {
    b.stack != [] || b.root.None?
  }

  function Feed(b: Builder, l: Lexeme): Option<Builder> {
    if l.kind == Err then None
    else if l.kind == Key then
      if b.stack == [] then None
      else Some(b.(stack := Pop(b.stack) + [b.stack[|b.stack| - 1].(pending := Some(l.text))]))
    else if l.kind == Punct then
      if l == P('{') || l == P('[') then
        if HasRoom(b) then Some(b.(stack := b.stack + [OpenNode(l == P('{'), [], None)])) else None
      else if l == P('}') || l == P(']') then
        if b.stack == [] then None
        else
          var f := b.stack[|b.stack| - 1];
          Some(Hang(b.(stack := Pop(b.stack)), Container(f.isObject, f.entries)))
      else Some(b)
    else if HasRoom(b) then Some(Hang(b, Scalar(l.kind, l.text)))
    else None
  }

  function FeedAll(b: Builder, ls: seq<Lexeme>): Option<Builder>
    decreases |ls|
  {
    if ls == [] then Some(b)
    else if Feed(b, ls[0]).None? then None
    else FeedAll(Feed(b, ls[0]).value, ls[1..])
  }

  function Result(r: Option<Builder>): Option<Node> {
    if r.Some? && r.value.stack == [] then r.value.root else None
  }

  /** What the tree builder returns for a text. */
  function ParseTree(text: string): Option<Node> {
    Result(FeedAll(EMPTY, Mark(Solids(text))))
  }

  // ---- the builder rebuilds every tree -----------------------------------------------------------

  lemma FeedMarked(b: Builder, l: Lexeme, rest: seq<Lexeme>)
    requires Feed(b, MarkOne(l, ColonNext(rest))).Some?
    ensures FeedAll(b, Mark([l] + rest)) == FeedAll(Feed(b, MarkOne(l, ColonNext(rest))).value, Mark(rest))
  {
    hide Feed, ColonNext;
    assert ([l] + rest)[1..] == rest;
    var m := Mark([l] + rest);
    assert m == [MarkOne(l, ColonNext(rest))] + Mark(rest);
    assert m[1..] == Mark(rest);
  }

  lemma ColonNextIs(l: Lexeme, rest: seq<Lexeme>)
    requires l.kind != Ws
    ensures ColonNext([l] + rest) == IsColon(l)
  {
  }

  lemma {:induction false} FeedTree(n: Node, b: Builder, rest: seq<Lexeme>)
    requires WfNode(n) && HasRoom(b) && !ColonNext(rest)
    ensures FeedAll(b, Mark(TokensOf(n) + rest)) == FeedAll(Hang(b, n), Mark(rest))
    decreases n, 1
  {
    hide FeedAll, Mark, ColonNext;
    match n
    case Scalar(kind, text) =>
      FeedMarked(b, Lexeme(kind, text), rest);
    case Container(isObject, entries) =>
      hide EntriesTokens;
      var f := OpenNode(isObject, [], None);
      var inner := b.(stack := b.stack + [f]);
      var close := P(CloseChar(isObject));
      var tail := [close] + rest;
      Regroup([P(OpenChar(isObject))], EntriesTokens(entries), [close], rest);
      FeedMarked(b, P(OpenChar(isObject)), EntriesTokens(entries) + tail);
      ColonNextIs(close, rest);
      FeedEntries(isObject, entries, inner, tail);
      var full := inner.(stack := Pop(inner.stack) + [f.(entries := entries)]);
      assert Pop(inner.stack) == b.stack && Pop(full.stack) == b.stack && [] + entries == entries;
      FeedMarked(full, close, rest);
  }

  function WithEntries(b: Builder, es: seq<Entry>): Builder
    requires b.stack != []
  {
    var f := b.stack[|b.stack| - 1];
    b.(stack := Pop(b.stack) + [f.(entries := f.entries + es)])
  }

  lemma {:induction false} FeedEntries(isObject: bool, es: seq<Entry>, b: Builder, rest: seq<Lexeme>)
    requires WfEntries(isObject, es) && b.stack != [] && !ColonNext(rest)
    requires b.stack[|b.stack| - 1].pending.None?
    ensures FeedAll(b, Mark(EntriesTokens(es) + rest)) == FeedAll(WithEntries(b, es), Mark(rest))
    decreases es, 0
  {
    hide FeedAll, Mark, ColonNext, EntryTokens, WfEntry;
    var f := b.stack[|b.stack| - 1];
    if es == [] {
      assert EntriesTokens(es) + rest == rest;
      assert f.entries + es == f.entries && Pop(b.stack) + [f] == b.stack;
    } else {
      var init, last := es[..|es| - 1], es[|es| - 1];
      var tail := EntryTokens(last) + rest;
      Regroup(EntriesTokens(init), Comma(init), EntryTokens(last), rest);
      var g := f.(entries := f.entries + init);
      var mid := b.(stack := Pop(b.stack) + [g]);
      assert f.entries + init + [last] == f.entries + es;
      if init == [] {
        assert EntriesTokens(init) + (Comma(init) + tail) == tail;
        assert g == f && mid == b;
      } else {
        ColonNextIs(P(','), tail);
        FeedEntries(isObject, init, b, Comma(init) + tail);
        FeedMarked(mid, P(','), tail);
      }
      FeedEntry(isObject, last, mid, rest);
    }
  }

  lemma {:induction false} FeedEntry(isObject: bool, e: Entry, b: Builder, rest: seq<Lexeme>)
    requires WfEntry(isObject, e) && b.stack != [] && !ColonNext(rest)
    requires b.stack[|b.stack| - 1].pending.None?
    ensures FeedAll(b, Mark(EntryTokens(e) + rest)) == FeedAll(WithEntries(b, [e]), Mark(rest))
    decreases e, 0
  {
    hide FeedAll, Mark, ColonNext, TokensOf, WfNode;
    if isObject {
      var f := b.stack[|b.stack| - 1];
      var k, value := Lexeme(Str, e.key.value), TokensOf(e.node) + rest;
      assert EntryTokens(e) + rest == [k] + ([P(':')] + value);
      ColonNextIs(P(':'), value);
      FeedMarked(b, k, [P(':')] + value);
      var keyed := b.(stack := Pop(b.stack) + [f.(pending := Some(e.key.value))]);
      FeedMarked(keyed, P(':'), value);
      assert Pop(keyed.stack) == Pop(b.stack);
      FeedTree(e.node, keyed, rest);
    } else {
      assert EntryTokens(e) + rest == TokensOf(e.node) + rest;
      FeedTree(e.node, b, rest);
    }
  }

  /** On a document the builder finds the tree its tokens come from. */
  lemma ParseFindsTree(text: string, n: Node)
    requires WfNode(n) && Solids(text) == TokensOf(n)
    ensures ParseTree(text) == Some(n)
  {
    hide Mark, Solids, Feed;
    FeedTree(n, EMPTY, []);
    assert TokensOf(n) + [] == TokensOf(n);
    NoTokens();
  }

  /** Every well-formed text parses, to a tree with exactly its tokens. */
  lemma ParseWellFormed(text: string)
    requires WellFormed(text)
    ensures ParseTree(text).Some? && WfNode(ParseTree(text).value) && TokensOf(ParseTree(text).value) == Solids(text)
  {
    hide ParseTree, Solids;
    var n := TreeOf(text);
    ParseFindsTree(text, n);
  }

  /** A tree is determined by its tokens. */
  lemma TokensDetermineTree(a: Node, b: Node)
    requires WfNode(a) && WfNode(b) && TokensOf(a) == TokensOf(b)
    ensures a == b
  {
    hide Solids, ParseTree;
    PrintKeepsTokens(a, Minified);
    ParseFindsTree(Print(a, 0, Minified), a);
    ParseFindsTree(Print(a, 0, Minified), b);
  }

  // ---- printing a node compactly ---------------------------------------------------------------------

  function Join(parts: seq<string>, sep: string): string {
    if parts == [] then ""
    else if |parts| == 1 then parts[0]
    else parts[0] + sep + Join(parts[1..], sep)
  }

  /** A node printed without any whitespace. */
  function NodeText(n: Node): string
    decreases n, 1
  {
    match n
    case Scalar(_, text) => text
    case Container(isObject, entries) =>
      [OpenChar(isObject)] + Join(EntryTexts(entries), ",") + [CloseChar(isObject)]
  }

  function EntryTexts(es: seq<Entry>): (r: seq<string>)
    ensures |r| == |es|
    decreases es, 0
  {
    if es == [] then [] else EntryTexts(es[..|es| - 1]) + [EntryText(es[|es| - 1])]
  }

  function EntryText(e: Entry): string
    decreases e, 0
  {
    if e.key.None? then NodeText(e.node) else e.key.value + ":" + NodeText(e.node)
  }

  lemma {:induction false} JoinSnoc(parts: seq<string>, last: string, sep: string)
    ensures Join(parts + [last], sep) == if parts == [] then last else Join(parts, sep) + sep + last
  {
    if parts != [] {
      var all := parts + [last];
      assert all[1..] == parts[1..] + [last];
      JoinSnoc(parts[1..], last, sep);
    }
  }

  lemma {:induction false} NodeTextPrints(n: Node, depth: nat)
    ensures NodeText(n) == Print(n, depth, Minified)
    decreases n, 1
  {
    if n.Container? {
      EntryTextsPrint(n.entries, depth + 1);
    }
  }

  lemma {:induction false} EntryTextsPrint(es: seq<Entry>, depth: nat)
    ensures Join(EntryTexts(es), ",") == PrintEntries(es, depth, Minified)
    decreases es, 0
  {
    if es != [] {
      hide EntryText, PrintEntry, Join, PrintEntries;
      var init, last := es[..|es| - 1], es[|es| - 1];
      EntryTextsPrint(init, depth);
      EntryTextPrints(last, depth);
      JoinSnoc(EntryTexts(init), EntryText(last), ",");
      PrintMinified(es, depth);
    }
  }

  lemma PrintMinified(es: seq<Entry>, depth: nat)
    requires es != []
    ensures PrintEntries(es, depth, Minified)
         == (if |es| == 1 then "" else PrintEntries(es[..|es| - 1], depth, Minified) + ",") +
            PrintEntry(es[|es| - 1], depth, Minified)
  {
  }

  lemma {:induction false} EntryTextPrints(e: Entry, depth: nat)
    ensures EntryText(e) == PrintEntry(e, depth, Minified)
    decreases e, 0
  {
    NodeTextPrints(e.node, depth);
  }

  /** The text of the whole tree is the minified document. */
  lemma NodeTextIsMinified(text: string)
    requires WellFormed(text)
    ensures ParseTree(text).Some? && Some(NodeText(ParseTree(text).value)) == Reemit(text, Minified)
  {
    hide ParseTree, Solids, Reemit, NodeText;
    ParseWellFormed(text);
    var n := ParseTree(text).value;
    ReemitPrints(text, n, Minified);
    NodeTextPrints(n, 0);
  }

  /** Printing a subtree and reading it back gives the subtree. */
  lemma NodeTextRoundTrip(n: Node)
    requires WfNode(n)
    ensures ParseTree(NodeText(n)) == Some(n) && Derivable(NodeText(n))
  {
    hide ParseTree, Solids, NodeText, Derivable;
    NodeTextPrints(n, 0);
    PrintKeepsTokens(n, Minified);
    ParseFindsTree(NodeText(n), n);
  }

  // ---- the builder as the console runs it -----------------------------------------------------------

  lemma {:induction false} FeedSnoc(b: Builder, ls: seq<Lexeme>, l: Lexeme)
    ensures FeedAll(b, ls + [l])
         == if FeedAll(b, ls).None? then None else Feed(FeedAll(b, ls).value, l)
    decreases |ls|
  {
    hide Feed;
    if ls == [] {
      assert ls + [l] == [l] && [l][1..] == [];
    } else {
      assert (ls + [l])[1..] == ls[1..] + [l];
      if Feed(b, ls[0]).Some? {
        FeedSnoc(Feed(b, ls[0]).value, ls[1..], l);
      }
    }
  }

  lemma {:induction false} FeedPrefix(b: Builder, ls: seq<Lexeme>, k: nat)
    requires k <= |ls| && FeedAll(b, ls[..k]).None?
    ensures FeedAll(b, ls).None?
    decreases k
  {
    hide Feed;
    if k > 0 && Feed(b, ls[0]).Some? {
      assert ls[..k][1..] == ls[1..][..k - 1];
      FeedPrefix(Feed(b, ls[0]).value, ls[1..], k - 1);
    }
  }

  /** `ParseTree` as a loop that feeds the builder one token at a time. */
  method ParseJsonTree(text: string) returns (root: Option<Node>)
    ensures root == ParseTree(text)
  {
    hide Mark, Solids, FeedAll;
    var tokens := SolidTokens(text);
    var stack: seq<OpenNode> := [];
    root := None;
    assert FeedAll(EMPTY, tokens[..0]) == Some(EMPTY) by { FedNothing(tokens); }
    for k := 0 to |tokens|
      invariant FeedAll(EMPTY, tokens[..k]) == Some(Builder(stack, root))
    {
      assert tokens[..k + 1] == tokens[..k] + [tokens[k]];
      FeedSnoc(EMPTY, tokens[..k], tokens[k]);
      var next := Feed(Builder(stack, root), tokens[k]);
      if next.None? {
        FeedPrefix(EMPTY, tokens, k + 1);
        return None;
      }
      stack, root := next.value.stack, next.value.root;
    }
    assert tokens[..|tokens|] == tokens;
    if stack != [] {
      root := None;
    }
  }

  lemma FedNothing(ls: seq<Lexeme>)
    ensures FeedAll(EMPTY, ls[..0]) == Some(EMPTY)
  {
  }
}
