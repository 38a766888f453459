/**
  Re-emitting a checked document, pretty or minified.

  `Emit` is the token-by-token re-emitter, `Print` the recursive printer of a tree.  They
  agree on every document (`EmitTree`), and what they print is derivable again with the
  same tokens (`ReemitKeepsTokens`), so formatting and minifying absorb each other
  (`ReemitAbsorbs`).
*/
module JsonPrint {
  import opened Seqs
  import opened JsonLex
  import opened JsonGrammar
  import opened JsonSyntax
  import opened JsonCheck

  /** No indentation, or two spaces a level. */
  datatype Style = Minified | Pretty

  function Indent(level: nat): (r: string)
    ensures |r| == 2 * level && forall i :: 0 <= i < |r| ==> r[i] == ' '
  {
    if level == 0 then "" else Indent(level - 1) + "  "
  }

  /** The line break and indentation in front of `level`. A checked document never asks for a negative one. */
  function Break(style: Style, level: int): string {
    if style.Minified? then "" else "\n" + Indent(if level < 0 then 0 else level)
  }

  function ColonText(style: Style): string {
    if style.Minified? then ":" else ": "
  }

  predicate IsOpen(l: Lexeme) {
    l == P('{') || l == P('[')
  }

  predicate IsClose(l: Lexeme) {
    l == P('}') || l == P(']')
  }

  function Closer(l: Lexeme): Lexeme {
    if l == P('{') then P('}') else P(']')
  }

  /** The re-emitter on the tokens left, at nesting depth `depth`. */
  function Emit(ls: seq<Lexeme>, depth: int, style: Style): string
    decreases |ls|
  {
    if ls == [] then ""
    else if ls[0].kind != Punct then ls[0].text + Emit(ls[1..], depth, style)
    else if IsOpen(ls[0]) then
      if |ls| > 1 && ls[1] == Closer(ls[0]) then ls[0].text + ls[1].text + Emit(ls[2..], depth, style)
      else ls[0].text + Break(style, depth + 1) + Emit(ls[1..], depth + 1, style)
    else if IsClose(ls[0]) then Break(style, depth - 1) + ls[0].text + Emit(ls[1..], depth - 1, style)
    else if ls[0] == P(',') then "," + Break(style, depth) + Emit(ls[1..], depth, style)
    else ColonText(style) + Emit(ls[1..], depth, style)
  }

  /** The solid tokens written out again in a style; only well-formed texts have such a form. */
  function Reemit(text: string, style: Style): Option<string> {
    if WellFormed(text) then Some(Emit(Solids(text), 0, style)) else None
  }

  // ---- the printer ------------------------------------------------------------------

  function Print(n: Node, depth: nat, style: Style): string
    decreases n, 1
  {
    match n
    case Scalar(kind, text) => text
    case Container(isObject, entries) =>
      if entries == [] then [OpenChar(isObject), CloseChar(isObject)]
      else
        [OpenChar(isObject)] + Break(style, depth + 1) + PrintEntries(entries, depth + 1, style) +
        Break(style, depth) + [CloseChar(isObject)]
  }

  function PrintEntries(es: seq<Entry>, depth: nat, style: Style): string
    decreases es, 0
  {
    if es == [] then ""
    else
      var init := es[..|es| - 1];
      PrintEntries(init, depth, style) + PrintSep(init, depth, style) + PrintEntry(es[|es| - 1], depth, style)
  }

  function PrintSep(before: seq<Entry>, depth: nat, style: Style): string {
    if before == [] then "" else "," + Break(style, depth)
  }

  function PrintEntry(e: Entry, depth: nat, style: Style): string
    decreases e, 0
  {
    PrintKey(e.key, style) + Print(e.node, depth, style)
  }

  function PrintKey(key: Option<string>, style: Style): string {
    if key.Some? then key.value + ColonText(style) else ""
  }

  // ---- printed text is derivable -------------------------------------------------------

  function Layout(n: Node, depth: nat, style: Style): Cst
    decreases n, 1
  {
    match n
    case Scalar(kind, text) => CScalar(kind, text)
    case Container(isObject, entries) =>
      if entries == [] then CContainer(isObject, NO_PAD, [], NO_PAD)
      else
        CContainer(isObject, Pad("", Break(style, depth + 1)), LayoutEntries(entries, depth + 1, style),
                   Pad(Break(style, depth), ""))
  }

  function LayoutEntries(es: seq<Entry>, depth: nat, style: Style): (r: seq<CEntry>)
    ensures |r| == |es|
    decreases es, 0
  {
    if es == [] then []
    else LayoutEntries(es[..|es| - 1], depth, style) + [LayoutEntry(es[|es| - 1], depth, style)]
  }

  function LayoutEntry(e: Entry, depth: nat, style: Style): CEntry
    decreases e, 0
  {
    CEntry(Pad("", Break(style, depth)), LayoutKey(e.key, style), Layout(e.node, depth, style))
  }

  function LayoutKey(key: Option<string>, style: Style): Option<CKey> {
    if key.Some? then Some(CKey(key.value, Pad("", ColonText(style)[1..]))) else None
  }

  lemma BreakIsWs(style: Style, level: int)
    ensures IsWs(Break(style, level)) && IsWs(ColonText(style)[1..])
  {
  }

  lemma {:induction false} LayoutWf(n: Node, depth: nat, style: Style)
    requires WfNode(n)
    ensures WfCst(Layout(n, depth, style)) && Erase(Layout(n, depth, style)) == n
    decreases n, 1
  {
    hide Break, LayoutEntries, WfEntries, WfCEntries, LexemeOk, EraseEntries;
    if n.Container? && n.entries != [] {
      BreakIsWs(style, depth);
      BreakIsWs(style, depth + 1);
      LayoutEntriesWf(n.isObject, n.entries, depth + 1, style);
    } else if n.Container? {
      EmptyLayout(n.isObject);
    }
  }

  lemma EmptyLayout(isObject: bool)
    ensures WfCEntries(isObject, []) && EraseEntries([]) == []
  {
  }

  lemma {:induction false} LayoutEntriesWf(isObject: bool, es: seq<Entry>, depth: nat, style: Style)
    requires WfEntries(isObject, es)
    ensures WfCEntries(isObject, LayoutEntries(es, depth, style))
    ensures EraseEntries(LayoutEntries(es, depth, style)) == es
    decreases es, 0
  {
    if es != [] {
      hide WfCEntry, WfEntry, LayoutEntry, EraseEntry, WfCEntries, EraseEntries, WfEntries;
      var init, last := es[..|es| - 1], es[|es| - 1];
      InitWf(isObject, es);
      LayoutEntriesWf(isObject, init, depth, style);
      LayoutEntryWf(isObject, last, depth, style);
      SnocWf(isObject, LayoutEntries(init, depth, style), LayoutEntry(last, depth, style));
      assert es == init + [last];
    } else {
      EmptyLayout(isObject);
    }
  }

  lemma InitWf(isObject: bool, es: seq<Entry>)
    requires es != [] && WfEntries(isObject, es)
    ensures WfEntries(isObject, es[..|es| - 1]) && WfEntry(isObject, es[|es| - 1])
  {
  }

  lemma SnocWf(isObject: bool, es: seq<CEntry>, e: CEntry)
    requires WfCEntries(isObject, es) && WfCEntry(isObject, e)
    ensures WfCEntries(isObject, es + [e]) && EraseEntries(es + [e]) == EraseEntries(es) + [EraseEntry(e)]
  {
    hide WfCEntry, EraseEntry;
    Snoc(es, e);
  }

  lemma {:induction false} LayoutEntryWf(isObject: bool, e: Entry, depth: nat, style: Style)
    requires WfEntry(isObject, e)
    ensures WfCEntry(isObject, LayoutEntry(e, depth, style)) && EraseEntry(LayoutEntry(e, depth, style)) == e
    decreases e, 0
  {
    hide Break;
    BreakIsWs(style, depth);
    LayoutWf(e.node, depth, style);
  }

  lemma {:induction false} LayoutPrints(n: Node, depth: nat, style: Style)
    ensures Unparse(Layout(n, depth, style)) == Print(n, depth, style)
    decreases n, 1
  {
    hide Break, UnparseEntries, LayoutEntries, PrintEntries, Structural;
    if n.Container? && n.entries == [] {
      var o, x := OpenChar(n.isObject), CloseChar(n.isObject);
      NoUnparse();
      PadOneSide(o, "");
      PadOneSide(x, "");
      assert [o] + "" + "" + [x] == [o, x] && [o] + "" == [o] && [x] + "" == [x];
    } else if n.Container? {
      LayoutEntriesPrint(n.entries, depth + 1, style);
      var o, x := [OpenChar(n.isObject)], [CloseChar(n.isObject)];
      var inner := PrintEntries(n.entries, depth + 1, style);
      PadOneSide(OpenChar(n.isObject), Break(style, depth + 1));
      PadOneSide(CloseChar(n.isObject), Break(style, depth));
      Assoc(o + Break(style, depth + 1) + inner, Break(style, depth), x);
    }
  }

  lemma PadOneSide(c: char, s: string)
    ensures Structural(c, Pad("", s)) == [c] + s && Structural(c, Pad(s, "")) == s + [c]
  {
    Unit([c]);
    Unit(s + [c]);
  }

  lemma {:induction false} LayoutEntriesPrint(es: seq<Entry>, depth: nat, style: Style)
    ensures UnparseEntries(LayoutEntries(es, depth, style)) == PrintEntries(es, depth, style)
    decreases es, 0
  {
    if es != [] {
      hide Break, UnparseEntry, PrintEntry, LayoutEntry, Structural;
      var init, last := es[..|es| - 1], es[|es| - 1];
      LayoutEntriesPrint(init, depth, style);
      LayoutEntryPrints(last, depth, style);
      Snoc(LayoutEntries(init, depth, style), LayoutEntry(last, depth, style));
    }
  }

  lemma {:induction false} LayoutEntryPrints(e: Entry, depth: nat, style: Style)
    ensures UnparseEntry(LayoutEntry(e, depth, style)) == PrintEntry(e, depth, style)
    ensures Structural(',', LayoutEntry(e, depth, style).sep) == "," + Break(style, depth)
    decreases e, 0
  {
    hide Break, Print, Layout, Unparse;
    LayoutPrints(e.node, depth, style);
    PadOneSide(',', Break(style, depth));
  }

  // ---- the re-emitter prints the tree ----------------------------------------------------

  lemma EmitOpen(isObject: bool, rest: seq<Lexeme>, depth: int, style: Style)
    requires rest != [] && rest[0] != P(CloseChar(isObject))
    ensures Emit([P(OpenChar(isObject))] + rest, depth, style)
         == [OpenChar(isObject)] + Break(style, depth + 1) + Emit(rest, depth + 1, style)
  {
    hide Break;
    assert ([P(OpenChar(isObject))] + rest)[1..] == rest;
  }

  lemma EmitEmpty(isObject: bool, rest: seq<Lexeme>, depth: int, style: Style)
    ensures Emit([P(OpenChar(isObject)), P(CloseChar(isObject))] + rest, depth, style)
         == [OpenChar(isObject), CloseChar(isObject)] + Emit(rest, depth, style)
  {
    hide Break;
    assert ([P(OpenChar(isObject)), P(CloseChar(isObject))] + rest)[2..] == rest;
  }

  lemma EmitOne(l: Lexeme, rest: seq<Lexeme>, depth: int, style: Style)
    requires l.kind == Punct ==> l == P(',') || l == P(':') || IsClose(l)
    ensures l.kind != Punct ==> Emit([l] + rest, depth, style) == l.text + Emit(rest, depth, style)
    ensures l == P(',') ==> Emit([l] + rest, depth, style) == "," + Break(style, depth) + Emit(rest, depth, style)
    ensures l == P(':') ==> Emit([l] + rest, depth, style) == ColonText(style) + Emit(rest, depth, style)
    ensures IsClose(l) ==>
      Emit([l] + rest, depth, style) == Break(style, depth - 1) + l.text + Emit(rest, depth - 1, style)
  {
    hide Break;
    assert ([l] + rest)[1..] == rest;
  }

  lemma {:induction false} EntriesStart(isObject: bool, es: seq<Entry>)
    requires WfEntries(isObject, es) && es != []
    ensures EntriesTokens(es) != [] && !IsClose(EntriesTokens(es)[0])
    decreases |es|
  {
    hide EntryTokens, WfEntry, WfEntries;
    var init, last := es[..|es| - 1], es[|es| - 1];
    InitWf(isObject, es);
    if init == [] {
      EntryStart(isObject, last);
      Unit(EntryTokens(last));
    } else {
      EntriesStart(isObject, init);
    }
  }

  lemma EntryStart(isObject: bool, e: Entry)
    requires WfEntry(isObject, e)
    ensures EntryTokens(e) != [] && !IsClose(EntryTokens(e)[0])
  {
  }

  /** The re-emitter, loop by loop, prints the tree of the document. */
  lemma {:induction false} EmitTree(n: Node, rest: seq<Lexeme>, depth: nat, style: Style)
    requires WfNode(n)
    ensures Emit(TokensOf(n) + rest, depth, style) == Print(n, depth, style) + Emit(rest, depth, style)
    decreases n, 1
  {
    hide Break, Emit, EntriesTokens, PrintEntries, WfEntries;
    match n
    case Scalar(kind, text) =>
      EmitOne(Lexeme(kind, text), rest, depth, style);
    case Container(isObject, entries) =>
      var tail := [P(CloseChar(isObject))] + rest;
      if entries == [] {
        assert EntriesTokens([]) == [] by { NoEntriesTokens(); }
        Unit([P(OpenChar(isObject))]);
        assert TokensOf(n) == [P(OpenChar(isObject)), P(CloseChar(isObject))];
        EmitEmpty(isObject, rest, depth, style);
      } else {
        Regroup([P(OpenChar(isObject))], EntriesTokens(entries), [P(CloseChar(isObject))], rest);
        EntriesStart(isObject, entries);
        EmitOpen(isObject, EntriesTokens(entries) + tail, depth, style);
        EmitEntries(isObject, entries, tail, depth + 1, style);
        EmitOne(P(CloseChar(isObject)), rest, depth + 1, style);
        EmitRegroup([OpenChar(isObject)] + Break(style, depth + 1), PrintEntries(entries, depth + 1, style),
                    Break(style, depth), [CloseChar(isObject)], Emit(rest, depth, style));
      }
  }

  lemma EmitRegroup(a: string, b: string, c: string, d: string, e: string)
    ensures a + (b + (c + d + e)) == a + b + c + d + e
  {
    Assoc(a, b, c + d + e);
    Assoc(a + b, c + d, e);
    Assoc(a + b, c, d);
  }

  lemma NoEntriesTokens()
    ensures EntriesTokens([]) == []
  {
  }

  lemma {:induction false} EmitEntries(isObject: bool, es: seq<Entry>, rest: seq<Lexeme>, depth: nat, style: Style)
    requires WfEntries(isObject, es)
    ensures Emit(EntriesTokens(es) + rest, depth, style) == PrintEntries(es, depth, style) + Emit(rest, depth, style)
    decreases es, 0
  {
    hide Break, Emit, PrintEntry, EntryTokens, WfEntry;
    if es == [] {
      Unit(rest);
      Unit(Emit(rest, depth, style));
    } else {
      var init, last := es[..|es| - 1], es[|es| - 1];
      var tail := EntryTokens(last) + rest;
      Regroup(EntriesTokens(init), Comma(init), EntryTokens(last), rest);
      EmitEntries(isObject, init, Comma(init) + tail, depth, style);
      if init == [] {
        Unit(tail);
        Unit(Emit(tail, depth, style));
      } else {
        EmitOne(P(','), tail, depth, style);
      }
      EmitEntry(isObject, last, rest, depth, style);
      Regroup(PrintEntries(init, depth, style), PrintSep(init, depth, style), PrintEntry(last, depth, style),
              Emit(rest, depth, style));
    }
  }

  lemma {:induction false} EmitEntry(isObject: bool, e: Entry, rest: seq<Lexeme>, depth: nat, style: Style)
    requires WfEntry(isObject, e)
    ensures Emit(EntryTokens(e) + rest, depth, style) == PrintEntry(e, depth, style) + Emit(rest, depth, style)
    decreases e, 0
  {
    hide Break, Emit, TokensOf, Print, WfNode, ColonText;
    var value, out := TokensOf(e.node), Print(e.node, depth, style);
    EmitTree(e.node, rest, depth, style);
    if isObject {
      var k := Lexeme(Str, e.key.value);
      Assoc([k, P(':')], value, rest);
      assert [k] + [P(':')] == [k, P(':')];
      Assoc([k], [P(':')], value + rest);
      EmitOne(k, [P(':')] + (value + rest), depth, style);
      EmitOne(P(':'), value + rest, depth, style);
      Regroup(k.text, ColonText(style), out, Emit(rest, depth, style));
    } else {
      Unit(value);
      Unit(out);
    }
  }

  // ---- documents ------------------------------------------------------------------------------

  /** Every well-formed text has a tree with exactly its tokens. */
  lemma TreeOf(text: string) returns (n: Node)
    requires WellFormed(text)
    ensures WfNode(n) && TokensOf(n) == Solids(text)
  {
    hide WellFormed, Solids;
    AcceptsIffDerivable(text);
    var c, before, after :| Derives(c, before, after, text);
    SolidsDerives(c, before, after, text);
    EraseWf(c);
    n := Erase(c);
  }

  lemma ReemitPrints(text: string, n: Node, style: Style)
    requires WfNode(n) && TokensOf(n) == Solids(text)
    ensures Reemit(text, style) == Some(Print(n, 0, style))
  {
    AcceptsTree(n);
    assert Emit([], 0, style) == "";
    hide Emit, Print, TokensOf, Solids;
    EmitTree(n, [], 0, style);
    Unit(TokensOf(n));
    Unit(Print(n, 0, style));
  }

  lemma PrintKeepsTokens(n: Node, style: Style)
    requires WfNode(n)
    ensures Derivable(Print(n, 0, style)) && Solids(Print(n, 0, style)) == TokensOf(n)
  {
    hide Layout, Print, Unparse, WfCst, Solids, TokensOf;
    var c := Layout(n, 0, style);
    LayoutWf(n, 0, style);
    LayoutPrints(n, 0, style);
    Unit(Unparse(c));
    assert Derives(c, "", "", Unparse(c));
    SolidsDerives(c, "", "", Unparse(c));
  }

  /** Only whitespace changes: the output is well formed and has the same tokens, of the same kinds. */
  lemma ReemitKeepsTokens(text: string, style: Style)
    requires WellFormed(text)
    ensures var out := Reemit(text, style).value;
            WellFormed(out) && Solids(out) == Solids(text) && Solid(Mark(Lex(out))) == Solid(Mark(Lex(text)))
  {
    var n := TreeOf(text);
    ReemitPrints(text, n, style);
    PrintKeepsTokens(n, style);
    var out := Print(n, 0, style);
    AcceptsIffDerivable(out);
    MarkSolid(Lex(text));
    MarkSolid(Lex(out));
  }

  /** Formatting and minifying are idempotent, and each absorbs the other. */
  lemma ReemitAbsorbs(text: string, first: Style, second: Style)
    requires WellFormed(text)
    ensures Reemit(Reemit(text, first).value, second) == Reemit(text, second)
  {
    ReemitKeepsTokens(text, first);
  }

  /** Both texts have a minified form, and it is the same. */
  predicate JsonEquivalent(a: string, b: string) {
    Reemit(a, Minified).Some? && Reemit(a, Minified) == Reemit(b, Minified)
  }

  lemma EquivalentIffSameTokens(a: string, b: string)
    ensures JsonEquivalent(a, b) <==> WellFormed(a) && WellFormed(b) && Solids(a) == Solids(b)
  {
    if JsonEquivalent(a, b) {
      ReemitKeepsTokens(a, Minified);
      ReemitKeepsTokens(b, Minified);
    }
  }

  /** What a typed value is kept as: its minified form if one is asked for and exists, otherwise the value itself. */
  function CanonicalParameterValue(value: string, isJson: bool): string {
    if isJson && Reemit(value, Minified).Some? then Reemit(value, Minified).value else value
  }

  /** Saving what is already stored changes nothing, whatever it was typed like. */
  lemma CanonicalIsStable(value: string, isJson: bool)
    ensures CanonicalParameterValue(CanonicalParameterValue(value, isJson), isJson) == CanonicalParameterValue(value, isJson)
    ensures isJson && WellFormed(value) ==> JsonEquivalent(CanonicalParameterValue(value, isJson), value)
  {
    if isJson && WellFormed(value) {
      ReemitAbsorbs(value, Minified, Minified);
    }
  }
}
