/**
  Documents: the tree a JSON text denotes (`Node`), the derivations of the RFC 8259 grammar
  with all their whitespace (`Cst`), and the token sequence of each.
*/
module JsonSyntax {
  import opened Seqs
  import opened JsonLex
  import opened JsonGrammar

  datatype Option<+T> = None | Some(value: T)

  /** An object or array node holds entries; inside an array an entry has no key. */
  datatype Node =
    | Scalar(kind: Kind, text: string)
    | Container(isObject: bool, entries: seq<Entry>)

  /** `key` is the quoted property name as it stands in the text. */
  datatype Entry = Entry(key: Option<string>, node: Node)

  function OpenChar(isObject: bool): char {
    if isObject then '{' else '['
  }

  function CloseChar(isObject: bool): char {
    if isObject then '}' else ']'
  }

  function P(c: char): Lexeme {
    Lexeme(Punct, [c])
  }

  predicate IsScalarKind(k: Kind) {
    k == Str || IsBare(k)
  }

  /** Scalars and keys carry grammatical texts, and exactly the entries of an object have keys. */
  ghost predicate WfNode(n: Node)
    decreases n, 1
  {
    match n
    case Scalar(kind, text) => IsScalarKind(kind) && LexemeOk(Lexeme(kind, text))
    case Container(isObject, entries) => WfEntries(isObject, entries)
  }

  ghost predicate WfEntries(isObject: bool, es: seq<Entry>)
    decreases es, 0
  {
    forall i :: 0 <= i < |es| ==> WfEntry(isObject, es[i])
  }

  ghost predicate WfEntry(isObject: bool, e: Entry)
    decreases e, 0
  {
    e.key.Some? == isObject && (isObject ==> IsString(e.key.value)) && WfNode(e.node)
  }

  // ---- the tokens of a tree ------------------------------------------------------

  function TokensOf(n: Node): seq<Lexeme>
    decreases n, 1
  {
    match n
    case Scalar(kind, text) => [Lexeme(kind, text)]
    case Container(isObject, entries) =>
      [P(OpenChar(isObject))] + EntriesTokens(entries) + [P(CloseChar(isObject))]
  }

  function EntriesTokens(es: seq<Entry>): seq<Lexeme>
    decreases es, 0
  {
    if es == [] then []
    else
      var init := es[..|es| - 1];
      EntriesTokens(init) + Comma(init) + EntryTokens(es[|es| - 1])
  }

  function EntryTokens(e: Entry): seq<Lexeme>
    decreases e, 0
  {
    KeyTokens(e.key) + TokensOf(e.node)
  }

  function Comma(before: seq<Entry>): seq<Lexeme> {
    if before == [] then [] else [P(',')]
  }

  function KeyTokens(key: Option<string>): seq<Lexeme> {
    if key.Some? then [Lexeme(Str, key.value), P(':')] else []
  }

  // ---- derivations ----------------------------------------------------------------

  /** The whitespace around a structural character, as in `begin-array = ws %x5B ws`. */
  datatype Pad = Pad(before: string, after: string)

  /**
    object = begin-object [ member *( value-separator member ) ] end-object
    array = begin-array [ value *( value-separator value ) ] end-array
  */
  datatype Cst =
    | CScalar(kind: Kind, text: string)
    | CContainer(isObject: bool, open: Pad, entries: seq<CEntry>, close: Pad)

  /** `sep` pads the value-separator in front of the entry; the first entry has none. */
  datatype CEntry = CEntry(sep: Pad, key: Option<CKey>, value: Cst)

  /** member = string name-separator value */
  datatype CKey = CKey(text: string, colon: Pad)

  function Structural(c: char, pad: Pad): string {
    pad.before + [c] + pad.after
  }

  function Unparse(c: Cst): string
    decreases c, 1
  {
    match c
    case CScalar(kind, text) => text
    case CContainer(isObject, open, entries, close) =>
      Structural(OpenChar(isObject), open) + UnparseEntries(entries) + Structural(CloseChar(isObject), close)
  }

  function UnparseEntries(es: seq<CEntry>): string
    decreases es, 0
  {
    if es == [] then ""
    else
      var init, last := es[..|es| - 1], es[|es| - 1];
      UnparseEntries(init) + UnparseSep(init, last.sep) + UnparseEntry(last)
  }

  function UnparseEntry(e: CEntry): string
    decreases e, 0
  {
    UnparseKey(e.key) + Unparse(e.value)
  }

  function UnparseSep(before: seq<CEntry>, sep: Pad): string {
    if before == [] then "" else Structural(',', sep)
  }

  function UnparseKey(key: Option<CKey>): string {
    if key.Some? then key.value.text + Structural(':', key.value.colon) else ""
  }

  predicate WfPad(pad: Pad) {
    IsWs(pad.before) && IsWs(pad.after)
  }

  ghost predicate WfCst(c: Cst)
    decreases c, 1
  {
    match c
    case CScalar(kind, text) => IsScalarKind(kind) && LexemeOk(Lexeme(kind, text))
    case CContainer(isObject, open, entries, close) => WfPad(open) && WfPad(close) && WfCEntries(isObject, entries)
  }

  ghost predicate WfCEntries(isObject: bool, es: seq<CEntry>)
    decreases es, 0
  {
    forall i :: 0 <= i < |es| ==> WfCEntry(isObject, es[i])
  }

  ghost predicate WfCEntry(isObject: bool, e: CEntry)
    decreases e, 0
  {
    WfPad(e.sep) && e.key.Some? == isObject &&
    (isObject ==> IsString(e.key.value.text) && WfPad(e.key.value.colon)) &&
    WfCst(e.value)
  }

  /** JSON-text = ws value ws, by the derivation `c`. */
  ghost predicate Derives(c: Cst, before: string, after: string, text: string) {
    WfCst(c) && IsWs(before) && IsWs(after) && text == before + Unparse(c) + after
  }

  /** The text is derivable from the grammar of RFC 8259. */
  ghost predicate Derivable(text: string) {
    exists c, before, after :: Derives(c, before, after, text)
  }

  // ---- forgetting whitespace ----------------------------------------------------------

  function Erase(c: Cst): Node
    decreases c, 1
  {
    match c
    case CScalar(kind, text) => Scalar(kind, text)
    case CContainer(isObject, _, entries, _) => Container(isObject, EraseEntries(entries))
  }

  function EraseEntries(es: seq<CEntry>): (r: seq<Entry>)
    ensures |r| == |es|
    decreases es, 0
  {
    if es == [] then [] else EraseEntries(es[..|es| - 1]) + [EraseEntry(es[|es| - 1])]
  }

  function EraseEntry(e: CEntry): Entry
    decreases e, 0
  {
    Entry(if e.key.Some? then Some(e.key.value.text) else None, Erase(e.value))
  }

  lemma {:induction false} EraseWf(c: Cst)
    requires WfCst(c)
    ensures WfNode(Erase(c))
    decreases c, 1
  {
    if c.CContainer? {
      EraseEntriesWf(c.isObject, c.entries);
    }
  }

  lemma {:induction false} EraseEntriesWf(isObject: bool, es: seq<CEntry>)
    requires WfCEntries(isObject, es)
    ensures WfEntries(isObject, EraseEntries(es))
    decreases es, 0
  {
    if es != [] {
      EraseEntriesWf(isObject, es[..|es| - 1]);
      EraseEntryWf(isObject, es[|es| - 1]);
    }
  }

  lemma {:induction false} EraseEntryWf(isObject: bool, e: CEntry)
    requires WfCEntry(isObject, e)
    ensures WfEntry(isObject, EraseEntry(e))
    decreases e, 0
  {
    EraseWf(e.value);
  }

  // ---- lexing a derivation -----------------------------------------------------------

  lemma SolidsStructural(c: char, pad: Pad, rest: string)
    requires IsPunct(c) && WfPad(pad)
    ensures Solids(Structural(c, pad) + rest) == [P(c)] + Solids(rest)
  {
    hide Solids;
    Regroup(pad.before, [c], pad.after, rest);
    SolidsWs(pad.before, [c] + (pad.after + rest));
    LexLexeme(P(c), pad.after + rest);
    SolidsWs(pad.after, rest);
  }

  lemma StopStructural(c: char, pad: Pad, rest: string)
    requires IsPunct(c) && WfPad(pad)
    ensures StopAt(Structural(c, pad) + rest, 0)
  {
    var s := Structural(c, pad) + rest;
    assert s == pad.before + ([c] + pad.after + rest);
    if pad.before != "" {
      assert s[0] == pad.before[0];
    } else {
      assert s[0] == c;
    }
  }

  lemma SolidsKey(key: Option<CKey>, rest: string)
    requires key.Some? ==> IsString(key.value.text) && WfPad(key.value.colon)
    ensures Solids(UnparseKey(key) + rest)
         == KeyTokens(if key.Some? then Some(key.value.text) else None) + Solids(rest)
  {
    if key.Some? {
      hide Solids, Structural, IsString;
      var k := key.value;
      Assoc(k.text, Structural(':', k.colon), rest);
      assert LexemeOk(Lexeme(Str, k.text));
      LexLexeme(Lexeme(Str, k.text), Structural(':', k.colon) + rest);
      SolidsStructural(':', k.colon, rest);
      Append([Lexeme(Str, k.text)], P(':'), Solids(rest));
    } else {
      Unit(rest);
      Unit(Solids(rest));
    }
  }

  /** The tokens of a derived text are those of its tree: whitespace leaves no trace. */
  lemma {:induction false} SolidsUnparse(c: Cst, rest: string)
    requires WfCst(c) && StopAt(rest, 0)
    ensures Solids(Unparse(c) + rest) == TokensOf(Erase(c)) + Solids(rest)
    decreases c, 1
  {
    hide Solids, Structural, UnparseEntries, EntriesTokens, EraseEntries, LexemeOk;
    match c
    case CScalar(kind, text) =>
      LexLexeme(Lexeme(kind, text), rest);
    case CContainer(isObject, open, entries, close) =>
      var o, x := Structural(OpenChar(isObject), open), Structural(CloseChar(isObject), close);
      var inner := UnparseEntries(entries);
      Regroup(o, inner, x, rest);
      SolidsStructural(OpenChar(isObject), open, inner + (x + rest));
      StopStructural(CloseChar(isObject), close, rest);
      SolidsEntries(isObject, entries, x + rest);
      SolidsStructural(CloseChar(isObject), close, rest);
      Regroup([P(OpenChar(isObject))], EntriesTokens(EraseEntries(entries)), [P(CloseChar(isObject))], Solids(rest));
  }

  lemma SnocEntries(es: seq<CEntry>)
    requires es != []
    ensures EntriesTokens(EraseEntries(es))
         == EntriesTokens(EraseEntries(es[..|es| - 1])) + Comma(EraseEntries(es[..|es| - 1])) +
            EntryTokens(EraseEntry(es[|es| - 1]))
  {
    assert EraseEntries(es)[..|es| - 1] == EraseEntries(es[..|es| - 1]);
  }

  lemma {:induction false} SolidsEntries(isObject: bool, es: seq<CEntry>, rest: string)
    requires WfCEntries(isObject, es) && StopAt(rest, 0)
    ensures Solids(UnparseEntries(es) + rest) == EntriesTokens(EraseEntries(es)) + Solids(rest)
    decreases es, 0
  {
    hide Solids, Structural, EntriesTokens, EraseEntries, EntryTokens, UnparseEntry, UnparseSep, Comma, WfCst, EraseEntry;
    if es == [] {
      SolidsNoEntries(rest);
    } else {
      var init, last := es[..|es| - 1], es[|es| - 1];
      var v, sep := UnparseEntry(last), UnparseSep(init, last.sep);
      Regroup(UnparseEntries(init), sep, v, rest);
      assert WfCEntry(isObject, last);
      SolidsSep(init, last.sep, v + rest);
      if init != [] {
        StopSep(isObject, init, last, rest);
      }
      SolidsEntriesInit(isObject, init, sep + (v + rest));
      SolidsEntry(isObject, last, rest);
      SnocEntries(es);
      Regroup(EntriesTokens(EraseEntries(init)), Comma(EraseEntries(init)), EntryTokens(EraseEntry(last)), Solids(rest));
    }
  }

  lemma SolidsNoEntries(rest: string)
    ensures Solids(UnparseEntries([]) + rest) == EntriesTokens(EraseEntries([])) + Solids(rest)
  {
    assert UnparseEntries([]) + rest == rest;
  }

  lemma {:induction false} SolidsEntriesInit(isObject: bool, es: seq<CEntry>, rest: string)
    requires WfCEntries(isObject, es) && (es != [] ==> StopAt(rest, 0))
    ensures Solids(UnparseEntries(es) + rest) == EntriesTokens(EraseEntries(es)) + Solids(rest)
    decreases es, 1
  {
    hide Solids;
    if es == [] {
      assert UnparseEntries(es) + rest == rest;
    } else {
      SolidsEntries(isObject, es, rest);
    }
  }

  lemma StopSep(isObject: bool, before: seq<CEntry>, e: CEntry, rest: string)
    requires WfCEntry(isObject, e) && before != []
    ensures StopAt(UnparseSep(before, e.sep) + (UnparseEntry(e) + rest), 0)
  {
    StopStructural(',', e.sep, UnparseEntry(e) + rest);
  }

  lemma {:induction false} SolidsEntry(isObject: bool, e: CEntry, rest: string)
    requires WfCEntry(isObject, e) && StopAt(rest, 0)
    ensures Solids(UnparseEntry(e) + rest) == EntryTokens(EraseEntry(e)) + Solids(rest)
    decreases e, 0
  {
    hide Solids, UnparseKey, Unparse, KeyTokens, TokensOf, Erase;
    Assoc(UnparseKey(e.key), Unparse(e.value), rest);
    SolidsKey(e.key, Unparse(e.value) + rest);
    SolidsUnparse(e.value, rest);
    Assoc(KeyTokens(EraseEntry(e).key), TokensOf(Erase(e.value)), Solids(rest));
  }

  lemma SolidsSep(before: seq<CEntry>, sep: Pad, rest: string)
    requires WfPad(sep)
    ensures Solids(UnparseSep(before, sep) + rest) == Comma(EraseEntries(before)) + Solids(rest)
  {
    if before == [] {
      assert UnparseSep(before, sep) + rest == rest;
    } else {
      SolidsStructural(',', sep, rest);
    }
  }

  /** The tokens of a derivable text are exactly the tokens of the tree it derives. */
  lemma SolidsDerives(c: Cst, before: string, after: string, text: string)
    requires Derives(c, before, after, text)
    ensures Solids(text) == TokensOf(Erase(c))
  {
    assert StopAt(after, 0);
    assert Solids("") == [];
    hide Solids, Unparse, TokensOf, Erase;
    Assoc(before, Unparse(c), after);
    SolidsWs(before, Unparse(c) + after);
    SolidsUnparse(c, after);
    Unit(after);
    SolidsWs(after, "");
    Unit(TokensOf(Erase(c)));
  }
}
