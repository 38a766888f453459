/**
  Where the tokens of a derivation sit in the text it derives, and that the tokenizer puts
  them there.
*/
module JsonSpans {
  import opened Seqs
  import opened JsonLex
  import opened JsonGrammar
  import opened JsonSyntax

  // ---- the tokens of a derivation, with offsets -------------------------------------------------------

  function Spans(c: Cst, at: nat): seq<Token>
    decreases c, 1
  {
    match c
    case CScalar(kind, text) => [Token(kind, at, at + |text|)]
    case CContainer(isObject, open, entries, close) =>
      var inner := at + |Structural(OpenChar(isObject), open)|;
      [PunctAt(at + |open.before|)] + EntriesSpans(entries, inner) +
      [PunctAt(inner + |UnparseEntries(entries)| + |close.before|)]
  }

  function PunctAt(at: nat): Token {
    Token(Punct, at, at + 1)
  }

  function EntriesSpans(es: seq<CEntry>, at: nat): seq<Token>
    decreases es, 0
  {
    if es == [] then []
    else
      var init, last := es[..|es| - 1], es[|es| - 1];
      EntriesSpans(init, at) + SepSpans(init, last.sep, at + |UnparseEntries(init)|) +
      EntrySpans(last, at + |UnparseEntries(init)| + |UnparseSep(init, last.sep)|)
  }

  function EntrySpans(e: CEntry, at: nat): seq<Token>
    decreases e, 0
  {
    KeySpans(e.key, at) + Spans(e.value, at + |UnparseKey(e.key)|)
  }

  function SepSpans(before: seq<CEntry>, sep: Pad, at: nat): seq<Token> {
    if before == [] then [] else [PunctAt(at + |sep.before|)]
  }

  function KeySpans(key: Option<CKey>, at: nat): seq<Token> {
    if key.Some? then [Token(Str, at, at + |key.value.text|), PunctAt(at + |key.value.text| + |key.value.colon.before|)] else []
  }

  // ---- the tokens of a text, with offsets ----------------------------------------------------------------

  /** The tokens that are not whitespace, placed from `at` on. */
  function Placed(ls: seq<Lexeme>, at: nat): seq<Token> {
    if ls == [] then []
    else (if ls[0].kind == Ws then [] else [Token(ls[0].kind, at, at + |ls[0].text|)]) + Placed(ls[1..], at + |ls[0].text|)
  }

  function PlacedSolids(s: string, at: nat): seq<Token> {
    Placed(Lex(s), at)
  }

  lemma PlacedCons(l: Lexeme, ls: seq<Lexeme>, at: nat)
    ensures Placed([l] + ls, at) ==
            (if l.kind == Ws then [] else [Token(l.kind, at, at + |l.text|)]) + Placed(ls, at + |l.text|)
  {
    Tail(l, ls);
  }

  lemma PlacedHead(s: string, at: nat)
    requires s != ""
    ensures var h := Head(s);
            PlacedSolids(s, at) ==
            (if h.kind == Ws then [] else [Token(h.kind, at, at + |h.text|)]) + PlacedSolids(s[|h.text|..], at + |h.text|)
  {
    hide HeadSpan, Head, Placed;
    PlacedCons(Head(s), Lex(s[|Head(s).text|..]), at);
  }

  lemma PlacedLexeme(l: Lexeme, rest: string, at: nat)
    requires LexemeOk(l) && (IsBare(l.kind) ==> StopAt(rest, 0))
    ensures PlacedSolids(l.text + rest, at) == [Token(l.kind, at, at + |l.text|)] + PlacedSolids(rest, at + |l.text|)
  {
    assert l.kind != Ws;
    hide LexemeOk, Lex, Placed;
    LexLexeme(l, rest);
    PlacedCons(l, Lex(rest), at);
  }

  lemma PlacedWsChar(c: char, r: string, at: nat)
    requires IsWsChar(c)
    ensures PlacedSolids([c] + r, at) == PlacedSolids(r, at + 1)
  {
    var s := [c] + r;
    var n := |Head(s).text|;
    HeadWsRun(c, r);
    hide HeadSpan, Head, Lex, Placed;
    Tail(c, r);
    PlacedHead(s, at);
    Unit(PlacedSolids(s[n..], at + n));
    if n > 1 {
      PlacedHead(r, at + 1);
      assert r[n - 1..] == s[n..];
      Unit(PlacedSolids(r[n - 1..], at + n));
    }
  }

  lemma {:induction false} PlacedWs(w: string, r: string, at: nat)
    requires IsWs(w)
    ensures PlacedSolids(w + r, at) == PlacedSolids(r, at + |w|)
    decreases |w|
  {
    hide PlacedSolids;
    if w == "" {
      Unit(r);
    } else {
      assert w == [w[0]] + w[1..];
      Assoc([w[0]], w[1..], r);
      PlacedWsChar(w[0], w[1..] + r, at);
      PlacedWs(w[1..], r, at + 1);
    }
  }

  lemma PlacedStructural(c: char, pad: Pad, rest: string, at: nat)
    requires IsPunct(c) && WfPad(pad)
    ensures PlacedSolids(Structural(c, pad) + rest, at) ==
            [PunctAt(at + |pad.before|)] + PlacedSolids(rest, at + |Structural(c, pad)|)
  {
    hide PlacedSolids;
    Regroup(pad.before, [c], pad.after, rest);
    PlacedWs(pad.before, [c] + (pad.after + rest), at);
    PlacedLexeme(P(c), pad.after + rest, at + |pad.before|);
    PlacedWs(pad.after, rest, at + |pad.before| + 1);
  }

  lemma PlacedKey(key: Option<CKey>, rest: string, at: nat)
    requires key.Some? ==> IsString(key.value.text) && WfPad(key.value.colon)
    ensures PlacedSolids(UnparseKey(key) + rest, at) == KeySpans(key, at) + PlacedSolids(rest, at + |UnparseKey(key)|)
  {
    hide PlacedSolids;
    if key.Some? {
      var k := key.value;
      var colon := Structural(':', k.colon);
      assert LexemeOk(Lexeme(Str, k.text));
      assert UnparseKey(key) == k.text + colon;
      assert KeySpans(key, at) == [Token(Str, at, at + |k.text|)] + [PunctAt(at + |k.text| + |k.colon.before|)];
      hide Structural, IsString, LexemeOk, UnparseKey, KeySpans;
      Assoc(k.text, colon, rest);
      PlacedLexeme(Lexeme(Str, k.text), colon + rest, at);
      PlacedStructural(':', k.colon, rest, at + |k.text|);
      Assoc([Token(Str, at, at + |k.text|)], [PunctAt(at + |k.text| + |k.colon.before|)], PlacedSolids(rest, at + |k.text| + |colon|));
    } else {
      Unit(rest);
      Unit(PlacedSolids(rest, at));
    }
  }

  /** The tokens of a derived text sit where its derivation says. */
  lemma {:induction false} PlacedUnparse(c: Cst, rest: string, at: nat)
    requires WfCst(c) && StopAt(rest, 0)
    ensures PlacedSolids(Unparse(c) + rest, at) == Spans(c, at) + PlacedSolids(rest, at + |Unparse(c)|)
    decreases c, 1
  {
    hide PlacedSolids, Structural, UnparseEntries, EntriesSpans, LexemeOk;
    match c
    case CScalar(kind, text) =>
      PlacedLexeme(Lexeme(kind, text), rest, at);
    case CContainer(isObject, open, entries, close) =>
      var o, x := Structural(OpenChar(isObject), open), Structural(CloseChar(isObject), close);
      var inner := UnparseEntries(entries);
      Regroup(o, inner, x, rest);
      PlacedStructural(OpenChar(isObject), open, inner + (x + rest), at);
      StopStructural(CloseChar(isObject), close, rest);
      PlacedEntries(isObject, entries, x + rest, at + |o|);
      PlacedStructural(CloseChar(isObject), close, rest, at + |o| + |inner|);
      Regroup([PunctAt(at + |open.before|)], EntriesSpans(entries, at + |o|), [PunctAt(at + |o| + |inner| + |close.before|)],
              PlacedSolids(rest, at + |o| + |inner| + |x|));
  }

  lemma {:induction false} PlacedEntries(isObject: bool, es: seq<CEntry>, rest: string, at: nat)
    requires WfCEntries(isObject, es) && (es != [] ==> StopAt(rest, 0))
    ensures PlacedSolids(UnparseEntries(es) + rest, at) == EntriesSpans(es, at) + PlacedSolids(rest, at + |UnparseEntries(es)|)
    decreases es, 0
  {
    hide PlacedSolids, UnparseEntry, UnparseSep, SepSpans, EntrySpans, WfCst, IsString, StopAt;
    if es == [] {
      Unit(rest);
      Unit(PlacedSolids(rest, at));
    } else {
      var init, last := es[..|es| - 1], es[|es| - 1];
      assert WfCEntry(isObject, last) && WfCEntries(isObject, init) && WfPad(last.sep);
      hide *;
      var u, v, sep := UnparseEntries(init), UnparseEntry(last), UnparseSep(init, last.sep);
      if init != [] {
        StopSep(isObject, init, last, rest);
      }
      PlacedEntries(isObject, init, sep + (v + rest), at);
      PlacedSep(init, last.sep, v + rest, at + |u|);
      PlacedEntry(isObject, last, rest, at + |u| + |sep|);
      PlacedChain(u, sep, v, rest, at, EntriesSpans(init, at), SepSpans(init, last.sep, at + |u|), EntrySpans(last, at + |u| + |sep|));
      SpansSnoc(es, at);
    }
  }

  lemma PlacedChain(u: string, sep: string, v: string, rest: string, at: nat, a: seq<Token>, b: seq<Token>, c: seq<Token>)
    requires PlacedSolids(u + (sep + (v + rest)), at) == a + PlacedSolids(sep + (v + rest), at + |u|)
    requires PlacedSolids(sep + (v + rest), at + |u|) == b + PlacedSolids(v + rest, at + |u| + |sep|)
    requires PlacedSolids(v + rest, at + |u| + |sep|) == c + PlacedSolids(rest, at + |u| + |sep| + |v|)
    ensures PlacedSolids((u + sep + v) + rest, at) == (a + b + c) + PlacedSolids(rest, at + |u + sep + v|)
  {
    hide PlacedSolids;
    Regroup(u, sep, v, rest);
    Regroup(a, b, c, PlacedSolids(rest, at + |u| + |sep| + |v|));
  }

  lemma SpansSnoc(es: seq<CEntry>, at: nat)
    requires es != []
    ensures var init, last := es[..|es| - 1], es[|es| - 1];
            var u, v, sep := UnparseEntries(init), UnparseEntry(last), UnparseSep(init, last.sep);
            UnparseEntries(es) == u + sep + v &&
            EntriesSpans(es, at) == EntriesSpans(init, at) + SepSpans(init, last.sep, at + |u|) + EntrySpans(last, at + |u| + |sep|)
  {
    hide UnparseEntry, UnparseSep, SepSpans, EntrySpans;
  }

  lemma PlacedSep(before: seq<CEntry>, sep: Pad, rest: string, at: nat)
    requires WfPad(sep)
    ensures PlacedSolids(UnparseSep(before, sep) + rest, at) ==
            SepSpans(before, sep, at) + PlacedSolids(rest, at + |UnparseSep(before, sep)|)
  {
    hide PlacedSolids, Structural;
    if before == [] {
      Unit(rest);
      Unit(PlacedSolids(rest, at));
    } else {
      PlacedStructural(',', sep, rest, at);
    }
  }

  lemma {:induction false} PlacedEntry(isObject: bool, e: CEntry, rest: string, at: nat)
    requires WfCEntry(isObject, e) && StopAt(rest, 0)
    ensures PlacedSolids(UnparseEntry(e) + rest, at) == EntrySpans(e, at) + PlacedSolids(rest, at + |UnparseEntry(e)|)
    decreases e, 0
  {
    hide PlacedSolids, UnparseKey, Unparse, KeySpans, Spans;
    var k, v := UnparseKey(e.key), Unparse(e.value);
    Assoc(k, v, rest);
    PlacedKey(e.key, v + rest, at);
    PlacedUnparse(e.value, rest, at + |k|);
    Assoc(KeySpans(e.key, at), Spans(e.value, at + |k|), PlacedSolids(rest, at + |k| + |v|));
  }

  lemma NothingPlaced(at: nat)
    ensures PlacedSolids("", at) == []
  {
  }

  lemma PlacedDerives(c: Cst, before: string, after: string, text: string)
    requires Derives(c, before, after, text)
    ensures PlacedSolids(text, 0) == Spans(c, |before|)
  {
    hide PlacedSolids, Unparse, Spans, WfCst, StopAt, IsWs;
    var v := Unparse(c);
    StopWs(after);
    NothingPlaced(|before| + |v| + |after|);
    PlacedWs(before, v + after, 0);
    PlacedUnparse(c, after, |before|);
    PlacedWs(after, "", |before| + |v|);
    Unit(after);
    Unit(Spans(c, |before|));
    Assoc(before, v, after);
  }

  lemma StopWs(w: string)
    requires IsWs(w)
    ensures StopAt(w, 0)
  {
  }

  // ---- the tokenizer's tokens ---------------------------------------------------------------------------------

  function SolidOnes(ts: seq<Token>): seq<Token> {
    if ts == [] then [] else (if ts[0].kind == Ws then [] else [ts[0]]) + SolidOnes(ts[1..])
  }

  /** The same place and number for number; a key is a string by another name. */
  predicate Agree(t: Token, u: Token) {
    t.start == u.start && t.end == u.end && (t.kind == Num <==> u.kind == Num)
  }

  predicate AllAgree(ts: seq<Token>, us: seq<Token>) {
    |ts| == |us| && forall i :: 0 <= i < |ts| ==> Agree(ts[i], us[i])
  }

  lemma {:induction false} MarkedAgree(ls: seq<Lexeme>, at: nat)
    ensures AllAgree(SolidOnes(Locate(Mark(ls), at)), Placed(ls, at))
  {
    if ls != [] {
      hide ColonNext;
      var m := MarkOne(ls[0], ColonNext(ls[1..]));
      assert m.text == ls[0].text && (m.kind == Ws <==> ls[0].kind == Ws) && (m.kind == Num <==> ls[0].kind == Num);
      MarkedAgree(ls[1..], at + |ls[0].text|);
      Tail(m, Mark(ls[1..]));
      var t := Token(m.kind, at, at + |m.text|);
      Tail(t, Locate(Mark(ls[1..]), at + |m.text|));
    }
  }

  /** The non-whitespace tokens of a document are those of its derivation, in place. */
  lemma TokensInPlace(c: Cst, before: string, after: string, text: string)
    requires Derives(c, before, after, text)
    ensures AllAgree(SolidOnes(Tokens(text)), Spans(c, |before|))
  {
    hide Lex, Mark, Locate, SolidOnes, Placed, Derives, Spans;
    MarkedAgree(Lex(text), 0);
    PlacedDerives(c, before, after, text);
  }
}
