/**
  The compaction in front of a schema's hash: a character loop that drops whitespace
  outside strings, tracking quotes and escapes only.  On every document it agrees with the
  token-based minifier (`CompactIsMinify`).
*/
module JsonCompact {
  import opened Seqs
  import opened JsonLex
  import opened JsonGrammar
  import opened JsonSyntax
  import opened JsonCheck
  import opened JsonPrint
  import opened JsonText

  /** The characters `\s` matches. */
  predicate IsSpace(c: char) {
    '\t' <= c <= '\r' || c == ' ' || c == '\U{A0}' || c == '\U{1680}' || '\U{2000}' <= c <= '\U{200A}' ||
    c == '\U{2028}' || c == '\U{2029}' || c == '\U{202F}' || c == '\U{205F}' || c == '\U{3000}' || c == '\U{FEFF}'
  }

  /** What the loop still appends, from the given state. */
  function CompactFrom(s: string, inString: bool, escaped: bool): string {
    if s == "" then ""
    else if inString then
      [s[0]] +
      (if escaped then CompactFrom(s[1..], true, false)
       else if s[0] == '\\' then CompactFrom(s[1..], true, true)
       else CompactFrom(s[1..], s[0] != '\"', false))
    else if s[0] == '\"' then [s[0]] + CompactFrom(s[1..], true, false)
    else if IsSpace(s[0]) then CompactFrom(s[1..], false, false)
    else [s[0]] + CompactFrom(s[1..], false, false)
  }

  function Compact(s: string): string {
    CompactFrom(s, false, false)
  }

  // ---- pieces of a document ------------------------------------------------------------------

  lemma {:induction false} CompactWs(w: string, r: string)
    requires IsWs(w)
    ensures Compact(w + r) == Compact(r)
  {
    if w == "" {
      assert w + r == r;
    } else {
      CompactWs(w[1..], r);
      assert (w + r)[1..] == w[1..] + r;
    }
  }

  predicate IsPlain(c: char) {
    !IsSpace(c) && c != '\"'
  }

  lemma {:induction false} CompactPlain(t: string, r: string)
    requires forall i :: 0 <= i < |t| ==> IsPlain(t[i])
    ensures Compact(t + r) == t + Compact(r)
  {
    if t == "" {
      assert t + r == r;
    } else {
      CompactPlain(t[1..], r);
      assert (t + r)[1..] == t[1..] + r;
      assert t == [t[0]] + t[1..];
    }
  }

  lemma {:induction false} CompactChars(b: string, r: string)
    requires IsChars(b)
    ensures CompactFrom(b + "\"" + r, true, false) == b + "\"" + Compact(r)
    decreases |b|
  {
    hide CompactFrom;
    var rest := "\"" + r;
    assert b + "\"" + r == b + rest;
    if b == "" {
      assert b + rest == rest;
      InString('\"', 'x', r);
    } else if b[0] == '\\' {
      CharsAfterEscape(b);
      CompactChars(b[2..], r);
      InString(b[0], b[1], b[2..] + "\"" + r);
      assert b + "\"" + r == [b[0], b[1]] + (b[2..] + "\"" + r);
    } else {
      CompactChars(b[1..], r);
      InString(b[0], 'x', b[1..] + "\"" + r);
      assert b + "\"" + r == [b[0]] + (b[1..] + "\"" + r);
    }
  }

  /** Inside a string: the closing quote, an escape, any other character. */
  lemma InString(c: char, d: char, s: string)
    ensures c == '\"' ==> CompactFrom([c] + s, true, false) == [c] + Compact(s)
    ensures c == '\\' ==> CompactFrom([c, d] + s, true, false) == [c, d] + CompactFrom(s, true, false)
    ensures c != '\"' && c != '\\' ==> CompactFrom([c] + s, true, false) == [c] + CompactFrom(s, true, false)
  {
    Tail(c, s);
    Tail(d, s);
    var t := [c, d] + s;
    assert t[0] == c && t[1..] == [d] + s;
    assert [c] + ([d] + CompactFrom(s, true, false)) == [c, d] + CompactFrom(s, true, false);
  }

  lemma CompactString(t: string, r: string)
    requires IsString(t)
    ensures Compact(t + r) == t + Compact(r)
  {
    var b := t[1..|t| - 1];
    assert t == "\"" + b + "\"";
    assert (t + r)[1..] == b + "\"" + r;
    CompactChars(b, r);
  }

  lemma NumberIsPlain(s: string)
    requires IsNumber(s)
    ensures forall i :: 0 <= i < |s| ==> IsPlain(s[i])
  {
    var a: nat, b: nat, c: nat :| NumberParts(s, a, b, c);
    forall i | 0 <= i < |s|
      ensures IsPlain(s[i])
    {
      if i < a {
        assert s[i] == s[..a][i];
      } else if i < b {
        PlainInt(s[a..b], i - a);
        assert s[i] == s[a..b][i - a];
      } else if i < c {
        PlainFrac(s[b..c], i - b);
        assert s[i] == s[b..c][i - b];
      } else {
        PlainExp(s[c..], i - c);
        assert s[i] == s[c..][i - c];
      }
    }
  }

  lemma PlainInt(s: string, i: nat)
    requires IsInt(s) && i < |s|
    ensures IsPlain(s[i])
  {
    if i > 0 {
      assert s[i] == s[1..][i - 1];
    }
  }

  lemma PlainFrac(s: string, i: nat)
    requires IsFrac(s) && i < |s|
    ensures IsPlain(s[i])
  {
    if i > 0 {
      assert s[i] == s[1..][i - 1];
    }
  }

  lemma PlainExp(s: string, i: nat)
    requires IsExp(s) && i < |s|
    ensures IsPlain(s[i])
  {
    if i > 0 {
      assert s[i] == s[1..][i - 1];
    }
    if i > 1 {
      assert s[i] == s[2..][i - 2];
    }
  }

  lemma CompactScalar(l: Lexeme, r: string)
    requires LexemeOk(l) && l.kind != Punct
    ensures Compact(l.text + r) == l.text + Compact(r)
  {
    hide CompactFrom;
    if l.kind == Str {
      CompactString(l.text, r);
    } else {
      if l.kind == Num {
        NumberIsPlain(l.text);
      }
      CompactPlain(l.text, r);
    }
  }

  lemma CompactStructural(c: char, pad: Pad, r: string)
    requires IsPunct(c) && WfPad(pad)
    ensures Compact(Structural(c, pad) + r) == [c] + Compact(r)
  {
    hide CompactFrom;
    assert Structural(c, pad) + r == pad.before + ([c] + (pad.after + r));
    CompactWs(pad.before, [c] + (pad.after + r));
    CompactPlain([c], pad.after + r);
    CompactWs(pad.after, r);
  }

  // ---- whole documents --------------------------------------------------------------------------

  lemma {:induction false} CompactCst(c: Cst, depth: nat, r: string)
    requires WfCst(c)
    ensures Compact(Unparse(c) + r) == Print(Erase(c), depth, Minified) + Compact(r)
    decreases c, 1
  {
    hide Compact, UnparseEntries, EraseEntries, PrintEntries, Structural;
    match c
    case CScalar(kind, text) =>
      CompactScalar(Lexeme(kind, text), r);
    case CContainer(isObject, open, entries, close) =>
      var o, x := Structural(OpenChar(isObject), open), Structural(CloseChar(isObject), close);
      assert Unparse(c) + r == o + (UnparseEntries(entries) + (x + r));
      CompactStructural(OpenChar(isObject), open, UnparseEntries(entries) + (x + r));
      CompactEntries(isObject, entries, depth + 1, x + r);
      CompactStructural(CloseChar(isObject), close, r);
      EmptyPrint(depth + 1);
  }

  lemma EmptyPrint(depth: nat)
    ensures PrintEntries([], depth, Minified) == ""
  {
  }

  lemma SnocPrint(es: seq<CEntry>, depth: nat)
    requires es != []
    ensures PrintEntries(EraseEntries(es), depth, Minified)
         == PrintEntries(EraseEntries(es[..|es| - 1]), depth, Minified) + (if |es| == 1 then "" else ",") +
            PrintEntry(EraseEntry(es[|es| - 1]), depth, Minified)
  {
    assert EraseEntries(es)[..|es| - 1] == EraseEntries(es[..|es| - 1]);
  }

  lemma {:induction false} CompactEntries(isObject: bool, es: seq<CEntry>, depth: nat, r: string)
    requires WfCEntries(isObject, es)
    ensures Compact(UnparseEntries(es) + r) == PrintEntries(EraseEntries(es), depth, Minified) + Compact(r)
    decreases es, 0
  {
    hide Compact, PrintEntry, EraseEntry, UnparseEntry, PrintEntries, EraseEntries, Structural, WfCst;
    if es == [] {
      assert UnparseEntries(es) + r == r;
      assert EraseEntries(es) == [];
      EmptyPrint(depth);
    } else {
      var init, last := es[..|es| - 1], es[|es| - 1];
      var sep, v := UnparseSep(init, last.sep), UnparseEntry(last);
      Regroup(UnparseEntries(init), sep, v, r);
      assert WfCEntry(isObject, last);
      CompactEntries(isObject, init, depth, sep + (v + r));
      if init == [] {
        assert sep + (v + r) == v + r;
      } else {
        CompactStructural(',', last.sep, v + r);
      }
      CompactEntry(isObject, last, depth, r);
      SnocPrint(es, depth);
    }
  }

  lemma {:induction false} CompactEntry(isObject: bool, e: CEntry, depth: nat, r: string)
    requires WfCEntry(isObject, e)
    ensures Compact(UnparseEntry(e) + r) == PrintEntry(EraseEntry(e), depth, Minified) + Compact(r)
    decreases e, 0
  {
    hide Compact, Structural, Print, Erase, Unparse, WfCst, IsString;
    CompactCst(e.value, depth, r);
    if isObject {
      var k := e.key.value;
      var rest := Unparse(e.value) + r;
      assert UnparseEntry(e) + r == k.text + (Structural(':', k.colon) + rest);
      CompactScalar(Lexeme(Str, k.text), Structural(':', k.colon) + rest);
      CompactStructural(':', k.colon, rest);
    } else {
      assert UnparseEntry(e) + r == Unparse(e.value) + r;
    }
  }

  /** Two independent compactors, one language: they agree on every document. */
  lemma CompactIsMinify(text: string)
    requires WellFormed(text)
    ensures Some(Compact(text)) == Reemit(text, Minified)
  {
    hide Compact, Solids, Unparse, WellFormed, Reemit;
    AcceptsIffDerivable(text);
    var c, before, after :| Derives(c, before, after, text);
    SolidsDerives(c, before, after, text);
    EraseWf(c);
    ReemitPrints(text, Erase(c), Minified);
    assert text == before + (Unparse(c) + after);
    CompactWs(before, Unparse(c) + after);
    CompactCst(c, 0, after);
    CompactWs(after, "");
    assert after + "" == after;
    NothingCompact();
    assert Print(Erase(c), 0, Minified) + "" == Print(Erase(c), 0, Minified);
  }

  lemma NothingCompact()
    ensures Compact("") == ""
  {
  }

  /** The text that is hashed; nothing when parsing the schema throws. */
  method CompactSchema(text: string) returns (r: Option<string>)
    ensures r == Reemit(text, Minified)
  {
    hide CompactFrom, Reemit, Derivable;
    var problem := CheckJson(text);
    AcceptsIffDerivable(text);
    if problem.Some? {
      assert Reemit(text, Minified).None? by { NotReemitted(text); }
      return None;
    }
    var compact, inString, escaped := "", false, false;
    assert text[0..] == text;
    for k := 0 to |text|
      invariant escaped ==> inString
      invariant compact + CompactFrom(text[k..], inString, escaped) == Compact(text)
    {
      var character := text[k];
      ghost var before := (compact, inString, escaped);
      if inString {
        compact := compact + [character];
        if escaped {
          escaped := false;
        } else if character == '\\' {
          escaped := true;
        } else if character == '\"' {
          inString := false;
        }
      } else if character == '\"' {
        inString := true;
        compact := compact + [character];
      } else if !IsSpace(character) {
        compact := compact + [character];
      }
      CompactTurn(text, k, character, text[k + 1..], before.0, before.1, before.2);
    }
    assert text[|text|..] == "";
    CompactNothing(inString, escaped);
    assert compact + "" == compact;
    CompactIsMinify(text);
    return Some(compact);
  }

  /** One turn of the loop moves a character from what is left to what is written. */
  lemma CompactTurn(text: string, k: nat, c: char, rest: string, compact: string, inString: bool, escaped: bool)
    requires k < |text| && (escaped ==> inString)
    requires c == text[k] && rest == text[k + 1..]
    ensures compact + CompactFrom(text[k..], inString, escaped)
         == if inString then compact + [c] + CompactFrom(rest, escaped || c != '\"', !escaped && c == '\\')
            else if c == '\"' then compact + [c] + CompactFrom(rest, true, false)
            else if IsSpace(c) then compact + CompactFrom(rest, false, false)
            else compact + [c] + CompactFrom(rest, false, false)
  {
    hide IsSpace;
    assert text[k..][1..] == rest;
    Append(compact, c, CompactFrom(rest, if inString then escaped || c != '\"' else c == '\"',
                                   inString && !escaped && c == '\\'));
  }

  lemma NotReemitted(text: string)
    requires !WellFormed(text)
    ensures Reemit(text, Minified).None?
  {
  }

  lemma CompactNothing(inString: bool, escaped: bool)
    ensures CompactFrom("", inString, escaped) == ""
  {
  }
}
