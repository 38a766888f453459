/**
  Where the parts of a stored value stand: which tokens a sub-value owns, and what slicing the
  text between two of them gives.
*/
module UpgradePlaces {
  import opened Seqs
  import opened JsonLex
  import opened JsonGrammar
  import opened JsonSyntax
  import opened JsonSpans
  import opened Upgrade

  // ---- slices of the value --------------------------------------------------------------------------------

  /** The tokens from index `k` on begin with these. */
  ghost predicate On(tokens: seq<Token>, k: nat, spans: seq<Token>) {
    k + |spans| <= |tokens| && forall i :: 0 <= i < |spans| ==> Agree(tokens[k + i], spans[i])
  }

  /** The text from offset `at` on begins with this. */
  ghost predicate Reads(value: string, at: nat, s: string) {
    at + |s| <= |value| && value[at..at + |s|] == s
  }

  lemma OnConcat(tokens: seq<Token>, k: nat, a: seq<Token>, b: seq<Token>)
    ensures On(tokens, k, a + b) <==> On(tokens, k, a) && On(tokens, k + |a|, b)
  {
    if On(tokens, k, a + b) {
      forall i | 0 <= i < |a|
        ensures Agree(tokens[k + i], a[i])
      {
        assert (a + b)[i] == a[i];
      }
      forall i | 0 <= i < |b|
        ensures Agree(tokens[k + |a| + i], b[i])
      {
        assert (a + b)[|a| + i] == b[i];
      }
    }
    if On(tokens, k, a) && On(tokens, k + |a|, b) {
      forall i | 0 <= i < |a + b|
        ensures Agree(tokens[k + i], (a + b)[i])
      {
        if i >= |a| {
          assert tokens[k + |a| + (i - |a|)] == tokens[k + i];
        }
      }
    }
  }

  lemma ReadsConcat(value: string, at: nat, a: string, b: string)
    ensures Reads(value, at, a + b) <==> Reads(value, at, a) && Reads(value, at + |a|, b)
  {
    if Reads(value, at, a + b) {
      assert value[at..at + |a|] == (a + b)[..|a|];
      assert value[at + |a|..at + |a| + |b|] == (a + b)[|a|..];
    }
    if Reads(value, at, a) && Reads(value, at + |a|, b) {
      assert value[at..at + |a + b|] == value[at..at + |a|] + value[at + |a|..at + |a| + |b|];
    }
  }

  lemma OnOne(tokens: seq<Token>, k: nat, t: Token)
    requires On(tokens, k, [t])
    ensures k < |tokens| && Agree(tokens[k], t)
  {
    assert Agree(tokens[k + 0], [t][0]);
  }

  lemma OnThree(tokens: seq<Token>, k: nat, a: seq<Token>, b: seq<Token>, c: seq<Token>)
    requires On(tokens, k, a + b + c)
    ensures On(tokens, k, a) && On(tokens, k + |a|, b) && On(tokens, k + |a| + |b|, c)
  {
    hide On;
    OnConcat(tokens, k, a + b, c);
    OnConcat(tokens, k, a, b);
  }

  lemma ReadsThree(value: string, at: nat, a: string, b: string, c: string)
    requires Reads(value, at, a + b + c)
    ensures Reads(value, at, a) && Reads(value, at + |a|, b) && Reads(value, at + |a| + |b|, c)
  {
    hide Reads;
    ReadsConcat(value, at, a + b, c);
    ReadsConcat(value, at, a, b);
  }

  /** A structural character reads at its place. */
  lemma StructuralReads(value: string, at: nat, x: char, pad: Pad)
    requires Reads(value, at, Structural(x, pad))
    ensures at + |pad.before| < |value| && value[at + |pad.before|] == x
  {
    ReadsThree(value, at, pad.before, [x], pad.after);
    assert value[at + |pad.before|..at + |pad.before| + 1][0] == [x][0];
  }

  /** The derivation `c` stands at offset `at`, its tokens from index `k` on. */
  ghost predicate Stands(value: string, tokens: seq<Token>, c: Cst, at: nat, k: nat) {
    On(tokens, k, Spans(c, at)) && Reads(value, at, Unparse(c))
  }

  // ---- the text of a value, from its first token to its last ------------------------------------------------------

  function Lead(c: Cst): string {
    if c.CScalar? then "" else c.open.before
  }

  function Trail(c: Cst): string {
    if c.CScalar? then "" else c.close.after
  }

  lemma TextShape(c: Cst)
    ensures Unparse(c) == Lead(c) + (Upgrade.Text(c) + Trail(c))
  {
    if c.CScalar? {
      Unit(c.text);
    } else {
      hide UnparseEntries;
      var o, x := [OpenChar(c.isObject)], [CloseChar(c.isObject)];
      var es := UnparseEntries(c.entries);
      var a, b, d, e := c.open.before, c.open.after, c.close.before, c.close.after;
      assert Upgrade.Text(c) == ("" + o + b) + es + (d + x + "");
      ShapeRegroup(a, o, b, es, d, x, e);
    }
  }

  lemma ShapeRegroup(a: string, o: string, b: string, es: string, d: string, x: string, e: string)
    ensures (a + o + b) + es + (d + x + e) == a + ((("" + o + b) + es + (d + x + "")) + e)
  {
    Unit(o);
    Unit(d + x);
    var t := (o + b) + es + (d + x);
    Assoc(a, o, b);
    Assoc(a, o + b, es);
    Assoc((a + (o + b)) + es, d + x, e);
    Assoc(a, (o + b) + es, d + x);
    Assoc(a, t, e);
  }

  lemma EdgeSpans(c: Cst, at: nat)
    ensures |Spans(c, at)| > 0
    ensures Spans(c, at)[0].start == at + |Lead(c)|
    ensures Spans(c, at)[|Spans(c, at)| - 1].end == at + |Lead(c)| + |Upgrade.Text(c)|
  {
    hide UnparseEntries, EntriesSpans;
  }

  lemma OnAt(tokens: seq<Token>, k: nat, spans: seq<Token>, i: nat)
    requires On(tokens, k, spans) && i < |spans|
    ensures k + i < |tokens| && Agree(tokens[k + i], spans[i])
  {
  }

  /** Slicing from the first token to the last gives the text. */
  lemma SliceIsText(value: string, tokens: seq<Token>, c: Cst, at: nat, k: nat)
    requires Stands(value, tokens, c, at, k)
    ensures |Spans(c, at)| > 0 && k + |Spans(c, at)| <= |tokens|
    ensures tokens[k].start <= tokens[k + |Spans(c, at)| - 1].end <= |value|
    ensures value[tokens[k].start..tokens[k + |Spans(c, at)| - 1].end] == Upgrade.Text(c)
  {
    hide Spans, Unparse, Trim, Lead, Trail, Upgrade.Text, On, Reads;
    EdgeSpans(c, at);
    TextShape(c);
    var n, a, t, z := |Spans(c, at)|, Lead(c), Upgrade.Text(c), Trail(c);
    OnAt(tokens, k, Spans(c, at), 0);
    OnAt(tokens, k, Spans(c, at), n - 1);
    Assoc(a, t, z);
    ReadsThree(value, at, a, t, z);
    ReadsIs(value, at + |a|, t);
  }

  lemma ReadsIs(value: string, at: nat, s: string)
    requires Reads(value, at, s)
    ensures at + |s| <= |value| && value[at..at + |s|] == s
  {
  }

  lemma OpensWith(c: Cst)
    requires c.CContainer?
    ensures exists rest :: Unparse(c) == c.open.before + [OpenChar(c.isObject)] + rest
    ensures |Spans(c, 0)| > 0
  {
    hide UnparseEntries, EntriesSpans;
    var head, o := c.open.before, [OpenChar(c.isObject)];
    var es, s := UnparseEntries(c.entries), Structural(CloseChar(c.isObject), c.close);
    Assoc(head + o + c.open.after, es, s);
    Assoc(head + o, c.open.after, es + s);
    assert Unparse(c) == head + o + (c.open.after + (es + s));
  }

  /** The first token of a value reads as its text, if it is a scalar, or as its bracket. */
  lemma FirstToken(value: string, tokens: seq<Token>, c: Cst, at: nat, k: nat)
    requires Stands(value, tokens, c, at, k)
    ensures k < |tokens| && tokens[k].start <= tokens[k].end <= |value|
    ensures value[tokens[k].start..tokens[k].end] == if c.CScalar? then c.text else [OpenChar(c.isObject)]
    ensures c.CScalar? ==> (tokens[k].kind == Num <==> c.kind == Num)
  {
    hide On, Reads, EntriesSpans, UnparseEntries;
    if c.CScalar? {
      OnOne(tokens, k, Token(c.kind, at, at + |c.text|));
      ReadsIs(value, at, c.text);
    } else {
      var a, o := c.open.before, [OpenChar(c.isObject)];
      OnAt(tokens, k, Spans(c, at), 0);
      assert Agree(tokens[k], PunctAt(at + |a|));
      hide Spans, Unparse;
      OpensWith(c);
      var rest :| Unparse(c) == a + o + rest;
      ReadsThree(value, at, a, o, rest);
      ReadsIs(value, at + |a|, o);
    }
  }

  lemma {:induction false} FirstChar(c: Cst)
    requires WfCst(c)
    ensures Upgrade.Text(c) != "" && Upgrade.Text(c)[0] !in ['}', ']', ',']
  {
    if c.CScalar? {
      ScalarStarts(c.kind, c.text);
    } else {
      hide UnparseEntries;
      assert Upgrade.Text(c)[0] == OpenChar(c.isObject);
    }
  }

  lemma ScalarStarts(kind: Kind, text: string)
    requires IsScalarKind(kind) && LexemeOk(Lexeme(kind, text))
    ensures text != "" && text[0] !in ['}', ']', ',', '{', '[']
    ensures kind == Str <==> text[0] == '\"'
  {
    if kind == Num {
      assert IsNumber(text);
    }
  }

  // ---- where the entries stand ----------------------------------------------------------------------------------------

  /** Offset of entry `i`, after its separator. */
  function EntryAt(es: seq<CEntry>, i: nat, at: nat): nat
    requires i < |es|
  {
    at + |UnparseEntries(es[..i])| + |UnparseSep(es[..i], es[i].sep)|
  }

  /** Number of tokens before entry `i`, its separator included. */
  function EntryIndex(es: seq<CEntry>, i: nat, at: nat): nat
    requires i < |es|
  {
    |EntriesSpans(es[..i], at)| + |SepSpans(es[..i], es[i].sep, at + |UnparseEntries(es[..i])|)|
  }

  ghost predicate EntriesStand(value: string, tokens: seq<Token>, es: seq<CEntry>, at: nat, k: nat) {
    On(tokens, k, EntriesSpans(es, at)) && Reads(value, at, UnparseEntries(es))
  }

  ghost predicate EntryStands(value: string, tokens: seq<Token>, e: CEntry, at: nat, k: nat) {
    On(tokens, k, EntrySpans(e, at)) && Reads(value, at, UnparseEntry(e))
  }

  /** The separator in front of entry `i` stands before it. */
  ghost predicate SepStands(value: string, tokens: seq<Token>, es: seq<CEntry>, i: nat, at: nat, k: nat)
    requires i < |es|
  {
    var b := at + |UnparseEntries(es[..i])|;
    On(tokens, k + |EntriesSpans(es[..i], at)|, SepSpans(es[..i], es[i].sep, b)) && Reads(value, b, UnparseSep(es[..i], es[i].sep))
  }

  lemma EntryPlace(es: seq<CEntry>, i: nat, at: nat)
    requires i < |es|
    ensures EntryAt(es, i, at) == at + |UnparseEntries(es[..i])| + |UnparseSep(es[..i], es[i].sep)|
    ensures EntryIndex(es, i, at) == |EntriesSpans(es[..i], at)| + |SepSpans(es[..i], es[i].sep, at + |UnparseEntries(es[..i])|)|
  {
  }

  lemma LastStands(value: string, tokens: seq<Token>, es: seq<CEntry>, at: nat, k: nat)
    requires es != [] && EntriesStand(value, tokens, es, at, k)
    ensures var i := |es| - 1;
            EntriesStand(value, tokens, es[..i], at, k) && SepStands(value, tokens, es, i, at, k) &&
            EntryStands(value, tokens, es[i], EntryAt(es, i, at), k + EntryIndex(es, i, at))
    ensures EntryIndex(es, |es| - 1, at) + |EntrySpans(es[|es| - 1], EntryAt(es, |es| - 1, at))| == |EntriesSpans(es, at)|
  {
    hide EntriesSpans, SepSpans, EntrySpans, UnparseEntries, UnparseSep, UnparseEntry, On, Reads, EntryAt, EntryIndex;
    var i := |es| - 1;
    var init, last := es[..i], es[i];
    SpansSnoc(es, at);
    EntryPlace(es, i, at);
    var u, sep, v := UnparseEntries(init), UnparseSep(init, last.sep), UnparseEntry(last);
    OnThree(tokens, k, EntriesSpans(init, at), SepSpans(init, last.sep, at + |u|), EntrySpans(last, at + |u| + |sep|));
    ReadsThree(value, at, u, sep, v);
  }

  lemma {:induction false} NthStands(value: string, tokens: seq<Token>, es: seq<CEntry>, i: nat, at: nat, k: nat)
    requires i < |es| && EntriesStand(value, tokens, es, at, k)
    ensures SepStands(value, tokens, es, i, at, k)
    ensures EntryStands(value, tokens, es[i], EntryAt(es, i, at), k + EntryIndex(es, i, at))
    ensures EntryIndex(es, i, at) + |EntrySpans(es[i], EntryAt(es, i, at))| == |EntriesSpans(es[..i + 1], at)|
    decreases |es|
  {
    hide EntriesSpans, SepSpans, EntrySpans, UnparseEntries, UnparseSep, UnparseEntry, On, Reads, EntryAt, EntryIndex, EntriesStand, EntryStands,
         SepStands;
    LastStands(value, tokens, es, at, k);
    if i < |es| - 1 {
      var init := es[..|es| - 1];
      SameStart(es, i, at, value, tokens, k);
      NthStands(value, tokens, init, i, at, k);
    } else {
      assert es[..i + 1] == es;
    }
  }

  lemma SameStart(es: seq<CEntry>, i: nat, at: nat, value: string, tokens: seq<Token>, k: nat)
    requires i < |es| - 1
    ensures var init := es[..|es| - 1];
            init[i] == es[i] && init[..i + 1] == es[..i + 1] && EntryAt(init, i, at) == EntryAt(es, i, at) &&
            EntryIndex(init, i, at) == EntryIndex(es, i, at) && SepStands(value, tokens, init, i, at, k) == SepStands(value, tokens, es, i, at, k)
  {
    hide EntriesSpans, SepSpans, UnparseEntries, UnparseSep, On, Reads;
    assert es[..|es| - 1][..i] == es[..i];
  }

  lemma CommaStands(value: string, tokens: seq<Token>, es: seq<CEntry>, i: nat, at: nat, k: nat)
    requires 0 < i < |es| && SepStands(value, tokens, es, i, at, k)
    ensures var j := k + |EntriesSpans(es[..i], at)|;
            j < |tokens| && tokens[j].start < |value| && value[tokens[j].start] == ','
    ensures EntryIndex(es, i, at) == |EntriesSpans(es[..i], at)| + 1
  {
    hide EntriesSpans, UnparseEntries, On, Reads, Structural;
    var b, pad := at + |UnparseEntries(es[..i])|, es[i].sep;
    assert es[..i] != [];
    OnOne(tokens, k + |EntriesSpans(es[..i], at)|, PunctAt(b + |pad.before|));
    StructuralReads(value, b, ',', pad);
  }

  lemma FirstIndex(es: seq<CEntry>, at: nat)
    requires es != []
    ensures EntryIndex(es, 0, at) == 0 && |EntriesSpans(es[..0], at)| == 0
  {
    assert es[..0] == [];
  }

  /** The parts of a container. */
  lemma PartsStand(value: string, tokens: seq<Token>, c: Cst, at: nat, k: nat)
    requires c.CContainer? && Stands(value, tokens, c, at, k)
    ensures var inner := at + |Structural(OpenChar(c.isObject), c.open)|;
            var n := |EntriesSpans(c.entries, inner)|;
            EntriesStand(value, tokens, c.entries, inner, k + 1) && |Spans(c, at)| == n + 2 &&
            k + 1 + n < |tokens| && tokens[k + 1 + n].start < |value| && value[tokens[k + 1 + n].start] == CloseChar(c.isObject)
  {
    hide Spans, Unparse, EntriesSpans, UnparseEntries, On, Reads, Structural, PunctAt;
    ContainerSpans(c, at);
    var o, close := Structural(OpenChar(c.isObject), c.open), Structural(CloseChar(c.isObject), c.close);
    var inner, es := at + |o|, UnparseEntries(c.entries);
    var a, b := EntriesSpans(c.entries, inner), PunctAt(inner + |es| + |c.close.before|);
    OnThree(tokens, k, [PunctAt(at + |c.open.before|)], a, [b]);
    ReadsThree(value, at, o, es, close);
    CloseStands(value, tokens, c.close, CloseChar(c.isObject), inner + |es|, k + 1 + |a|);
  }

  lemma ContainerSpans(c: Cst, at: nat)
    requires c.CContainer?
    ensures var o, close := Structural(OpenChar(c.isObject), c.open), Structural(CloseChar(c.isObject), c.close);
            var inner, es := at + |o|, UnparseEntries(c.entries);
            Unparse(c) == o + es + close &&
            Spans(c, at) == [PunctAt(at + |c.open.before|)] + EntriesSpans(c.entries, inner) + [PunctAt(inner + |es| + |c.close.before|)]
  {
    hide EntriesSpans, UnparseEntries, Structural, PunctAt;
  }

  lemma CloseStands(value: string, tokens: seq<Token>, pad: Pad, x: char, at: nat, k: nat)
    requires On(tokens, k, [PunctAt(at + |pad.before|)]) && Reads(value, at, Structural(x, pad))
    ensures k < |tokens| && tokens[k].start < |value| && value[tokens[k].start] == x
  {
    hide On, Reads, Structural;
    OnOne(tokens, k, PunctAt(at + |pad.before|));
    StructuralReads(value, at, x, pad);
  }

  /** A member: its key token, and its value two tokens on. */
  lemma MemberStands(value: string, tokens: seq<Token>, e: CEntry, at: nat, k: nat)
    requires EntryStands(value, tokens, e, at, k) && e.key.Some?
    ensures k < |tokens| && tokens[k].start <= tokens[k].end <= |value|
    ensures value[tokens[k].start..tokens[k].end] == e.key.value.text
    ensures Stands(value, tokens, e.value, at + |UnparseKey(e.key)|, k + 2)
    ensures |EntrySpans(e, at)| == 2 + |Spans(e.value, at + |UnparseKey(e.key)|)|
  {
    var key := e.key.value;
    var a, b := KeySpans(e.key, at), Spans(e.value, at + |UnparseKey(e.key)|);
    assert |a| == 2;
    hide Spans, Unparse, On, Reads;
    OnConcat(tokens, k, a, b);
    ReadsConcat(value, at, UnparseKey(e.key), Unparse(e.value));
    KeyStands(value, tokens, key, at, k);
  }

  lemma KeyStands(value: string, tokens: seq<Token>, key: CKey, at: nat, k: nat)
    requires On(tokens, k, KeySpans(Some(key), at)) && Reads(value, at, UnparseKey(Some(key)))
    ensures k < |tokens| && tokens[k].start <= tokens[k].end <= |value|
    ensures value[tokens[k].start..tokens[k].end] == key.text
  {
    var a, b := Token(Str, at, at + |key.text|), PunctAt(at + |key.text| + |key.colon.before|);
    assert KeySpans(Some(key), at) == [a] + [b];
    hide On, Structural;
    OnConcat(tokens, k, [a], [b]);
    OnOne(tokens, k, a);
    ReadsConcat(value, at, key.text, Structural(':', key.colon));
  }

  /** An item: no key. */
  lemma ItemStands(value: string, tokens: seq<Token>, e: CEntry, at: nat, k: nat)
    requires EntryStands(value, tokens, e, at, k) && e.key.None?
    ensures Stands(value, tokens, e.value, at, k) && EntrySpans(e, at) == Spans(e.value, at)
  {
    hide Spans, Unparse, On, Reads;
    Unit(Spans(e.value, at));
    Unit(Unparse(e.value));
  }

  // ---- the loop over the entries of a container -----------------------------------------------------------------------

  /** Offset of the first entry. */
  function Inside(c: Cst, at: nat): nat
    requires c.CContainer?
  {
    at + |Structural(OpenChar(c.isObject), c.open)|
  }

  /** Number of tokens passed when entry `i`, or the closing bracket, comes next. */
  function Reached(es: seq<CEntry>, i: nat, at: nat): nat
    requires i <= |es|
  {
    if i < |es| then EntryIndex(es, i, at) else |EntriesSpans(es, at)|
  }

  /** Offset of the value of entry `i`. */
  function ValueAt(c: Cst, at: nat, i: nat): nat
    requires c.CContainer? && i < |c.entries|
  {
    EntryAt(c.entries, i, Inside(c, at)) + |UnparseKey(c.entries[i].key)|
  }

  lemma StartStep(c: Cst, at: nat, k: nat)
    requires c.CContainer?
    ensures Here(c, at, k, 0) == k + 1
  {
    if c.entries != [] {
      FirstIndex(c.entries, Inside(c, at));
    }
  }

  lemma EntryStep(value: string, tokens: seq<Token>, c: Cst, at: nat, k: nat, i: nat)
    requires c.CContainer? && Stands(value, tokens, c, at, k) && i < |c.entries|
    ensures var es, inner := c.entries, Inside(c, at);
            EntryStands(value, tokens, es[i], EntryAt(es, i, inner), k + 1 + Reached(es, i, inner)) &&
            Reached(es, i, inner) + |EntrySpans(es[i], EntryAt(es, i, inner))| == |EntriesSpans(es[..i + 1], inner)|
  {
    hide Stands, EntriesStand, SepStands, EntryStands, EntryAt, EntryIndex, EntrySpans, EntriesSpans, Structural;
    PartsStand(value, tokens, c, at, k);
    NthStands(value, tokens, c.entries, i, Inside(c, at), k + 1);
  }

  /** Index of the token after the first `i` entries. */
  function After(c: Cst, at: nat, k: nat, i: nat): nat
    requires c.CContainer? && i <= |c.entries|
  {
    k + 1 + |EntriesSpans(c.entries[..i], Inside(c, at))|
  }

  /** Index of the first token of entry `i`, or of the closing bracket. */
  function Here(c: Cst, at: nat, k: nat, i: nat): nat
    requires c.CContainer? && i <= |c.entries|
  {
    k + 1 + Reached(c.entries, i, Inside(c, at))
  }

  /** A member from token `j` on: its key text, and its value two tokens on. */
  ghost predicate MemberHere(value: string, tokens: seq<Token>, e: CEntry, at: nat, j: nat) {
    e.key.Some? && WfCst(e.value) &&
    j < |tokens| && tokens[j].start < tokens[j].end <= |value| && value[tokens[j].start..tokens[j].end] == e.key.value.text &&
    value[tokens[j].start] != '}' && Stands(value, tokens, e.value, at, j + 2)
  }

  /** An item from token `j` on. */
  ghost predicate ItemHere(value: string, tokens: seq<Token>, e: CEntry, at: nat, j: nat) {
    WfCst(e.value) && j < |tokens| && tokens[j].start < |value| && value[tokens[j].start] != ']' && Stands(value, tokens, e.value, at, j)
  }

  lemma MemberStep(value: string, tokens: seq<Token>, c: Cst, at: nat, k: nat, i: nat)
    requires c.CContainer? && c.isObject && WfCst(c) && Stands(value, tokens, c, at, k) && i < |c.entries|
    ensures MemberHere(value, tokens, c.entries[i], ValueAt(c, at, i), Here(c, at, k, i))
    ensures Here(c, at, k, i) + 2 + |Spans(c.entries[i].value, ValueAt(c, at, i))| == After(c, at, k, i + 1)
  {
    hide Stands, EntryStands, Reached, Inside, EntryAt, EntrySpans, EntriesSpans, UnparseKey, Spans, WfCst, IsString;
    var e := c.entries[i];
    EntryIsWf(c, i);
    EntryStep(value, tokens, c, at, k, i);
    var j := Here(c, at, k, i);
    MemberStands(value, tokens, e, EntryAt(c.entries, i, Inside(c, at)), j);
    KeyStarts(e.key.value.text);
    SliceStarts(value, tokens[j].start, tokens[j].end);
  }

  lemma EntryIsWf(c: Cst, i: nat)
    requires c.CContainer? && WfCst(c) && i < |c.entries|
    ensures var e := c.entries[i];
            WfCst(e.value) && e.key.Some? == c.isObject && (e.key.Some? ==> IsString(e.key.value.text))
  {
    assert WfCEntry(c.isObject, c.entries[i]);
    hide IsString, IsWs;
  }

  lemma SliceStarts(value: string, i: nat, j: nat)
    requires i <= j <= |value| && value[i..j] != ""
    ensures i < j && value[i] == value[i..j][0]
  {
  }

  lemma KeyStarts(text: string)
    requires IsString(text)
    ensures text != "" && text[0] == '\"'
  {
  }

  lemma ItemStep(value: string, tokens: seq<Token>, c: Cst, at: nat, k: nat, i: nat)
    requires c.CContainer? && !c.isObject && WfCst(c) && Stands(value, tokens, c, at, k) && i < |c.entries|
    ensures ItemHere(value, tokens, c.entries[i], ValueAt(c, at, i), Here(c, at, k, i))
    ensures Here(c, at, k, i) + |Spans(c.entries[i].value, ValueAt(c, at, i))| == After(c, at, k, i + 1)
  {
    hide Stands, EntryStands, Reached, Inside, EntryAt, EntrySpans, EntriesSpans, Spans, WfCst, Upgrade.Text;
    var e := c.entries[i];
    EntryIsWf(c, i);
    EntryStep(value, tokens, c, at, k, i);
    var j := Here(c, at, k, i);
    ItemStands(value, tokens, e, EntryAt(c.entries, i, Inside(c, at)), j);
    SliceIsText(value, tokens, e.value, ValueAt(c, at, i), j);
    FirstChar(e.value);
    SliceStarts(value, tokens[j].start, tokens[j + |Spans(e.value, ValueAt(c, at, i))| - 1].end);
  }

  /** After an entry: a comma in front of the next one, or the closing bracket. */
  lemma NextStep(value: string, tokens: seq<Token>, c: Cst, at: nat, k: nat, i: nat)
    requires c.CContainer? && Stands(value, tokens, c, at, k) && 0 < i <= |c.entries|
    ensures var j := After(c, at, k, i);
            j < |tokens| && tokens[j].start < |value| && (value[tokens[j].start] == ',' <==> i < |c.entries|) &&
            Here(c, at, k, i) == if i < |c.entries| then j + 1 else j
  {
    hide Stands, EntriesStand, SepStands, EntryStands, EntryAt, EntryIndex, EntrySpans, EntriesSpans, Structural;
    PartsStand(value, tokens, c, at, k);
    if i < |c.entries| {
      NthStands(value, tokens, c.entries, i, Inside(c, at), k + 1);
      CommaStands(value, tokens, c.entries, i, Inside(c, at), k + 1);
    } else {
      assert c.entries[..i] == c.entries;
    }
  }

  /** After the last entry: the closing bracket, the last token of the container. */
  lemma EndStep(value: string, tokens: seq<Token>, c: Cst, at: nat, k: nat)
    requires c.CContainer? && Stands(value, tokens, c, at, k)
    ensures var j := Here(c, at, k, |c.entries|);
            j < |tokens| && tokens[j].start < |value| && value[tokens[j].start] == CloseChar(c.isObject) && j + 1 == k + |Spans(c, at)|
  {
    hide Stands, EntriesStand, EntriesSpans, Structural, Spans;
    PartsStand(value, tokens, c, at, k);
  }

  /** The first token tells the kind of value. */
  lemma Opening(value: string, tokens: seq<Token>, c: Cst, at: nat, k: nat)
    requires WfCst(c) && Stands(value, tokens, c, at, k)
    ensures k < |tokens| && tokens[k].start <= tokens[k].end <= |value|
    ensures var ch := value[tokens[k].start..tokens[k].end];
            (ch == "{" <==> c.CContainer? && c.isObject) && (ch == "[" <==> c.CContainer? && !c.isObject) &&
            (c.CScalar? ==> ch == c.text && (tokens[k].kind == Num <==> c.kind == Num) && |Spans(c, at)| == 1)
  {
    if c.CScalar? {
      ScalarStarts(c.kind, c.text);
    }
    hide Stands, LexemeOk;
    FirstToken(value, tokens, c, at, k);
  }

  /** A document stands after its leading whitespace, on all its tokens. */
  lemma DocumentStands(c: Cst, before: string, after: string, value: string)
    requires Derives(c, before, after, value)
    ensures WfCst(c) && Stands(value, SolidOnes(Tokens(value)), c, |before|, 0)
  {
    assert WfCst(c) && value == before + Unparse(c) + after;
    hide Spans, Unparse, SolidOnes, Tokens, Derives, WfCst;
    TokensInPlace(c, before, after, value);
    assert value[|before|..|before| + |Unparse(c)|] == Unparse(c);
  }
}
