/**
  The tokenizer as the console runs it: one pass over the text that never backs up, with
  the kind of an earlier token changed in place when a colon arrives.
*/
module JsonTokenizer {
  import opened Seqs
  import opened JsonLex
  import opened JsonSyntax

  lemma {:induction false} ColonNextSnoc(ls: seq<Lexeme>, l: Lexeme)
    requires !IsColon(l)
    ensures ColonNext(ls + [l]) == ColonNext(ls)
  {
    if ls == [] {
      assert (ls + [l])[1..] == [];
    } else {
      ColonNextSnoc(ls[1..], l);
      assert (ls + [l])[1..] == ls[1..] + [l];
    }
  }

  lemma {:induction false} MarkSnoc(ls: seq<Lexeme>, l: Lexeme)
    requires !IsColon(l)
    ensures Mark(ls + [l]) == Mark(ls) + [l]
  {
    if ls == [] {
      assert (ls + [l])[1..] == [];
    } else {
      MarkSnoc(ls[1..], l);
      ColonNextSnoc(ls[1..], l);
      assert (ls + [l])[1..] == ls[1..] + [l];
    }
  }

  lemma {:induction false} MarkSize(ls: seq<Lexeme>)
    ensures |Mark(ls)| == |ls|
    ensures forall i :: 0 <= i < |ls| ==> Mark(ls)[i] == MarkOne(ls[i], ColonNext(ls[i + 1..]))
  {
    if ls != [] {
      MarkSize(ls[1..]);
      forall i | 0 <= i < |ls|
        ensures Mark(ls)[i] == MarkOne(ls[i], ColonNext(ls[i + 1..]))
      {
        if i > 0 {
          assert Mark(ls)[i] == Mark(ls[1..])[i - 1];
          assert ls[1..][i - 1] == ls[i];
          assert ls[1..][i..] == ls[i + 1..];
        }
      }
    }
  }

  lemma {:induction false} ColonNextAtEnd(ls: seq<Lexeme>, j: nat, k: int)
    requires j <= |ls| && -1 <= k < |ls|
    requires forall i :: k < i < |ls| ==> ls[i].kind == Ws
    requires k >= 0 ==> ls[k].kind != Ws
    ensures ColonNext(ls[j..] + [P(':')]) == (j > k || ColonNext(ls[j..]))
    ensures j > k ==> !ColonNext(ls[j..])
    decreases |ls| - j
  {
    var xs := ls[j..];
    if j == |ls| {
      assert xs + [P(':')] == [P(':')];
    } else {
      ColonNextAtEnd(ls, j + 1, k);
      assert xs[1..] == ls[j + 1..];
      assert (xs + [P(':')])[1..] == xs[1..] + [P(':')];
    }
  }

  /** What a colon does to the tokens before it: the last solid one, if it is a string, gets the kind `Key`. */
  lemma MarkColon(ls: seq<Lexeme>, k: int)
    requires -1 <= k < |ls|
    requires forall i :: k < i < |ls| ==> ls[i].kind == Ws
    requires k >= 0 ==> ls[k].kind != Ws
    ensures |Mark(ls)| == |ls| && (k >= 0 ==> Mark(ls)[k] == ls[k])
    ensures Mark(ls + [P(':')])
         == (if k >= 0 && ls[k].kind == Str then Mark(ls)[k := ls[k].(kind := Key)] else Mark(ls)) + [P(':')]
  {
    hide Mark, ColonNext;
    var xs := ls + [P(':')];
    MarkSize(ls);
    MarkSize(xs);
    if k >= 0 {
      ColonNextAtEnd(ls, k + 1, k);
    }
    forall i | 0 <= i < |ls|
      ensures Mark(xs)[i] == if i == k then MarkOne(ls[i], true) else Mark(ls)[i]
    {
      ColonNextAtEnd(ls, i + 1, k);
      assert xs[i + 1..] == ls[i + 1..] + [P(':')];
    }
    assert Mark(xs)[|ls|] == P(':');
  }

  lemma {:induction false} LocateSnoc(ls: seq<Lexeme>, l: Lexeme, at: nat)
    ensures Locate(ls + [l], at) == Locate(ls, at) + [Token(l.kind, at + |Text(ls)|, at + |Text(ls)| + |l.text|)]
  {
    if ls == [] {
      Unit([l]);
      assert [l][1..] == [];
    } else {
      var rest, end := Locate(ls[1..], at + |ls[0].text|), at + |Text(ls)|;
      LocateSnoc(ls[1..], l, at + |ls[0].text|);
      Cons(ls, [l]);
      Append([Token(ls[0].kind, at, at + |ls[0].text|)] + rest, Token(l.kind, end, end + |l.text|), []);
      Assoc([Token(ls[0].kind, at, at + |ls[0].text|)], rest, [Token(l.kind, end, end + |l.text|)]);
    }
  }

  lemma {:induction false} TextSnoc(ls: seq<Lexeme>, l: Lexeme)
    ensures Text(ls + [l]) == Text(ls) + l.text
  {
    if ls == [] {
      assert (ls + [l])[1..] == [];
    } else {
      TextSnoc(ls[1..], l);
      assert (ls + [l])[1..] == ls[1..] + [l];
    }
  }

  lemma {:induction false} TextMark(ls: seq<Lexeme>)
    ensures Text(Mark(ls)) == Text(ls)
  {
    if ls != [] {
      TextMark(ls[1..]);
      assert Mark(ls)[1..] == Mark(ls[1..]);
    }
  }

  lemma {:induction false} LocateAt(ls: seq<Lexeme>, at: nat, k: nat)
    requires k < |ls|
    ensures |Locate(ls, at)| == |ls|
    ensures Locate(ls, at)[k] == Token(ls[k].kind, at + |Text(ls[..k])|, at + |Text(ls[..k])| + |ls[k].text|)
  {
    if k == 0 {
      assert ls[..0] == [];
      if |ls| > 1 {
        LocateAt(ls[1..], at + |ls[0].text|, 0);
      }
    } else {
      LocateAt(ls[1..], at + |ls[0].text|, k - 1);
      assert ls[..k][1..] == ls[1..][..k - 1];
    }
  }

  lemma {:induction false} LocateKinds(ls: seq<Lexeme>, at: nat, k: nat, l: Lexeme)
    requires k < |ls| && l.text == ls[k].text
    ensures |Locate(ls, at)| == |ls|
    ensures Locate(ls[k := l], at) == Locate(ls, at)[k := Locate(ls, at)[k].(kind := l.kind)]
  {
    if k == 0 {
      assert ls[k := l][1..] == ls[1..];
      LocateAt(ls, at, 0);
    } else {
      LocateKinds(ls[1..], at + |ls[0].text|, k - 1, l);
      assert ls[k := l][1..] == ls[1..][k - 1 := l];
    }
  }

  method FindPreviousSolid(tokens: seq<Token>) returns (k: int)
    ensures -1 <= k < |tokens|
    ensures k >= 0 ==> tokens[k].kind != Ws
    ensures forall i :: k < i < |tokens| ==> tokens[i].kind == Ws
  {
    k := |tokens| - 1;
    while k >= 0
      invariant -1 <= k < |tokens|
      invariant forall i :: k < i < |tokens| ==> tokens[i].kind == Ws
    {
      if tokens[k].kind != Ws {
        return;
      }
      k := k - 1;
    }
  }

  predicate IsHex4(t: string) {
    |t| == 4 && forall i :: 0 <= i < 4 ==> IsHex(t[i])
  }

  lemma EscapeOkAt(text: string, i: nat, j: nat)
    requires i <= j < |text|
    ensures EscapeOk(text[i..], j - i) ==
      (j + 1 < |text| &&
       if text[j + 1] == 'u'
       then j + 6 <= |text| && IsHex4(text[j + 2..j + 6])
       else text[j + 1] in "\"\\/bfnrt")
  {
    var s := text[i..];
    if j + 6 <= |text| {
      var t := text[j + 2..j + 6];
      assert forall k :: j - i + 2 <= k < j - i + 6 ==> s[k] == t[k - (j - i) - 2];
      assert forall k :: 0 <= k < 4 ==> t[k] == s[k + (j - i + 2)];
    }
  }

  /** The string loop of the tokenizer: from the opening quote at `i` to the end of the token. */
  method ScanStringAt(text: string, i: nat) returns (j: nat, ok: bool)
    requires i < |text| && text[i] == '\"'
    ensures i < j <= |text| && Scan(j - i, ok) == ScanString(text[i..], 1, true)
  {
    var n := |text|;
    ghost var s := text[i..];
    var closed, valid := false, true;
    j := i + 1;
    while j < n && !closed
      invariant i < j <= n + 1
      invariant closed ==> j <= n && ScanString(s, 1, true) == Scan(j - i, valid)
      invariant !closed && j <= n ==> ScanString(s, 1, true) == ScanString(s, j - i, valid)
      invariant !closed && j > n ==> ScanString(s, 1, true) == Scan(n - i, false)
      decreases n - j, !closed
    {
      var d := text[j];
      assert s[j - i] == d;
      if d == '\\' {
        EscapeOkAt(text, i, j);
        if j + 1 < n && text[j + 1] == 'u' {
          if !(j + 6 <= n && IsHex4(text[j + 2..j + 6])) { valid := false; }
        } else if j + 1 >= n || text[j + 1] !in "\"\\/bfnrt" {
          valid := false;
        }
        assert j + 1 < n ==> s[j + 1 - i] == text[j + 1];
        j := if j + 1 < n && text[j + 1] == '\n' then j + 1 else j + 2;
      } else {
        if d < ' ' { valid := false; }
        if d == '\n' {
          return j, false;
        }
        j := j + 1;
        if d == '\"' { closed := true; }
      }
    }
    if j > n { j := n; }
    ok := closed && valid;
  }

  /** The first token at `i`. */
  method TokenAt(text: string, i: nat) returns (kind: Kind, j: nat)
    requires i < |text|
    ensures i < j <= |text| && (kind, j - i) == HeadSpan(text[i..])
  {
    hide ScanString, NumberEnd, StopAt, RunEnd;
    var n := |text|;
    var c := text[i];
    ghost var s := text[i..];
    assert c == s[0];
    if c == '\n' {
      return Ws, i + 1;
    } else if IsHorizontalWs(c) {
      j := i + 1;
      while j < n && IsHorizontalWs(text[j])
        invariant i < j <= n
        invariant forall k :: 0 <= k < j - i ==> IsHorizontalWs(s[k])
      {
        assert s[j - i] == text[j];
        j := j + 1;
      }
      RunEndIs(s, 1, IsHorizontalWs, j - i);
      return Ws, j;
    } else if c == '\"' {
      var ok;
      j, ok := ScanStringAt(text, i);
      return if ok then Str else Err, j;
    } else if IsPunct(c) {
      return Punct, i + 1;
    } else if c == '-' || IsDigit(c) {
      var m := NumberEnd(text[i..]);
      if m > 0 && StopAt(text[i..], m) {
        return Num, i + m;
      }
    } else if LiteralAt(text[i..], "true") {
      return Bool, i + 4;
    } else if LiteralAt(text[i..], "null") {
      return Null, i + 4;
    } else if LiteralAt(text[i..], "false") {
      return Bool, i + 5;
    }
    j := i + 1;
    while j < n && !IsStop(text[j])
      invariant i < j <= n
      invariant forall k :: 1 <= k < j - i ==> NotStop(s[k])
    {
      assert s[j - i] == text[j];
      j := j + 1;
    }
    RunEndIs(s, 1, NotStop, j - i);
    kind := Err;
  }

  lemma LexNext(text: string, s: string, ls: seq<Lexeme>)
    requires s != "" && Lex(text) == ls + Lex(s)
    ensures Lex(text) == ls + [Head(s)] + Lex(s[|Head(s).text|..])
  {
    hide Head, Lex;
    LexUnfold(s);
    Append(ls, Head(s), Lex(s[|Head(s).text|..]));
  }

  lemma TokenizeStep(ls: seq<Lexeme>, l: Lexeme, tokens: seq<Token>, k: int)
    requires tokens == Locate(Mark(ls), 0)
    requires IsColon(l) ==> -1 <= k < |tokens| && (k >= 0 ==> tokens[k].kind != Ws)
    requires IsColon(l) ==> forall i :: k < i < |tokens| ==> tokens[i].kind == Ws
    ensures |tokens| == |ls|
    ensures Locate(Mark(ls + [l]), 0)
         == (if IsColon(l) && k >= 0 && tokens[k].kind == Str then tokens[k := tokens[k].(kind := Key)] else tokens) +
            [Token(l.kind, |Text(ls)|, |Text(ls)| + |l.text|)]
  {
    hide Text;
    MarkSize(ls);
    LocateSize(Mark(ls), 0);
    if IsColon(l) {
      forall i | 0 <= i < |ls|
        ensures tokens[i].kind == Mark(ls)[i].kind && (tokens[i].kind == Ws <==> ls[i].kind == Ws)
      {
        LocateAt(Mark(ls), 0, i);
      }
      MarkColonLocated(ls, tokens, k);
    } else {
      MarkSnoc(ls, l);
      TextMark(ls);
      LocateSnoc(Mark(ls), l, 0);
    }
  }

  lemma {:induction false} LocateSize(ls: seq<Lexeme>, at: nat)
    ensures |Locate(ls, at)| == |ls|
  {
    if ls != [] {
      LocateSize(ls[1..], at + |ls[0].text|);
    }
  }

  lemma MarkColonLocated(ls: seq<Lexeme>, tokens: seq<Token>, k: int)
    requires tokens == Locate(Mark(ls), 0) && |Mark(ls)| == |tokens| == |ls|
    requires -1 <= k < |tokens|
    requires forall i :: 0 <= i < |ls| ==> tokens[i].kind == Mark(ls)[i].kind && (tokens[i].kind == Ws <==> ls[i].kind == Ws)
    requires k >= 0 ==> tokens[k].kind != Ws
    requires forall i :: k < i < |tokens| ==> tokens[i].kind == Ws
    ensures Locate(Mark(ls + [P(':')]), 0)
         == (if k >= 0 && tokens[k].kind == Str then tokens[k := tokens[k].(kind := Key)] else tokens) +
            [Token(Punct, |Text(ls)|, |Text(ls)| + 1)]
  {
    hide Text, Locate, Mark, ColonNext;
    MarkColon(ls, k);
    TextMark(ls);
    if k >= 0 && ls[k].kind == Str {
      var ms := Mark(ls)[k := ls[k].(kind := Key)];
      LocateKinds(Mark(ls), 0, k, ls[k].(kind := Key));
      LocateSnoc(ms, P(':'), 0);
      TextUpdate(Mark(ls), k, ls[k].(kind := Key));
    } else {
      LocateSnoc(Mark(ls), P(':'), 0);
    }
  }

  lemma {:induction false} TextUpdate(ls: seq<Lexeme>, k: nat, l: Lexeme)
    requires k < |ls| && l.text == ls[k].text
    ensures Text(ls[k := l]) == Text(ls)
  {
    if k == 0 {
      assert ls[k := l][1..] == ls[1..];
    } else {
      TextUpdate(ls[1..], k - 1, l);
      assert ls[k := l][1..] == ls[1..][k - 1 := l];
    }
  }

  /** `Tokens` in one pass: a colon makes a key of the last solid token if that is a string. */
  method TokenizeJson(text: string) returns (tokens: seq<Token>)
    ensures tokens == Tokens(text)
  {
    hide Lex, Mark, Locate, Text, HeadSpan;
    tokens := [];
    var i := 0;
    ghost var ls: seq<Lexeme> := [];
    assert text[0..] == text && ls + Lex(text) == Lex(text);
    NoTokens();
    while i < |text|
      invariant 0 <= i <= |text|
      invariant Lex(text) == ls + Lex(text[i..])
      invariant |Text(ls)| == i
      invariant tokens == Locate(Mark(ls), 0)
    {
      var kind, j := TokenAt(text, i);
      ghost var l := Head(text[i..]);
      assert l == Lexeme(kind, text[i..j]) by { assert text[i..][..j - i] == text[i..j]; }
      LexNext(text, text[i..], ls);
      DropTwice(text, i, j - i);
      TextSnoc(ls, l);
      var k := -1;
      if kind == Punct && text[i] == ':' {
        k := FindPreviousSolid(tokens);
      }
      PunctAt(text, i, kind, j);
      TokenizeStep(ls, l, tokens, k);
      if k >= 0 && tokens[k].kind == Str {
        tokens := tokens[k := tokens[k].(kind := Key)];
      }
      tokens := tokens + [Token(kind, i, j)];
      i := j;
      ls := ls + [l];
    }
    assert text[i..] == "" && ls + [] == ls;
    NoTokens();
  }

  lemma NoTokens()
    ensures Lex("") == [] && Mark([]) == [] && Locate([], 0) == [] && Text([]) == ""
  {
  }

  lemma PunctAt(text: string, i: nat, kind: Kind, j: nat)
    requires i < j <= |text| && (kind, j - i) == HeadSpan(text[i..])
    ensures IsColon(Lexeme(kind, text[i..j])) <==> kind == Punct && text[i] == ':'
  {
    assert text[i..][0] == text[i];
    if kind == Punct {
      assert text[i..j] == [text[i]];
    }
  }
}
