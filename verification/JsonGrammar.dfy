/**
  The lexical grammar of RFC 8259, sections 2, 3, 6 and 7, and its agreement with the
  hand-written scanner: a scalar or structural token is recognised exactly when its text
  belongs to the grammar.
*/
module JsonGrammar {
  import opened Seqs
  import opened JsonLex

  // ---- section 2: whitespace ---------------------------------------------------

  predicate IsWsChar(c: char) {
    c == ' ' || c == '\t' || c == '\n' || c == '\r'
  }

  predicate IsWs(s: string) {
    forall i :: 0 <= i < |s| ==> IsWsChar(s[i])
  }

  // ---- section 6: numbers --------------------------------------------------------

  predicate AllDigits(s: string) {
    forall i :: 0 <= i < |s| ==> IsDigit(s[i])
  }

  /** int = zero / ( digit1-9 *DIGIT ) */
  predicate IsInt(s: string) {
    s == "0" || (|s| > 0 && '1' <= s[0] <= '9' && AllDigits(s[1..]))
  }

  /** frac = decimal-point 1*DIGIT */
  predicate IsFrac(s: string) {
    |s| >= 2 && s[0] == '.' && AllDigits(s[1..])
  }

  /** exp = e [ minus / plus ] 1*DIGIT */
  predicate IsExp(s: string) {
    |s| >= 2 && (s[0] == 'e' || s[0] == 'E') &&
    (AllDigits(s[1..]) || ((s[1] == '+' || s[1] == '-') && |s| >= 3 && AllDigits(s[2..])))
  }

  /** `s` cut at `a`, `b` and `c` is [ minus ] int [ frac ] [ exp ]. */
  predicate NumberParts(s: string, a: nat, b: nat, c: nat) {
    a <= b <= c <= |s| &&
    (s[..a] == "" || s[..a] == "-") &&
    IsInt(s[a..b]) &&
    (s[b..c] == "" || IsFrac(s[b..c])) &&
    (s[c..] == "" || IsExp(s[c..]))
  }

  /** number = [ minus ] int [ frac ] [ exp ] */
  ghost predicate IsNumber(s: string) {
    exists a: nat, b: nat, c: nat :: NumberParts(s, a, b, c)
  }

  // ---- section 7: strings --------------------------------------------------------

  /** unescaped = %x20-21 / %x23-5B / %x5D-10FFFF */
  predicate IsUnescaped(c: char) {
    c >= ' ' && c != '\"' && c != '\\'
  }

  /** *char, where char = unescaped / escape ( %x22 / ... / %x74 / %x75 4HEXDIG ) */
  predicate IsChars(s: string) {
    s == "" ||
    (IsUnescaped(s[0]) && IsChars(s[1..])) ||
    (s[0] == '\\' && |s| >= 2 && s[1] in "\"\\/bfnrt" && IsChars(s[2..])) ||
    (s[0] == '\\' && |s| >= 6 && s[1] == 'u' && (forall k :: 2 <= k < 6 ==> IsHex(s[k])) && IsChars(s[6..]))
  }

  /** string = quotation-mark *char quotation-mark */
  predicate IsString(s: string) {
    |s| >= 2 && s[0] == '\"' && s[|s| - 1] == '\"' && IsChars(s[1..|s| - 1])
  }

  // ---- tokens ----------------------------------------------------------------------

  predicate IsBare(k: Kind) {
    k == Num || k == Bool || k == Null
  }

  /** The text of a token is one its kind allows (sections 2, 3, 6 and 7). */
  ghost predicate LexemeOk(l: Lexeme) {
    match l.kind
    case Str => IsString(l.text)
    case Num => IsNumber(l.text)
    case Bool => l.text == "true" || l.text == "false"
    case Null => l.text == "null"
    case Punct => |l.text| == 1 && IsPunct(l.text[0])
    case _ => false
  }

  // ---- the scanner accepts exactly the string grammar --------------------------------

  lemma {:induction false} HexIsUnescaped(h: string, b: string)
    requires forall k :: 0 <= k < |h| ==> IsHex(h[k])
    ensures IsChars(h + b) == IsChars(b)
  {
    if h == "" {
      assert h + b == b;
    } else {
      HexIsUnescaped(h[1..], b);
      assert (h + b)[1..] == h[1..] + b;
      assert IsUnescaped(h[0]);
    }
  }

  lemma CharsAfterEscape(b: string)
    requires b != "" && b[0] == '\\' && IsChars(b)
    ensures |b| >= 2 && IsChars(b[2..]) && EscapeOk(b, 0)
  {
    if b[1] == 'u' {
      var h := b[2..6];
      assert forall k :: 0 <= k < 4 ==> h[k] == b[k + 2];
      HexIsUnescaped(h, b[6..]);
      assert b[2..] == h + b[6..];
    }
  }

  lemma EscapeThenChars(b: string)
    requires |b| >= 2 && b[0] == '\\' && EscapeOk(b, 0) && IsChars(b[2..])
    ensures IsChars(b)
  {
    if b[1] == 'u' {
      assert forall k :: 2 <= k < 6 ==> IsHex(b[k]);
      HexIsUnescaped(b[2..6], b[6..]);
      assert b[2..] == b[2..6] + b[6..];
    }
  }

  lemma EscapeOkShift(s: string, j: nat, t: string)
    requires j + |t| <= |s| && s[j..j + |t|] == t && EscapeOk(t, 0)
    ensures EscapeOk(s, j)
  {
    assert s[j + 1] == t[1];
    if t[1] == 'u' {
      forall k | j + 2 <= k < j + 6
        ensures IsHex(s[k])
      {
        assert s[k] == t[k - j];
      }
    }
  }

  lemma {:induction false} ScanComplete(s: string, j: nat, b: string)
    requires IsChars(b)
    requires j + |b| < |s| && s[j..j + |b|] == b && s[j + |b|] == '\"'
    ensures ScanString(s, j, true) == Scan(j + |b| + 1, true)
    decreases |b|
  {
    if b != "" {
      assert s[j] == b[0];
      if b[0] == '\\' {
        CharsAfterEscape(b);
        EscapeOkShift(s, j, b);
        assert s[j + 1] == b[1];
        assert s[j + 2..j + 2 + |b[2..]|] == b[2..];
        ScanComplete(s, j + 2, b[2..]);
      } else {
        assert s[j + 1..j + 1 + |b[1..]|] == b[1..];
        ScanComplete(s, j + 1, b[1..]);
      }
    }
  }

  /** Once a string is known to be bad, it stays bad. */
  lemma {:induction false} ScanSound(s: string, j: nat, valid: bool)
    requires j <= |s| && ScanString(s, j, valid).ok
    ensures var end := ScanString(s, j, valid).end;
            s[end - 1] == '\"' && IsChars(s[j..end - 1])
    decreases |s| - j
  {
    var end := ScanString(s, j, valid).end;
    if s[j] == '\\' {
      ScanSound(s, j + 2, valid && EscapeOk(s, j));
      var b := s[j..end - 1];
      assert b[2..] == s[j + 2..end - 1];
      QuoteStopsHex(s, j, end);
      EscapeThenChars(b);
    } else if s[j] != '\"' {
      ScanSound(s, j + 1, valid && s[j] >= ' ');
      assert s[j..end - 1][1..] == s[j + 1..end - 1];
    }
  }

  /** The four hex digits of an escape lie before the closing quote. */
  lemma QuoteStopsHex(s: string, j: nat, end: nat)
    requires j + 2 < end <= |s| && s[end - 1] == '\"' && s[j] == '\\' && EscapeOk(s, j)
    ensures EscapeOk(s[j..end - 1], 0)
  {
    var b := s[j..end - 1];
    assert b[1] == s[j + 1];
    if b[1] == 'u' {
      assert forall k :: j + 2 <= k < j + 6 ==> IsHex(s[k]);
      assert end - 1 >= j + 6;
      assert forall k :: 2 <= k < 6 ==> b[k] == s[j + k];
    }
  }

  // ---- the number expression matches exactly the number grammar ------------------------

  lemma NumberComplete(t: string, a: nat, b: nat, c: nat, s: string)
    requires NumberParts(t, a, b, c)
    requires t <= s && StopAt(s, |t|)
    ensures NumberEnd(s) == |t|
  {
    assert forall k :: 0 <= k < |t| ==> s[k] == t[k];
    FollowsInt(t, a, b, c, s);
    IntComplete(t, a, b, s);
    FracComplete(t, b, c, s);
    ExpComplete(t, c, s);
  }

  /** What comes after the integer part and after the fraction is no digit. */
  lemma FollowsInt(t: string, a: nat, b: nat, c: nat, s: string)
    requires NumberParts(t, a, b, c)
    requires t <= s && StopAt(s, |t|)
    ensures c < |s| ==> !IsDigit(s[c]) && s[c] != '.'
    ensures b < |s| ==> !IsDigit(s[b])
  {
    if c < |t| {
      assert t[c] == t[c..][0];
    }
    if b < c {
      assert t[b] == t[b..c][0];
    }
  }

  lemma IntComplete(t: string, a: nat, b: nat, s: string)
    requires a <= b <= |t| && t <= s
    requires (t[..a] == "" || t[..a] == "-") && IsInt(t[a..b])
    requires b < |s| ==> !IsDigit(s[b])
    ensures IntEnd(s) == b
  {
    var digits := t[a..b];
    assert s[a] == digits[0];
    assert a == 1 ==> s[0] == t[..a][0];
    if digits[0] != '0' {
      assert forall k :: a < k < b ==> s[k] == digits[1..][k - a - 1];
      RunEndIs(s, a + 1, IsDigit, b);
    }
  }

  lemma FracComplete(t: string, b: nat, c: nat, s: string)
    requires b <= c <= |t| && t <= s
    requires t[b..c] == "" || IsFrac(t[b..c])
    requires c < |s| ==> !IsDigit(s[c]) && s[c] != '.'
    ensures FracEnd(s, b) == c
  {
    var frac := t[b..c];
    if frac != "" {
      assert s[b] == frac[0] && s[b + 1] == frac[1..][0];
      assert forall k :: b < k < c ==> s[k] == frac[1..][k - b - 1];
      RunEndIs(s, b + 1, IsDigit, c);
    }
  }

  lemma ExpComplete(t: string, c: nat, s: string)
    requires c <= |t| && t <= s && StopAt(s, |t|)
    requires t[c..] == "" || IsExp(t[c..])
    ensures ExpEnd(s, c) == |t|
  {
    var exp := t[c..];
    if exp != "" {
      assert s[c] == exp[0] && s[c + 1] == exp[1];
      var k := if s[c + 1] == '+' || s[c + 1] == '-' then 2 else 1;
      assert AllDigits(exp[k..]) by {
        if k == 2 {
          assert !IsDigit(exp[1..][0]);
        }
      }
      assert forall i :: c + k <= i < |t| ==> s[i] == exp[k..][i - c - k];
      RunEndIs(s, c + k, IsDigit, |t|);
    }
  }

  lemma SliceOfPrefix(s: string, d: nat, x: nat, y: nat)
    requires x <= y <= d <= |s|
    ensures s[..d][x..y] == s[x..y]
    ensures y == d ==> s[..d][x..] == s[x..y]
  {
  }

  lemma NumberSound(s: string)
    requires NumberEnd(s) > 0
    ensures IsNumber(s[..NumberEnd(s)])
  {
    var a := if s[0] == '-' then 1 else 0;
    var b := IntEnd(s);
    var c := FracEnd(s, b);
    var d := ExpEnd(s, c);
    var t := s[..d];
    IntSound(s);
    SliceOfPrefix(s, d, a, b);
    SliceOfPrefix(s, d, b, c);
    SliceOfPrefix(s, d, c, d);
    ExpSound(s, c);
    FracSound(s, b);
    assert NumberParts(t, a, b, c);
  }

  lemma IntSound(s: string)
    requires IntEnd(s) > 0
    ensures var a := if s[0] == '-' then 1 else 0; a < IntEnd(s) && IsInt(s[a..IntEnd(s)])
  {
    var a := if s[0] == '-' then 1 else 0;
    assert s[a..IntEnd(s)][1..] == s[a + 1..IntEnd(s)];
  }

  lemma FracSound(s: string, b: nat)
    requires b <= |s|
    ensures s[b..FracEnd(s, b)] == "" || IsFrac(s[b..FracEnd(s, b)])
  {
    var c := FracEnd(s, b);
    if b < c {
      assert s[b..c][1..] == s[b + 1..c];
      assert c >= b + 2;
      assert AllDigits(s[b + 1..c]);
    }
  }

  lemma ExpSound(s: string, c: nat)
    requires c <= |s|
    ensures s[c..ExpEnd(s, c)] == "" || IsExp(s[c..ExpEnd(s, c)])
  {
    var d := ExpEnd(s, c);
    if c < d {
      var k := ExpDigits(s, c);
      assert s[c..d][k - c..] == s[k..d];
      assert AllDigits(s[k..d]);
    }
  }

  // ---- one token --------------------------------------------------------------------------

  lemma NumberStart(s: string)
    requires IsNumber(s)
    ensures s != "" && (s[0] == '-' || IsDigit(s[0]))
  {
    var a: nat, b: nat, c: nat :| NumberParts(s, a, b, c);
    assert s[a] == s[a..b][0];
  }

  lemma HeadOfString(t: string, rest: string)
    requires IsString(t)
    ensures Head(t + rest) == Lexeme(Str, t)
  {
    var s := t + rest;
    var b := t[1..|t| - 1];
    assert s[1..1 + |b|] == b;
    ScanComplete(s, 1, b);
    assert s[..|t|] == t;
  }

  lemma HeadOfNumber(t: string, rest: string)
    requires IsNumber(t) && StopAt(rest, 0)
    ensures Head(t + rest) == Lexeme(Num, t)
  {
    var s := t + rest;
    NumberStart(t);
    assert s[..|t|] == t;
    assert |t| < |s| ==> s[|t|] == rest[0];
    assert NumberEnd(s) == |t| by {
      var a: nat, b: nat, c: nat :| NumberParts(t, a, b, c);
      NumberComplete(t, a, b, c, s);
    }
    assert s[0] == t[0];
    HeadIsNumber(s, t);
  }

  lemma HeadIsNumber(s: string, t: string)
    requires t != "" && t <= s && (s[0] == '-' || IsDigit(s[0])) && NumberEnd(s) == |t| && StopAt(s, |t|)
    ensures Head(s) == Lexeme(Num, t)
  {
    hide NumberEnd;
  }

  lemma HeadOfLiteral(l: Lexeme, rest: string)
    requires LexemeOk(l) && (l.kind == Bool || l.kind == Null) && StopAt(rest, 0)
    ensures Head(l.text + rest) == l
  {
    var s := l.text + rest;
    assert s[..|l.text|] == l.text && s[|l.text|..] == rest;
    assert |l.text| < |s| ==> s[|l.text|] == rest[0];
    assert s[0] == l.text[0];
  }

  /** A well-formed token is read back as itself, whatever legal text follows it. */
  lemma HeadOfLexeme(l: Lexeme, rest: string)
    requires LexemeOk(l)
    requires IsBare(l.kind) ==> StopAt(rest, 0)
    ensures l.text != "" && Head(l.text + rest) == l
  {
    match l.kind
    case Str => HeadOfString(l.text, rest);
    case Num => NumberStart(l.text); HeadOfNumber(l.text, rest);
    case Bool => HeadOfLiteral(l, rest);
    case Null => HeadOfLiteral(l, rest);
    case Punct => assert (l.text + rest)[..1] == l.text;
  }

  /** Every token the scanner does not flag belongs to the grammar. */
  lemma HeadOk(s: string)
    requires s != "" && Head(s).kind != Ws && Head(s).kind != Err
    ensures LexemeOk(Head(s))
    ensures IsBare(Head(s).kind) ==> StopAt(s[|Head(s).text|..], 0)
  {
    var l := Head(s);
    var n := |l.text|;
    assert n < |s| ==> s[n..][0] == s[n];
    if s[0] == '\"' {
      ScanSound(s, 1, true);
      assert l.text[1..n - 1] == s[1..n - 1];
    } else if l.kind == Num {
      NumberSound(s);
    }
  }

  lemma HeadWs(s: string)
    requires s != "" && Head(s).kind == Ws
    ensures IsWs(Head(s).text)
  {
  }

  /** Lexing a well-formed token in front of legal text. */
  lemma LexLexeme(l: Lexeme, rest: string)
    requires LexemeOk(l)
    requires IsBare(l.kind) ==> StopAt(rest, 0)
    ensures Lex(l.text + rest) == [l] + Lex(rest)
    ensures Solids(l.text + rest) == [l] + Solids(rest)
  {
    assert l.kind != Ws;
    hide HeadSpan, Head, LexemeOk;
    HeadOfLexeme(l, rest);
    assert (l.text + rest)[|l.text|..] == rest;
    SolidsHead(l.text + rest);
  }

  /** The tokens left once the first one is taken. */
  lemma SolidsHead(s: string)
    requires s != ""
    ensures Head(s).kind == Ws ==> Solids(s) == Solids(s[|Head(s).text|..])
    ensures Head(s).kind != Ws ==> Solids(s) == [Head(s)] + Solids(s[|Head(s).text|..])
  {
    hide HeadSpan, Head;
    Tail(Head(s), Lex(s[|Head(s).text|..]));
    Unit(Solid(Lex(s[|Head(s).text|..])));
  }

  lemma HeadWsRun(c: char, r: string)
    requires IsWsChar(c)
    ensures var n := |Head([c] + r).text|;
            Head([c] + r).kind == Ws && (n > 1 ==> r != "" && Head(r).kind == Ws && |Head(r).text| == n - 1)
  {
    var s := [c] + r;
    var n := |Head(s).text|;
    if n > 1 {
      assert r[0] == s[1];
      assert forall k :: 0 <= k < n - 1 ==> r[k] == s[k + 1];
      assert n < |s| ==> r[n - 1] == s[n];
      RunEndIs(r, 1, IsHorizontalWs, n - 1);
    }
  }

  lemma SolidsWsChar(c: char, r: string)
    requires IsWsChar(c)
    ensures Solids([c] + r) == Solids(r)
  {
    var s := [c] + r;
    var n := |Head(s).text|;
    HeadWsRun(c, r);
    hide HeadSpan, Head, Lex;
    Tail(c, r);
    SolidsHead(s);
    if n > 1 {
      SolidsHead(r);
      assert r[n - 1..] == s[n..];
    }
  }

  /** Whitespace in front of a text changes no other token. */
  lemma {:induction false} SolidsWs(w: string, r: string)
    requires IsWs(w)
    ensures Solids(w + r) == Solids(r)
  {
    hide Solids;
    if w == "" {
      Unit(r);
    } else {
      SolidsWs(w[1..], r);
      SolidsWsChar(w[0], w[1..] + r);
      assert [w[0]] + w[1..] == w;
      Assoc([w[0]], w[1..], r);
    }
  }
}
