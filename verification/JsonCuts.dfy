/**
  A line feed separates the tokens in front of it from those behind it, and the first token of a
  text is the same once the text is cut where that token ends.
*/
module JsonCuts {
  import opened Seqs
  import opened JsonLex
  import opened JsonGrammar

  const LF := Lexeme(Ws, "\n")

  // ---- the first token does not see past its line -----------------------------------------

  lemma {:induction false} ScanCut(s: string, r: string, j: nat, valid: bool)
    requires j <= |s|
    ensures ScanString(s + "\n" + r, j, valid) == ScanString(s, j, valid)
    decreases |s| - j
  {
    var t := s + "\n" + r;
    assert t[|s|] == '\n';
    if j < |s| {
      assert t[j] == s[j];
      if s[j] == '\\' {
        if j + 1 < |s| {
          assert t[j + 1] == s[j + 1];
          EscapeCut(s, r, j);
          ScanCut(s, r, j + 2, valid && EscapeOk(s, j));
        }
      } else if s[j] != '\"' {
        ScanCut(s, r, j + 1, valid && s[j] >= ' ');
      }
    }
  }

  lemma EscapeCut(s: string, r: string, j: nat)
    requires j + 1 < |s|
    ensures EscapeOk(s + "\n" + r, j) == EscapeOk(s, j)
  {
    var t := s + "\n" + r;
    assert forall k :: 0 <= k < |s| ==> t[k] == s[k];
    if s[j + 1] == 'u' && |s| < j + 6 {
      assert !IsHex(t[|s|]);
    }
  }

  lemma RunCut(s: string, r: string, i: nat, p: char -> bool)
    requires i <= |s| && !p('\n')
    ensures RunEnd(s + "\n" + r, i, p) == RunEnd(s, i, p)
  {
    var t := s + "\n" + r;
    assert forall k :: 0 <= k < |s| ==> t[k] == s[k];
    assert t[|s|] == '\n';
    RunEndIs(t, i, p, RunEnd(s, i, p));
  }

  lemma NumberCut(s: string, r: string)
    ensures NumberEnd(s + "\n" + r) == NumberEnd(s)
  {
    IntCut(s, r);
    FracCut(s, r, IntEnd(s));
    ExpCut(s, r, FracEnd(s, IntEnd(s)));
  }

  lemma IntCut(s: string, r: string)
    ensures IntEnd(s + "\n" + r) == IntEnd(s)
  {
    var t := s + "\n" + r;
    assert t[|s|] == '\n' && forall k :: 0 <= k < |s| ==> t[k] == s[k];
    if |s| > 0 {
      var a := if s[0] == '-' then 1 else 0;
      if a < |s| {
        RunCut(s, r, a + 1, IsDigit);
      }
    }
  }

  lemma FracCut(s: string, r: string, b: nat)
    requires b <= |s|
    ensures FracEnd(s + "\n" + r, b) == FracEnd(s, b)
  {
    var t := s + "\n" + r;
    assert t[|s|] == '\n' && forall k :: 0 <= k < |s| ==> t[k] == s[k];
    if b + 1 < |s| {
      RunCut(s, r, b + 1, IsDigit);
    }
  }

  lemma ExpCut(s: string, r: string, c: nat)
    requires c <= |s|
    ensures ExpEnd(s + "\n" + r, c) == ExpEnd(s, c)
  {
    var t := s + "\n" + r;
    assert t[|s|] == '\n' && forall k :: 0 <= k < |s| ==> t[k] == s[k];
    if c < |s| {
      var k := ExpDigits(s, c);
      assert k < |s| ==> ExpDigits(t, c) == k;
      if k <= |s| {
        RunCut(s, r, k, IsDigit);
      }
    }
  }

  lemma StopCut(s: string, r: string, n: nat)
    requires n <= |s|
    ensures StopAt(s + "\n" + r, n) == StopAt(s, n)
  {
    var t := s + "\n" + r;
    assert t[|s|] == '\n' && forall k :: 0 <= k < |s| ==> t[k] == s[k];
  }

  lemma LiteralCut(s: string, r: string, word: string)
    requires '\n' !in word
    ensures LiteralAt(s + "\n" + r, word) == LiteralAt(s, word)
  {
    var t := s + "\n" + r;
    assert t[|s|] == '\n' && forall k :: 0 <= k < |s| ==> t[k] == s[k];
    if |word| <= |s| {
      assert t[..|word|] == s[..|word|];
      StopCut(s, r, |word|);
    }
  }

  lemma HeadCut(s: string, r: string)
    requires s != ""
    ensures Head(s + "\n" + r) == Head(s)
  {
    hide ScanString, NumberEnd, WordEnd, LiteralAt, StopAt, RunEnd;
    var t := s + "\n" + r;
    assert t[0] == s[0];
    RunCut(s, r, 1, IsHorizontalWs);
    WordCut(s, r);
    ScanCut(s, r, 1, true);
    NumberCut(s, r);
    StopCut(s, r, NumberEnd(s));
    LiteralCut(s, r, "true");
    LiteralCut(s, r, "null");
    LiteralCut(s, r, "false");
    assert HeadSpan(t) == HeadSpan(s);
    assert t[..HeadSpan(s).1] == s[..HeadSpan(s).1];
  }

  lemma WordCut(s: string, r: string)
    requires s != ""
    ensures WordEnd(s + "\n" + r) == WordEnd(s)
  {
    RunCut(s, r, 1, NotStop);
  }

  // ---- a line break separates the tokens -----------------------------------------------------

  lemma {:induction false} LexCut(s: string, r: string)
    ensures Lex(s + "\n" + r) == Lex(s) + [LF] + Lex(r)
    decreases |s|
  {
    hide HeadSpan;
    var t := s + "\n" + r;
    LexUnfold(t);
    if s == "" {
      assert t == "\n" + r;
      HeadOfLf(r);
      assert t[1..] == r;
    } else {
      HeadCut(s, r);
      var n := |Head(s).text|;
      LexCut(s[n..], r);
      assert t[n..] == s[n..] + "\n" + r;
      Regroup([Head(s)], Lex(s[n..]), [LF], Lex(r));
    }
  }

  lemma HeadOfLf(r: string)
    ensures Head("\n" + r) == LF
  {
    assert ("\n" + r)[..1] == "\n";
  }

  /** The solid tokens around a line feed. */
  lemma SolidsCut(s: string, r: string)
    ensures Solids(s + "\n" + r) == Solids(s) + Solids(r)
  {
    LexCut(s, r);
    hide Lex;
    LexemeSolidConcat(Lex(s) + [LF], Lex(r));
    LexemeSolidConcat(Lex(s), [LF]);
    assert Solid([LF]) == [] by { assert [LF][1..] == []; }
    Unit(Solids(s));
  }

  // ---- a token that is no JSON stays one when the text ends with it -----------------------------------------------

  lemma {:induction false} ScanEnds(s: string, j: nat, valid: bool)
    requires j <= |s|
    ensures var e := ScanString(s, j, valid).end; ScanString(s[..e], j, valid) == ScanString(s, j, valid)
    decreases |s| - j
  {
    var scan := ScanString(s, j, valid);
    var t := s[..scan.end];
    if j < |s| && s[j] == '\\' {
      if j + 1 < |s| && s[j + 1] == '\n' {
      } else if j + 2 <= |s| {
        EscapeEnds(s, j, valid);
        ScanEnds(s, j + 2, valid && EscapeOk(s, j));
      }
    } else if j < |s| && s[j] != '\n' && s[j] != '\"' {
      ScanEnds(s, j + 1, valid && s[j] >= ' ');
    }
  }

  /** An escape that reaches past the end of its string is none either way. */
  lemma EscapeEnds(s: string, j: nat, valid: bool)
    requires j + 2 <= |s| && s[j] == '\\' && s[j + 1] != '\n'
    ensures var e := ScanString(s, j, valid).end; j + 2 <= e && EscapeOk(s[..e], j) == EscapeOk(s, j)
  {
    var e := ScanString(s, j, valid).end;
    if s[j + 1] == 'u' && e < j + 6 {
      NotHexAtEnd(s, j + 2, valid && EscapeOk(s, j));
    }
  }

  lemma {:induction false} NotHexAtEnd(s: string, j: nat, valid: bool)
    requires j <= |s|
    ensures var e := ScanString(s, j, valid).end;
            e == |s| || (e > j && s[e - 1] == '\"') || s[e] == '\n'
    decreases |s| - j
  {
    if j < |s| && s[j] == '\\' {
      var v := valid && EscapeOk(s, j);
      if j + 1 < |s| && s[j + 1] == '\n' {
        NotHexAtEnd(s, j + 1, v);
      } else if j + 2 <= |s| {
        NotHexAtEnd(s, j + 2, v);
      }
    } else if j < |s| && s[j] != '\n' && s[j] != '\"' {
      NotHexAtEnd(s, j + 1, valid && s[j] >= ' ');
    }
  }

  lemma {:induction false} NoStopInside(s: string, i: nat)
    requires i <= |s|
    ensures forall k :: i <= k < RunEnd(s, i, NotStop) ==> !IsStop(s[k])
    ensures RunEnd(s, i, NotStop) < |s| ==> IsStop(s[RunEnd(s, i, NotStop)])
    decreases |s| - i
  {
    if i < |s| && NotStop(s[i]) {
      NoStopInside(s, i + 1);
    }
  }

  /** `w` is the word that `s` begins with. */
  ghost predicate IsWordOf(w: string, s: string) {
    w != "" && w <= s && StopAt(s, |w|) && forall k :: 0 <= k < |w| ==> !IsStop(w[k])
  }

  lemma NumberAlone(w: string, s: string)
    requires IsWordOf(w, s) && NumberEnd(w) > 0 && StopAt(w, NumberEnd(w))
    ensures NumberEnd(s) == |w|
  {
    hide NumberEnd, IsStop;
    assert NumberEnd(w) == |w|;
    NumberSound(w);
    assert w[..|w|] == w;
    var a, b, c :| NumberParts(w, a, b, c);
    NumberComplete(w, a, b, c, s);
  }

  lemma LiteralAlone(w: string, s: string, word: string)
    requires IsWordOf(w, s) && LiteralAt(w, word)
    ensures LiteralAt(s, word)
  {
    hide IsStop;
    assert |word| == |w|;
  }

  lemma WordOf(s: string)
    requires s != "" && !IsStop(s[0])
    ensures IsWordOf(s[..WordEnd(s)], s) && WordEnd(s[..WordEnd(s)]) == WordEnd(s)
  {
    hide IsStop;
    var n := WordEnd(s);
    NoStopInside(s, 1);
    RunEndIs(s[..n], 1, NotStop, n);
  }

  /** A word that is no number and no literal where it stands is none alone. */
  lemma WordEnds(s: string)
    requires s != "" && Head(s).kind == Err && s[0] != '\"'
    ensures Head(Head(s).text).kind == Err
  {
    hide NumberEnd, StopAt, LiteralAt, WordEnd, ScanString, RunEnd, IsWordOf;
    var w := s[..WordEnd(s)];
    assert !IsStop(s[0]) && Head(s).text == w && w[0] == s[0];
    WordOf(s);
    if NumberEnd(w) > 0 && StopAt(w, NumberEnd(w)) {
      NumberAlone(w, s);
      WordStops(w, s);
    }
    if LiteralAt(w, "true") {
      LiteralAlone(w, s, "true");
    }
    if LiteralAt(w, "null") {
      LiteralAlone(w, s, "null");
    }
    if LiteralAt(w, "false") {
      LiteralAlone(w, s, "false");
    }
  }

  lemma WordStops(w: string, s: string)
    requires IsWordOf(w, s)
    ensures StopAt(s, |w|) && |w| > 0
  {
  }

  lemma ErrEnds(s: string)
    requires s != "" && Head(s).kind == Err
    ensures Head(Head(s).text).kind == Err
  {
    if s[0] == '\"' {
      ScanEnds(s, 1, true);
    } else {
      WordEnds(s);
    }
  }
}
