/**
  The checker and the re-emitter as the console runs them: a loop over the tokens with a
  stack of open containers.
*/
module JsonText {
  import opened Seqs
  import opened JsonLex
  import opened JsonCuts
  import opened JsonGrammar
  import opened JsonSyntax
  import opened JsonCheck
  import opened JsonPrint
  import opened JsonTokenizer

  // ---- where a token sits in the text ---------------------------------------------------

  lemma {:induction false} TextConcat(a: seq<Lexeme>, b: seq<Lexeme>)
    ensures Text(a + b) == Text(a) + Text(b)
  {
    if a == [] {
      Unit(b);
      Unit(Text(b));
    } else {
      TextConcat(a[1..], b);
      Cons(a, b);
      Assoc(a[0].text, Text(a[1..]), Text(b));
    }
  }

  /** The k-th token covers the k-th lexeme, marked. */
  lemma TokenSlice(text: string, k: nat)
    requires k < |Lex(text)|
    ensures |Tokens(text)| == |Lex(text)|
    ensures var t, l := Tokens(text)[k], Lex(text)[k];
            t.start == |Text(Lex(text)[..k])| && t.start < t.end <= |text| && text[t.start..t.end] == l.text &&
            t.kind == MarkOne(l, ColonNext(Lex(text)[k + 1..])).kind && text[..t.start] == Text(Lex(text)[..k])
  {
    hide Lex, Text, Mark, Locate;
    var ls := Lex(text);
    MarkSize(ls);
    LocateAt(Mark(ls), 0, k);
    LexTiles(text);
    TextMarkPrefix(ls, k);
    TextConcat(ls[..k], ls[k..]);
    assert ls[..k] + ls[k..] == ls;
    TextHead(ls[k..]);
    LexemeNonEmpty(text, k);
  }

  lemma TextHead(ls: seq<Lexeme>)
    requires ls != []
    ensures Text(ls) == ls[0].text + Text(ls[1..])
  {
  }

  lemma TextMarkPrefix(ls: seq<Lexeme>, k: nat)
    requires k <= |ls|
    ensures |Mark(ls)| == |ls| && |Text(Mark(ls)[..k])| == |Text(ls[..k])|
  {
    MarkSize(ls);
    SameTexts(Mark(ls)[..k], ls[..k]);
  }

  lemma {:induction false} SameTexts(a: seq<Lexeme>, b: seq<Lexeme>)
    requires |a| == |b| && forall i :: 0 <= i < |a| ==> a[i].text == b[i].text
    ensures Text(a) == Text(b)
  {
    if a != [] {
      SameTexts(a[1..], b[1..]);
    }
  }

  lemma {:induction false} LexemeNonEmpty(s: string, k: nat)
    requires k < |Lex(s)|
    ensures Lex(s)[k].text != ""
  {
    hide HeadSpan;
    if k > 0 {
      LexemeNonEmpty(s[|Head(s).text|..], k - 1);
    }
  }

  lemma SolidSnoc(ls: seq<Lexeme>, l: Lexeme)
    ensures Solid(ls + [l]) == Solid(ls) + (if l.kind == Ws then [] else [l])
  {
    LexemeSolidConcat(ls, [l]);
  }

  lemma {:induction false} RunConcat(st: CheckState, a: seq<Lexeme>, b: seq<Lexeme>)
    requires Coherent(st)
    ensures Run(st, a + b) == if Run(st, a).None? then None else Run(Run(st, a).value, b)
    decreases |a|
  {
    hide Step;
    if a == [] {
      assert a + b == b;
    } else {
      assert (a + b)[1..] == a[1..] + b;
      if Step(st, a[0]).Some? {
        RunConcat(Step(st, a[0]).value, a[1..], b);
      }
    }
  }

  /** Whether a string is read as a key or as a value never matters to the checker. */
  lemma StepMarked(st: CheckState, l: Lexeme, colon: bool)
    requires Coherent(st)
    ensures Step(st, MarkOne(l, colon)) == Step(st, l)
  {
  }

  // ---- a problem is reported no later than it arises ---------------------------------------

  /** Some continuation of the text is a JSON document. */
  ghost predicate Viable(prefix: string) {
    exists suffix :: Derivable(prefix + suffix)
  }

  function CloserTokens(stack: seq<bool>): seq<Lexeme> {
    if stack == [] then [] else [P(CloseChar(Top(stack)))] + CloserTokens(Pop(stack))
  }

  /** The tokens that complete a document from a given state. */
  function Completion(st: CheckState): seq<Lexeme> {
    var zero, empty := Lexeme(Num, "0"), Lexeme(Str, "\"\"");
    var closers := CloserTokens(st.stack);
    match st.want
    case EEnd => []
    case EMore => closers
    case EValue => [zero] + closers
    case EColon => [P(':'), zero] + closers
    case EKey => [empty, P(':'), zero] + closers
  }

  lemma {:induction false} ClosersAccept(stack: seq<bool>)
    ensures Run(AfterValue(stack), CloserTokens(stack)) == Some(AfterValue([]))
    decreases |stack|
  {
    if stack != [] {
      ClosersAccept(Pop(stack));
      RunStep(AfterValue(stack), P(CloseChar(Top(stack))), CloserTokens(Pop(stack)));
    }
  }

  lemma CompletionAccepts(st: CheckState)
    requires Coherent(st) && (st.want == EEnd ==> st.stack == [])
    ensures Run(st, Completion(st)).Some? && Run(st, Completion(st)).value.want == EEnd
  {
    hide Run, CloserTokens;
    var zero, empty := Lexeme(Num, "0"), Lexeme(Str, "\"\"");
    var closers := CloserTokens(st.stack);
    ClosersAccept(st.stack);
    RunEmpty(st);
    if st.want == EMore {
      RunSameStack(st, closers);
    } else if st.want == EValue {
      RunStep(st, zero, closers);
    } else if st.want == EColon {
      assert Completion(st) == [P(':')] + ([zero] + closers);
      RunStep(st, P(':'), [zero] + closers);
      RunStep(st.(want := EValue), zero, closers);
    } else if st.want == EKey {
      var next := CheckState(st.stack, EColon, false);
      assert Completion(st) == [empty] + ([P(':')] + ([zero] + closers));
      RunStep(st, empty, [P(':')] + ([zero] + closers));
      RunStep(next, P(':'), [zero] + closers);
      RunStep(next.(want := EValue), zero, closers);
    }
  }

  lemma RunEmpty(st: CheckState)
    requires Coherent(st)
    ensures Run(st, []) == Some(st)
  {
  }

  /** After a value, whether a comma came before plays no part. */
  lemma RunSameStack(st: CheckState, ls: seq<Lexeme>)
    requires Coherent(st) && st.want == EMore
    ensures Run(st, ls).Some? == Run(AfterValue(st.stack), ls).Some?
    ensures Run(st, ls).Some? ==> Run(st, ls).value.want == Run(AfterValue(st.stack), ls).value.want
  {
    if ls != [] {
      assert Step(st, ls[0]) == Step(AfterValue(st.stack), ls[0]);
    }
  }

  function Spaced(ls: seq<Lexeme>): string {
    if ls == [] then "" else " " + ls[0].text + Spaced(ls[1..])
  }

  lemma {:induction false} SolidsSpaced(ls: seq<Lexeme>)
    requires forall i :: 0 <= i < |ls| ==> LexemeOk(ls[i])
    ensures Solids(Spaced(ls)) == ls && StopAt(Spaced(ls), 0)
  {
    if ls != [] {
      hide Solids, LexemeOk;
      var rest := Spaced(ls[1..]);
      SolidsSpaced(ls[1..]);
      assert Spaced(ls) == " " + (ls[0].text + rest);
      SolidsWs(" ", ls[0].text + rest);
      LexLexeme(ls[0], rest);
    }
  }

  lemma {:induction false} ClosersOk(stack: seq<bool>)
    ensures forall i :: 0 <= i < |CloserTokens(stack)| ==> LexemeOk(CloserTokens(stack)[i])
    decreases |stack|
  {
    if stack != [] {
      ClosersOk(Pop(stack));
      assert LexemeOk(P(CloseChar(Top(stack))));
    }
  }

  lemma CompletionOk(st: CheckState)
    ensures forall i :: 0 <= i < |Completion(st)| ==> LexemeOk(Completion(st)[i])
  {
    ClosersOk(st.stack);
    assert IsChars("\"\""[1..1]);
    assert NumberParts("0", 0, 1, 1);
    assert LexemeOk(Lexeme(Num, "0")) && LexemeOk(Lexeme(Str, "\"\"")) && LexemeOk(P(':'));
  }

  /** Two texts that meet at a stop character lex independently. */
  lemma {:induction false} SolidsConcat(p: string, q: string)
    requires NoErr(Solids(p)) && StopAt(q, 0)
    ensures Solids(p + q) == Solids(p) + Solids(q)
    decreases |p|
  {
    hide Solids, HeadSpan, LexemeOk;
    if p == "" {
      assert p + q == q;
      assert Solids("") == [] by { NoSolids(); }
    } else {
      var l := Head(p);
      var rest := p[|l.text|..];
      assert p == l.text + rest && p + q == l.text + (rest + q);
      SolidsHead(p);
      if l.kind == Ws {
        HeadWs(p);
        SolidsConcat(rest, q);
        SolidsWs(l.text, rest + q);
      } else {
        assert Solids(p)[0] == l;
        assert Solids(p)[1..] == Solids(rest);
        HeadOk(p);
        SolidsConcat(rest, q);
        assert StopAt(rest, 0) ==> StopAt(rest + q, 0);
        LexLexeme(l, rest + q);
      }
    }
  }

  lemma NoSolids()
    ensures Solids("") == []
  {
  }

  lemma {:induction false} RunNoErr(st: CheckState, ls: seq<Lexeme>)
    requires Coherent(st) && Run(st, ls).Some?
    ensures NoErr(ls)
    decreases |ls|
  {
    if ls != [] {
      RunNoErr(Step(st, ls[0]).value, ls[1..]);
    }
  }

  /** Cutting a text between two tokens keeps the tokens in front of the cut. */
  lemma {:induction false} SolidsPrefix(s: string, k: nat)
    requires k <= |Lex(s)| && NoErr(Solid(Lex(s)[..k]))
    ensures Solids(Text(Lex(s)[..k])) == Solid(Lex(s)[..k])
    decreases k, 0
  {
    hide Solids, HeadSpan, LexemeOk;
    if k == 0 {
      assert Lex(s)[..0] == [];
      NoSolids();
    } else {
      var l := Head(s);
      var rest := s[|l.text|..];
      var pre := Lex(rest)[..k - 1];
      assert Lex(s)[..k] == [l] + pre;
      assert ([l] + pre)[1..] == pre;
      SolidsPrefixStep(s, pre);
    }
  }

  lemma {:induction false} SolidsPrefixStep(s: string, pre: seq<Lexeme>)
    requires s != "" && pre <= Lex(s[|Head(s).text|..]) && NoErr(Solid([Head(s)] + pre))
    ensures Solids(Text([Head(s)] + pre)) == Solid([Head(s)] + pre)
    decreases |pre|, 1
  {
    hide Solids, HeadSpan, LexemeOk, Lex, Solid, Text, Head, StopAt;
    var l := Head(s);
    var rest := s[|l.text|..];
    NoErrTail(l, pre);
    TextCons(l, pre);
    assert Lex(rest)[..|pre|] == pre;
    SolidsPrefix(rest, |pre|);
    if l.kind == Ws {
      HeadWs(s);
      SolidsWs(l.text, Text(pre));
    } else {
      HeadOk(s);
      LexTiles(rest);
      TextConcat(pre, Lex(rest)[|pre|..]);
      assert pre + Lex(rest)[|pre|..] == Lex(rest);
      StopsEarlier(Text(pre), Text(Lex(rest)[|pre|..]));
      LexLexeme(l, Text(pre));
    }
  }

  lemma StopsEarlier(a: string, b: string)
    ensures StopAt(a + b, 0) ==> StopAt(a, 0)
  {
  }

  lemma SolidFirst(l: Lexeme, ls: seq<Lexeme>)
    ensures Solid([l] + ls) == if l.kind == Ws then Solid(ls) else [l] + Solid(ls)
  {
    Tail(l, ls);
    Unit(Solid(ls));
  }

  lemma NoErrTail(l: Lexeme, pre: seq<Lexeme>)
    requires NoErr(Solid([l] + pre))
    ensures NoErr(Solid(pre)) && l.kind != Err
    ensures Solid([l] + pre) == if l.kind == Ws then Solid(pre) else [l] + Solid(pre)
  {
    hide Solid;
    SolidFirst(l, pre);
    var all, rest := Solid([l] + pre), Solid(pre);
    if l.kind != Ws {
      assert all[0] == l;
      assert forall i :: 0 <= i < |rest| ==> rest[i] == all[i + 1];
    }
  }

  /** What the checker has consumed without complaint can be completed to a document. */
  lemma ConsumedIsViable(text: string, k: nat)
    requires k <= |Lex(text)| && Run(START, Solid(Lex(text)[..k])).Some?
    ensures Viable(Text(Lex(text)[..k]))
  {
    hide Solids, Lex, Solid, Text, Step, LexemeOk;
    var prefix := Text(Lex(text)[..k]);
    var ls := Solid(Lex(text)[..k]);
    var st := Run(START, ls).value;
    RunNoErr(START, ls);
    SolidsPrefix(text, k);
    CompletionOk(st);
    SolidsSpaced(Completion(st));
    var suffix := Spaced(Completion(st));
    SolidsConcat(prefix, suffix);
    EndIsEmpty(START, ls);
    CompletionAccepts(st);
    RunConcat(START, ls, Completion(st));
    AcceptsIffDerivable(prefix + suffix);
    assert WellFormed(prefix + suffix);
  }

  /** What is read first of a text with this one behind some of its tokens, if the two go on alike. */
  lemma {:induction false} SolidsBefore(s: string, k: nat, x: string)
    requires k < |Lex(s)| && NoErr(Solid(Lex(s)[..k]))
    requires x != "" && |Text(Lex(s)[..k])| < |s| && x[0] == s[|Text(Lex(s)[..k])|]
    ensures Solids(Text(Lex(s)[..k]) + x) == Solid(Lex(s)[..k]) + Solids(x)
    decreases k
  {
    hide Solids, HeadSpan, LexemeOk, Solid, Text;
    if k == 0 {
      NothingBefore(s, x);
    } else {
      var l := Head(s);
      var rest := s[|l.text|..];
      var pre := Lex(rest)[..k - 1];
      LexUnfold(s);
      assert Lex(s)[..k] == [l] + pre;
      hide Lex;
      NoErrTail(l, pre);
      TextCons(l, pre);
      SolidsBefore(rest, k - 1, x);
      Assoc(l.text, Text(pre), x);
      Assoc([l], Solid(pre), Solids(x));
      if l.kind == Ws {
        HeadWs(s);
        SolidsWs(l.text, Text(pre) + x);
      } else {
        HeadOk(s);
        PrefixOfText(rest, k - 1);
        assert StopAt(rest, 0) ==> StopAt(Text(pre) + x, 0);
        LexLexeme(l, Text(pre) + x);
      }
    }
  }

  lemma NothingBefore(s: string, x: string)
    ensures Text(Lex(s)[..0]) + x == x && Solid(Lex(s)[..0]) + Solids(x) == Solids(x)
  {
    assert Lex(s)[..0] == [];
    Unit(x);
    Unit(Solids(x));
  }

  lemma TextCons(l: Lexeme, ls: seq<Lexeme>)
    ensures Text([l] + ls) == l.text + Text(ls)
  {
    Tail(l, ls);
  }

  lemma PrefixOfText(s: string, k: nat)
    requires k <= |Lex(s)|
    ensures Text(Lex(s)[..k]) <= s
  {
    LexTiles(s);
    TextConcat(Lex(s)[..k], Lex(s)[k..]);
    Split(Lex(s), k);
  }

  ghost predicate EndsLine(suffix: string) {
    suffix == "" || suffix[0] == '\n'
  }

  /** A token in front of the end of its line is read the same, or as no JSON if it is none. */
  lemma TokenAlone(s: string, suffix: string)
    requires s != "" && Head(s).kind != Ws && EndsLine(suffix)
    ensures var l := Head(s);
            Solids(l.text + suffix) != [] &&
            if l.kind == Err then Solids(l.text + suffix)[0].kind == Err else Solids(l.text + suffix)[0] == l
  {
    hide HeadSpan, LexemeOk, Lex;
    var l := Head(s);
    if l.kind == Err {
      ErrEnds(s);
      var x := l.text + suffix;
      if suffix == "" {
        Unit(l.text);
      } else {
        HeadCut(l.text, suffix[1..]);
        assert x == l.text + "\n" + suffix[1..];
      }
      LexUnfold(x);
      Tail(Head(x), Lex(x[|Head(x).text|..]));
    } else {
      HeadOk(s);
      hide Solids;
      LexLexeme(l, suffix);
    }
  }

  /** The k-th token is the first of what is left. */
  lemma {:induction false} TokenHeads(s: string, k: nat)
    requires k < |Lex(s)|
    ensures var at := |Text(Lex(s)[..k])|;
            at < |s| && s[at..] != "" && Head(s[at..]) == Lex(s)[k] && Text(Lex(s)[..k + 1]) == Text(Lex(s)[..k]) + Lex(s)[k].text
    decreases k
  {
    hide HeadSpan, Text;
    var l := Head(s);
    var rest := s[|l.text|..];
    LexUnfold(s);
    if k == 0 {
      assert Lex(s)[..0] == [] && Lex(s)[..1] == [l] + [];
      TextCons(l, []);
      assert Text([]) == "" by { TextNone(); }
      Unit(l.text);
      assert s[0..] == s;
    } else {
      var pre := Lex(rest)[..k - 1];
      assert Lex(s)[..k] == [l] + pre && Lex(s)[..k + 1] == [l] + Lex(rest)[..k];
      hide Lex;
      TokenHeads(rest, k - 1);
      TextCons(l, pre);
      TextCons(l, Lex(rest)[..k]);
      DropTwice(s, |l.text|, |Text(pre)|);
      Assoc(l.text, Text(pre), Lex(rest)[k - 1].text);
    }
  }

  lemma TextNone()
    ensures Text([]) == ""
  {
  }

  /** Past a token the checker refuses, no document goes on to the end of that line. */
  lemma NoDocumentPast(text: string, k: nat, suffix: string)
    requires k < |Lex(text)| && Lex(text)[k].kind != Ws && EndsLine(suffix)
    requires Run(START, Solid(Lex(text)[..k])).Some? && Step(Run(START, Solid(Lex(text)[..k])).value, Lex(text)[k]).None?
    ensures !Derivable(Text(Lex(text)[..k + 1]) + suffix)
  {
    hide Lex, Solid, Solids, Text, Head;
    var ls, l := Lex(text), Lex(text)[k];
    var before, x := Text(ls[..k]), l.text + suffix;
    var st := Run(START, Solid(ls[..k])).value;
    TokenHeads(text, k);
    HeadNotEmpty(text[|before|..]);
    assert x[0] == text[|before|..][0] == text[|before|];
    RunNoErr(START, Solid(ls[..k]));
    SolidsBefore(text, k, x);
    TokenAlone(text[|before|..], suffix);
    assert Step(st, Solids(x)[0]).None?;
    RunConcat(START, Solid(ls[..k]), Solids(x));
    Assoc(before, l.text, suffix);
    AcceptsIffDerivable(before + x);
  }

  lemma HeadNotEmpty(s: string)
    requires s != ""
    ensures Head(s).text != "" && Head(s).text[0] == s[0]
  {
  }

  /** What has been read to its end without complaint can go on behind a line feed. */
  lemma EndIsViable(text: string)
    requires Run(START, Solids(text)).Some?
    ensures Viable(text + "\n")
  {
    var t := text + "\n";
    Unit(t);
    SolidsCut(text, "");
    NoSolids();
    Unit(Solids(text));
    LexTiles(t);
    assert Lex(t)[..|Lex(t)|] == Lex(t);
    hide Lex, Text, Viable;
    ConsumedIsViable(t, |Lex(t)|);
  }

  lemma {:induction false} EndIsEmpty(st: CheckState, ls: seq<Lexeme>)
    requires Coherent(st) && (st.want == EEnd ==> st.stack == []) && Run(st, ls).Some?
    ensures Run(st, ls).value.want == EEnd ==> Run(st, ls).value.stack == []
    decreases |ls|
  {
    if ls != [] {
      EndIsEmpty(Step(st, ls[0]).value, ls[1..]);
    }
  }

  // ---- the checker -------------------------------------------------------------------------

  /** `line` and `column` are 1-based. */
  datatype Problem = Problem(offset: nat, line: nat, column: nat)

  function Newlines(s: string): nat {
    if s == "" then 0 else Newlines(s[..|s| - 1]) + (if s[|s| - 1] == '\n' then 1 else 0)
  }

  /** `line` counts the line breaks before `at`, and `column` the characters since the last one. */
  predicate IsPosition(text: string, at: nat, line: nat, column: nat) {
    at <= |text| && line == 1 + Newlines(text[..at]) && 1 <= column <= at + 1 &&
    '\n' !in text[at + 1 - column..at] && (column == at + 1 || text[at - column] == '\n')
  }

  method OffsetToLineColumn(text: string, offset: int) returns (line: nat, column: nat)
    ensures IsPosition(text, if offset < 0 then 0 else if offset > |text| then |text| else offset, line, column)
  {
    var at := if offset < 0 then 0 else if offset > |text| then |text| else offset;
    line := 1;
    var lineStart := 0;
    for i := 0 to at
      invariant lineStart <= i
      invariant IsPosition(text, i, line, i - lineStart + 1)
    {
      assert text[..i + 1][..i] == text[..i];
      if text[i] == '\n' {
        line := line + 1;
        lineStart := i + 1;
      }
    }
    column := at - lineStart + 1;
  }

  method ProblemAt(text: string, offset: nat) returns (p: Problem)
    requires offset <= |text|
    ensures p.offset == offset && IsPosition(text, offset, p.line, p.column)
  {
    var line, column := OffsetToLineColumn(text, offset);
    p := Problem(offset, line, column);
  }

  /** The token that starts at the problem: a text with it there is no document, whatever the lines after it are. */
  ghost predicate FirstBad(text: string, t: Token, offset: nat) {
    t.start == offset < t.end <= |text| && t.kind != Ws && t in Tokens(text) &&
    forall suffix :: EndsLine(suffix) ==> !Derivable(text[..t.end] + suffix)
  }

  /**
    Where the problem of a text is: what stands in front can be completed to a document, and past
    the token there it cannot, or the text is all read and could go on.
  */
  ghost predicate ProblemIsAt(text: string, offset: nat) {
    offset <= |text| && Viable(text[..offset]) &&
    if offset == |text| then Viable(text + "\n") else exists t :: FirstBad(text, t, offset)
  }

  /** Decides derivability, and for other texts finds the first token that no document can have there. */
  method CheckJson(text: string) returns (r: Option<Problem>)
    ensures r.None? <==> Derivable(text)
    ensures r.Some? ==> IsPosition(text, r.value.offset, r.value.line, r.value.column) && ProblemIsAt(text, r.value.offset)
  {
    hide Lex, Solid, Text, Step, Viable, Derivable, Newlines, Run, Tokens, ColonNext, FirstBad;
    var tokens := TokenizeJson(text);
    AcceptsIffDerivable(text);
    ghost var ls := Lex(text);
    TokensSize(text);
    var st := START;
    assert Run(START, Solid(ls[..0])) == Some(st) by { RunNothing(ls); }
    for k := 0 to |tokens|
      invariant Coherent(st)
      invariant Run(START, Solid(ls[..k])) == Some(st)
    {
      TokenSlice(text, k);
      assert ls[..k + 1] == ls[..k] + [ls[k]];
      SolidSnoc(ls[..k], ls[k]);
      var token := tokens[k];
      if token.kind != Ws {
        var l := Lexeme(token.kind, text[token.start..token.end]);
        assert l == MarkOne(ls[k], ColonNext(ls[k + 1..]));
        StepMarked(st, ls[k], ColonNext(ls[k + 1..]));
        RunLast(st, Solid(ls[..k]), ls[k]);
        var next := Step(st, l);
        if next.None? {
          ProblemFound(text, k);
          ConsumedIsViable(text, k);
          BadToken(text, k);
          var p := ProblemAt(text, token.start);
          return Some(p);
        }
        st := next.value;
      } else {
        assert Solid(ls[..k + 1]) == Solid(ls[..k]);
      }
    }
    assert ls[..|tokens|] == ls;
    if st.want == EEnd {
      return None;
    }
    ConsumedIsViable(text, |ls|);
    EndIsViable(text);
    LexTiles(text);
    assert text[..|text|] == text;
    var p := ProblemAt(text, |text|);
    return Some(p);
  }

  lemma BadToken(text: string, k: nat)
    requires k < |Lex(text)| && Lex(text)[k].kind != Ws && k < |Tokens(text)|
    requires Run(START, Solid(Lex(text)[..k])).Some? && Step(Run(START, Solid(Lex(text)[..k])).value, Lex(text)[k]).None?
    ensures FirstBad(text, Tokens(text)[k], Tokens(text)[k].start) && Tokens(text)[k].start < |text|
  {
    hide Lex, Solid, Text, Step, Derivable, Run, Tokens, ColonNext, Head;
    var t := Tokens(text)[k];
    TokenSlice(text, k);
    TokenHeads(text, k);
    PrefixOfText(text, k + 1);
    assert text[..t.end] == Text(Lex(text)[..k + 1]);
    forall suffix | EndsLine(suffix)
      ensures !Derivable(text[..t.end] + suffix)
    {
      NoDocumentPast(text, k, suffix);
    }
  }

  lemma {:induction false} TokensSize(text: string)
    ensures |Tokens(text)| == |Lex(text)|
  {
    MarkSize(Lex(text));
    LocateSize(Mark(Lex(text)), 0);
  }

  lemma RunNothing(ls: seq<Lexeme>)
    ensures Run(START, Solid(ls[..0])) == Some(START)
  {
  }

  lemma RunLast(st: CheckState, a: seq<Lexeme>, l: Lexeme)
    requires Coherent(st) && Run(START, a) == Some(st)
    ensures Run(START, a + [l]) == Step(st, l)
  {
    hide Step;
    RunConcat(START, a, [l]);
    assert [l][1..] == [];
  }

  lemma ProblemFound(text: string, k: nat)
    requires k < |Lex(text)| && Run(START, Solid(Lex(text)[..k + 1])).None?
    ensures !WellFormed(text)
  {
    var ls := Lex(text);
    LexemeSolidConcat(ls[..k + 1], ls[k + 1..]);
    assert ls[..k + 1] + ls[k + 1..] == ls;
    RunConcat(START, Solid(ls[..k + 1]), Solid(ls[k + 1..]));
  }

  // ---- the re-emitter ------------------------------------------------------------------------

  /** The tokens that are not whitespace, each with its slice of the text. */
  method SolidTokens(text: string) returns (solid: seq<Lexeme>)
    ensures solid == Mark(Solids(text))
  {
    hide Lex, Solid, Mark, Tokens, ColonNext, Text;
    var tokens := TokenizeJson(text);
    ghost var ls := Lex(text);
    ghost var ms := Mark(ls);
    TokensSize(text);
    MarkSize(ls);
    solid := [];
    assert Solid(ms[..0]) == [] by { NothingSolid(ms); }
    for k := 0 to |tokens|
      invariant solid == Solid(ms[..k])
    {
      TokenSlice(text, k);
      assert ms[..k + 1] == ms[..k] + [ms[k]];
      SolidSnoc(ms[..k], ms[k]);
      var token := tokens[k];
      assert ms[k] == Lexeme(token.kind, text[token.start..token.end]);
      if token.kind != Ws {
        solid := solid + [Lexeme(token.kind, text[token.start..token.end])];
      }
    }
    assert ms[..|tokens|] == ms;
    MarkSolid(ls);
  }

  lemma NothingSolid(ls: seq<Lexeme>)
    ensures Solid(ls[..0]) == []
  {
  }

  /** The re-emitter does not look at the difference between keys and other strings. */
  lemma {:induction false} EmitMark(ls: seq<Lexeme>, depth: int, style: Style)
    ensures Emit(Mark(ls), depth, style) == Emit(ls, depth, style)
    decreases |ls|
  {
    if ls != [] {
      hide Break, ColonText, Emit;
      var ms := Mark(ls);
      assert ms[1..] == Mark(ls[1..]);
      EmitUnfold(ls, depth, style);
      EmitUnfold(ms, depth, style);
      EmitMark(ls[1..], depth, style);
      EmitMark(ls[1..], depth + 1, style);
      EmitMark(ls[1..], depth - 1, style);
      if |ls| > 1 {
        MarkSize(ls);
        assert ls[1..][1..] == ls[2..] && ms[1..][1..] == ms[2..];
        EmitMark(ls[2..], depth, style);
      }
    }
  }

  /** One turn of the re-emitter's loop: tokens taken, text written, depth after. */
  function EmitTurn(ls: seq<Lexeme>, depth: int, style: Style): (nat, string, int)
    requires ls != []
  {
    if ls[0].kind != Punct then (1, ls[0].text, depth)
    else if IsOpen(ls[0]) then
      if |ls| > 1 && ls[1] == Closer(ls[0]) then (2, ls[0].text + ls[1].text, depth)
      else (1, ls[0].text + Break(style, depth + 1), depth + 1)
    else if IsClose(ls[0]) then (1, Break(style, depth - 1) + ls[0].text, depth - 1)
    else if ls[0] == P(',') then (1, "," + Break(style, depth), depth)
    else (1, ColonText(style), depth)
  }

  lemma EmitUnfold(ls: seq<Lexeme>, depth: int, style: Style)
    requires ls != []
    ensures EmitTurn(ls, depth, style).0 <= |ls|
    ensures var (taken, written, after) := EmitTurn(ls, depth, style);
            Emit(ls, depth, style) == written + Emit(ls[taken..], after, style)
  {
    hide Break, ColonText;
  }

  /** The nesting depth the re-emitter tracks is the height of the checker's stack. */
  lemma DepthIsHeight(st: CheckState, ls: seq<Lexeme>, depth: int, style: Style)
    requires ls != [] && Coherent(st) && Run(st, ls).Some? && depth == |st.stack|
    requires PunctOk(ls)
    ensures EmitTurn(ls, depth, style).0 <= |ls|
    ensures var (taken, _, after) := EmitTurn(ls, depth, style);
            after >= 0 && Run(st, ls[..taken]).Some? && |Run(st, ls[..taken]).value.stack| == after
  {
    hide Break, ColonText, Run;
    var (taken, _, after) := EmitTurn(ls, depth, style);
    RunHead(st, ls);
    var mid := Step(st, ls[0]).value;
    if taken == 1 {
      RunOne(st, ls[0]);
      assert ls[..1] == [ls[0]];
      StepHeight(st, ls[0]);
    } else {
      assert ls[..2] == [ls[0]] + [ls[1]];
      RunHead(mid, ls[1..]);
      RunStep(st, ls[0], [ls[1]]);
      RunOne(mid, ls[1]);
      StepHeight(st, ls[0]);
      StepHeight(mid, ls[1]);
    }
  }

  lemma RunOne(st: CheckState, l: Lexeme)
    requires Coherent(st)
    ensures Run(st, [l]) == Step(st, l)
  {
    hide Step;
    assert [l][1..] == [];
  }

  lemma StepHeight(st: CheckState, l: Lexeme)
    requires Coherent(st) && Step(st, l).Some?
    requires l.kind == Punct ==> |l.text| == 1 && IsPunct(l.text[0])
    ensures |Step(st, l).value.stack| == |st.stack| + (if IsOpen(l) then 1 else if IsClose(l) then -1 else 0)
  {
    if l.kind == Punct {
      assert l == P(l.text[0]);
    }
  }

  ghost predicate PunctOk(ls: seq<Lexeme>) {
    forall i :: 0 <= i < |ls| && ls[i].kind == Punct ==> |ls[i].text| == 1 && IsPunct(ls[i].text[0])
  }

  lemma {:induction false} LexPunctOk(s: string)
    ensures PunctOk(Lex(s)) && PunctOk(Solids(s)) && PunctOk(Mark(Solids(s)))
  {
    if s == "" {
      NoTokens();
      NoSolids();
    } else {
      var l := Head(s);
      HeadPunctOk(s);
      hide HeadSpan, Head, Solids, Mark;
      LexPunctOk(s[|l.text|..]);
      SolidsHead(s);
      PunctOkCons(l, Lex(s[|l.text|..]));
      PunctOkCons(l, Solids(s[|l.text|..]));
    }
    PunctOkMark(Solids(s));
  }

  lemma PunctOkMark(ls: seq<Lexeme>)
    requires PunctOk(ls)
    ensures PunctOk(Mark(ls))
  {
    MarkSize(ls);
  }

  lemma HeadPunctOk(s: string)
    requires s != ""
    ensures PunctOk([Head(s)])
  {
  }

  lemma PunctOkCons(l: Lexeme, ls: seq<Lexeme>)
    requires PunctOk([l]) && PunctOk(ls)
    ensures PunctOk([l] + ls)
  {
    assert [l][0] == l;
  }

  lemma {:induction false} RunMark(st: CheckState, ls: seq<Lexeme>)
    requires Coherent(st)
    ensures Run(st, Mark(ls)) == Run(st, ls)
    decreases |ls|
  {
    if ls != [] {
      hide Step;
      StepMarked(st, ls[0], ColonNext(ls[1..]));
      assert Mark(ls)[1..] == Mark(ls[1..]);
      if Step(st, ls[0]).Some? {
        RunMark(Step(st, ls[0]).value, ls[1..]);
      }
    }
  }

  /** One turn of the loop. */
  method EmitToken(tokens: seq<Lexeme>, k: nat, depth: nat, style: Style) returns (taken: nat, written: string, after: int)
    requires k < |tokens|
    ensures (taken, written, after) == EmitTurn(tokens[k..], depth, style)
    ensures 0 < taken <= |tokens| - k
  {
    hide Break, ColonText;
    var token := tokens[k];
    taken, after := 1, depth;
    if token.kind != Punct {
      written := token.text;
    } else if IsOpen(token) {
      if k + 1 < |tokens| && tokens[k + 1] == Closer(token) {
        written := token.text + tokens[k + 1].text;
        taken := 2;
      } else {
        after := after + 1;
        written := token.text + Break(style, after);
      }
    } else if IsClose(token) {
      after := after - 1;
      written := Break(style, after) + token.text;
    } else if token == P(',') {
      written := "," + Break(style, after);
    } else {
      written := ColonText(style);
    }
  }

  /** `Reemit` as one pass over the checked tokens with a depth counter. */
  method ReemitJson(text: string, style: Style) returns (r: Option<string>)
    ensures r == Reemit(text, style)
  {
    hide Lex, Solids, Mark, Emit, Run, Derivable, Break, ColonText, Step, EmitTurn;
    var problem := CheckJson(text);
    AcceptsIffDerivable(text);
    if problem.Some? {
      return None;
    }
    var tokens := SolidTokens(text);
    EmitMark(Solids(text), 0, style);
    RunMark(START, Solids(text));
    LexPunctOk(text);
    var out, depth, k := "", 0, 0;
    ghost var st := START;
    assert tokens[0..] == tokens;
    while k < |tokens|
      invariant 0 <= k <= |tokens|
      invariant out + Emit(tokens[k..], depth, style) == Emit(tokens, 0, style)
      invariant Coherent(st) && depth == |st.stack| && Run(st, tokens[k..]).Some?
    {
      var taken, written, after := EmitToken(tokens, k, depth, style);
      ghost var rest := tokens[k..];
      EmitUnfold(rest, depth, style);
      DepthIsHeight(st, rest, depth, style);
      assert rest[taken..] == tokens[k + taken..] && rest[..taken] + rest[taken..] == rest;
      RunConcat(st, rest[..taken], rest[taken..]);
      st := Run(st, rest[..taken]).value;
      Regroup(out, written, Emit(rest[taken..], after, style), "");
      out, depth, k := out + written, after, k + taken;
    }
    assert tokens[k..] == [] && out + "" == out;
    EmitNothing(depth, style);
    return Some(out);
  }

  lemma EmitNothing(depth: int, style: Style)
    ensures Emit([], depth, style) == ""
  {
  }
}
