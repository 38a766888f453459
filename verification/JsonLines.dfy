/**
  Lexing commutes with cutting at line feeds, since no token but the line feed itself holds
  one: the tokens of a line alone are those of the whole text there, shifted.  The one
  exception is exact: a string that ends its line is a key for the whole text, and a string for
  the line, when the colon sits on a later line (`LineLocal`).
*/
module JsonLines {
  import opened Seqs
  import opened JsonLex
  import opened JsonCuts
  import opened JsonTokenizer
  import opened JsonText

  predicate NotLf(c: char) {
    c != '\n'
  }

  predicate OneLine(s: string) {
    '\n' !in s
  }

  /** `text.split("\n")` */
  function Lines(s: string): (r: seq<string>)
    ensures |r| >= 1
    decreases |s|
  {
    var k := RunEnd(s, 0, NotLf);
    if k == |s| then [s] else [s[..k]] + Lines(s[k + 1..])
  }

  // ---- keys -----------------------------------------------------------------------------------

  predicate AllWs(ls: seq<Lexeme>) {
    forall i :: 0 <= i < |ls| ==> ls[i].kind == Ws
  }

  /** The tokens of a line within the whole text, when `later` says whether a colon opens what follows the line. */
  function MarkLine(line: seq<Lexeme>, later: bool): (r: seq<Lexeme>)
    ensures |r| == |line|
  {
    seq(|line|, j requires 0 <= j < |line| =>
      MarkOne(line[j], ColonNext(line[j + 1..]) || (later && AllWs(line[j + 1..]))))
  }

  lemma {:induction false} ColonNextCut(a: seq<Lexeme>, b: seq<Lexeme>)
    ensures ColonNext(a + [LF] + b) == (ColonNext(a) || (AllWs(a) && ColonNext(b)))
  {
    if a == [] {
      assert a + [LF] + b == [LF] + b;
      assert ([LF] + b)[1..] == b;
    } else {
      ColonNextCut(a[1..], b);
      assert (a + [LF] + b)[1..] == a[1..] + [LF] + b;
      assert AllWs(a) == (a[0].kind == Ws && AllWs(a[1..])) by {
        if a[0].kind == Ws && AllWs(a[1..]) {
          assert forall i :: 0 < i < |a| ==> a[i] == a[1..][i - 1];
        }
      }
    }
  }

  lemma MarkCut(a: seq<Lexeme>, b: seq<Lexeme>)
    ensures Mark(a + [LF] + b) == MarkLine(a, ColonNext(b)) + [LF] + Mark(b)
  {
    hide ColonNext, Mark;
    var ls := a + [LF] + b;
    MarkSize(ls);
    MarkSize(b);
    forall j | 0 <= j < |ls|
      ensures Mark(ls)[j] == (MarkLine(a, ColonNext(b)) + [LF] + Mark(b))[j]
    {
      if j < |a| {
        assert ls[j + 1..] == a[j + 1..] + [LF] + b;
        ColonNextCut(a[j + 1..], b);
      } else if j > |a| {
        assert ls[j + 1..] == b[j - |a|..];
      }
    }
  }

  lemma MarkLineAlone(a: seq<Lexeme>)
    ensures MarkLine(a, false) == Mark(a)
  {
    MarkSize(a);
  }

  /** Where line `i` starts, and what follows it. */
  function LineStart(text: string, i: nat): (r: nat)
    requires i < |Lines(text)|
    ensures r + |Lines(text)[i]| <= |text|
    decreases i
  {
    var k := RunEnd(text, 0, NotLf);
    if i == 0 then 0 else k + 1 + LineStart(text[k + 1..], i - 1)
  }

  function After(text: string, i: nat): string
    requires i < |Lines(text)|
    decreases i
  {
    var k := RunEnd(text, 0, NotLf);
    if i == 0 then text[k..] else After(text[k + 1..], i - 1)
  }

  lemma LinesNext(text: string)
    requires |Lines(text)| > 1
    ensures RunEnd(text, 0, NotLf) < |text|
    ensures Lines(text) == [text[..RunEnd(text, 0, NotLf)]] + Lines(text[RunEnd(text, 0, NotLf) + 1..])
  {
  }

  lemma AfterNext(text: string, k: nat, r: string, i: nat)
    requires 0 < i < |Lines(text)|
    requires k == RunEnd(text, 0, NotLf) < |text| && r == text[k + 1..]
    ensures i - 1 < |Lines(r)| && After(text, i) == After(r, i - 1)
    ensures LineStart(text, i) == k + 1 + LineStart(r, i - 1)
  {
    hide RunEnd, Lines;
    LinesNext(text);
  }

  lemma ColonAfterLf(r: string)
    ensures ColonNext(Lex("\n" + r)) == ColonNext(Lex(r))
  {
    LexCut("", r);
    assert "" + "\n" + r == "\n" + r;
    assert Lex("") + [LF] + Lex(r) == [LF] + Lex(r);
    assert ([LF] + Lex(r))[1..] == Lex(r);
  }

  // ---- tokens with offsets ----------------------------------------------------------------------

  predicate IsLfToken(text: string, t: Token) {
    t.kind == Ws && t.end == t.start + 1 && t.start < |text| && text[t.start] == '\n'
  }

  function AddToken(text: string, lines: seq<seq<Token>>, t: Token): (r: seq<seq<Token>>)
    requires lines != []
    ensures r != []
  {
    if IsLfToken(text, t) then lines + [[]] else lines[..|lines| - 1] + [lines[|lines| - 1] + [t]]
  }

  function GroupTokens(text: string, tokens: seq<Token>): (r: seq<seq<Token>>)
    ensures r != []
  {
    if tokens == [] then [[]]
    else AddToken(text, GroupTokens(text, tokens[..|tokens| - 1]), tokens[|tokens| - 1])
  }

  /** `GroupTokens` as a loop that starts another list at each line feed token and keeps that token in none. */
  method SplitLines(text: string, tokens: seq<Token>) returns (lines: seq<seq<Token>>)
    ensures lines == GroupTokens(text, tokens)
  {
    lines := [[]];
    for k := 0 to |tokens|
      invariant lines == GroupTokens(text, tokens[..k])
    {
      assert tokens[..k + 1][..k] == tokens[..k];
      if IsLfToken(text, tokens[k]) {
        lines := lines + [[]];
      } else {
        lines := lines[..|lines| - 1] + [lines[|lines| - 1] + [tokens[k]]];
      }
    }
    assert tokens[..|tokens|] == tokens;
  }

  predicate NoLf(text: string, a: seq<Token>) {
    forall i :: 0 <= i < |a| ==> !IsLfToken(text, a[i])
  }

  lemma {:induction false} GroupOneLine(text: string, a: seq<Token>)
    requires NoLf(text, a)
    ensures GroupTokens(text, a) == [a]
    decreases |a|
  {
    if a != [] {
      GroupOneLine(text, a[..|a| - 1]);
      assert a == a[..|a| - 1] + [a[|a| - 1]];
    }
  }

  lemma {:induction false} GroupCut(text: string, a: seq<Token>, lf: Token, b: seq<Token>)
    requires IsLfToken(text, lf) && NoLf(text, a)
    ensures GroupTokens(text, a + [lf] + b) == [a] + GroupTokens(text, b)
    decreases |b|
  {
    hide AddToken, IsLfToken;
    var ts := a + [lf] + b;
    if b == [] {
      assert ts == a + [lf];
      GroupLf(text, a, lf);
    } else {
      var c, t := b[..|b| - 1], b[|b| - 1];
      GroupCut(text, a, lf, c);
      assert ts[..|ts| - 1] == a + [lf] + c;
      AddTokenBehind(text, a, GroupTokens(text, c), t);
    }
  }

  lemma GroupLf(text: string, a: seq<Token>, lf: Token)
    requires IsLfToken(text, lf) && NoLf(text, a)
    ensures GroupTokens(text, a + [lf]) == [a] + GroupTokens(text, [])
  {
    hide IsLfToken;
    GroupOneLine(text, a);
    assert (a + [lf])[..|a|] == a;
  }

  lemma AddTokenBehind(text: string, a: seq<Token>, g: seq<seq<Token>>, t: Token)
    requires g != []
    ensures AddToken(text, [a] + g, t) == [a] + AddToken(text, g, t)
  {
    hide IsLfToken;
  }

  lemma {:induction false} LocateAround(a: seq<Lexeme>, l: Lexeme, b: seq<Lexeme>, at: nat)
    ensures Locate(a + [l] + b, at)
         == Locate(a, at) + [Token(l.kind, at + |Text(a)|, at + |Text(a)| + |l.text|)] +
            Locate(b, at + |Text(a)| + |l.text|)
  {
    if a == [] {
      assert a + [l] + b == [l] + b;
      assert ([l] + b)[1..] == b;
    } else {
      LocateAround(a[1..], l, b, at + |a[0].text|);
      assert (a + [l] + b)[1..] == a[1..] + [l] + b;
    }
  }

  lemma MarkLineText(line: string, later: bool)
    ensures Text(MarkLine(Lex(line), later)) == line
  {
    hide Lex, Text;
    SameTexts(MarkLine(Lex(line), later), Lex(line));
    LexTiles(line);
  }

  lemma NoLfInLine(full: string, at: nat, line: string, later: bool, j: nat)
    requires OneLine(line) && at + |line| <= |full| && full[at..at + |line|] == line
    requires j < |Lex(line)|
    ensures |Locate(MarkLine(Lex(line), later), at)| == |Lex(line)|
    ensures !IsLfToken(full, Locate(MarkLine(Lex(line), later), at)[j])
  {
    hide Lex, Text, Locate;
    var m := MarkLine(Lex(line), later);
    LocateAt(m, at, j);
    MarkLineText(line, later);
    TextConcat(m[..j], m[j..]);
    assert m[..j] + m[j..] == m;
    TextHead(m[j..]);
    LexemeNonEmpty(line, j);
    var start := |Text(m[..j])|;
    assert full[at + start] == line[start];
  }

  lemma {:induction false} LineLocalAt(full: string, at: nat, text: string, i: nat)
    requires at <= |full| && full[at..] == text && i < |Lines(text)|
    ensures |GroupTokens(full, Locate(Mark(Lex(text)), at))| == |Lines(text)|
    ensures GroupTokens(full, Locate(Mark(Lex(text)), at))[i]
         == Locate(MarkLine(Lex(Lines(text)[i]), ColonNext(Lex(After(text, i)))), at + LineStart(text, i))
    decreases |text|
  {
    hide Lex, Locate, Mark, ColonNext, MarkLine, GroupTokens, IsLfToken, After, Lines, LineStart;
    var k := RunEnd(text, 0, NotLf);
    FirstStart(text);
    if k == |text| {
      LineLocalLast(full, at, text);
    } else {
      var r := text[k + 1..];
      hide RunEnd, OneLine;
      CutAtLf(full, at, text, k, r);
      LineLocalFirst(full, at, text[..k], r);
      LinesNextAt(text, k, r);
      LineLocalAt(full, at + k + 1, r, if i == 0 then 0 else i - 1);
      if i > 0 {
        AfterNext(text, k, r, i);
      }
    }
  }

  lemma FirstStart(text: string)
    ensures LineStart(text, 0) == 0
  {
  }

  lemma LinesNextAt(text: string, k: nat, r: string)
    requires k == RunEnd(text, 0, NotLf) < |text| && r == text[k + 1..]
    ensures Lines(text) == [text[..k]] + Lines(r)
  {
  }

  lemma LineLocalLast(full: string, at: nat, text: string)
    requires at <= |full| && full[at..] == text && OneLine(text)
    ensures GroupTokens(full, Locate(Mark(Lex(text)), at)) == [Locate(MarkLine(Lex(text), false), at)]
    ensures Lines(text) == [text] && !ColonNext(Lex(After(text, 0)))
  {
    hide Lex, Locate, Mark, GroupTokens, NoLf, IsLfToken;
    MarkLineAlone(Lex(text));
    LineGroup(full, at, text, false);
    GroupOneLine(full, Locate(Mark(Lex(text)), at));
    RunEndIs(text, 0, NotLf, |text|);
    assert After(text, 0) == "";
    NoTokens();
  }

  lemma LineLocalFirst(full: string, at: nat, s: string, r: string)
    requires OneLine(s) && at + |s| < |full| && full[at..at + |s|] == s
    requires IsLfToken(full, Token(Ws, at + |s|, at + |s| + 1))
    ensures GroupTokens(full, Locate(Mark(Lex(s + "\n" + r)), at))
         == [Locate(MarkLine(Lex(s), ColonNext(Lex("\n" + r))), at)] +
            GroupTokens(full, Locate(Mark(Lex(r)), at + |s| + 1))
  {
    hide Lex, Locate, Mark, ColonNext, MarkLine, GroupTokens, IsLfToken, OneLine, NoLf;
    LineGroup(full, at, s, ColonNext(Lex(r)));
    LocateCut(full, at, s, r);
    GroupCut(full, Locate(MarkLine(Lex(s), ColonNext(Lex(r))), at), Token(Ws, at + |s|, at + |s| + 1),
             Locate(Mark(Lex(r)), at + |s| + 1));
    ColonAfterLf(r);
  }

  lemma CutAtLf(full: string, at: nat, text: string, k: nat, r: string)
    requires at <= |full| && full[at..] == text && k == RunEnd(text, 0, NotLf) < |text| && r == text[k + 1..]
    ensures OneLine(text[..k]) && text == text[..k] + "\n" + r && After(text, 0) == "\n" + r
    ensures full[at..at + k] == text[..k] && at + k + 1 <= |full| && full[at + k + 1..] == r
    ensures IsLfToken(full, Token(Ws, at + k, at + k + 1))
  {
    assert IsLfToken(full, Token(Ws, at + k, at + k + 1)) && After(text, 0) == text[k..];
    assert OneLine(text[..k]);
    hide RunEnd, OneLine, IsLfToken, After;
    Around(text, k);
    DropTwice(full, at, k + 1);
    TakeAfterDrop(full, at, k);
  }

  lemma LineGroup(full: string, at: nat, line: string, later: bool)
    requires OneLine(line) && at + |line| <= |full| && full[at..at + |line|] == line
    ensures NoLf(full, Locate(MarkLine(Lex(line), later), at))
  {
    var m := MarkLine(Lex(line), later);
    LocateSize(m, at);
    forall j | 0 <= j < |m|
      ensures !IsLfToken(full, Locate(m, at)[j])
    {
      NoLfInLine(full, at, line, later, j);
    }
  }

  lemma LocateCut(full: string, at: nat, s: string, r: string)
    requires OneLine(s)
    ensures Locate(Mark(Lex(s + "\n" + r)), at)
         == Locate(MarkLine(Lex(s), ColonNext(Lex(r))), at) + [Token(Ws, at + |s|, at + |s| + 1)] +
            Locate(Mark(Lex(r)), at + |s| + 1)
  {
    hide Lex, Mark, ColonNext, MarkLine, Locate, Text;
    LexCut(s, r);
    MarkCut(Lex(s), Lex(r));
    MarkLineText(s, ColonNext(Lex(r)));
    LocateAround(MarkLine(Lex(s), ColonNext(Lex(r))), LF, Mark(Lex(r)), at);
  }

  /**
    Tokenizing a line on its own gives the tokens the whole text has on that line, shifted
    to where the line starts, and of the same kind, except that a string is a key exactly
    when nothing but whitespace follows it on the line and the next line with content opens
    with a colon.
  */
  lemma LineLocal(text: string, i: nat, j: nat)
    requires i < |Lines(text)| && j < |Tokens(Lines(text)[i])|
    ensures |GroupTokens(text, Tokens(text))| == |Lines(text)|
    ensures |GroupTokens(text, Tokens(text))[i]| == |Tokens(Lines(text)[i])| == |Lex(Lines(text)[i])|
    ensures var whole, own := GroupTokens(text, Tokens(text))[i][j], Tokens(Lines(text)[i])[j];
            whole.start == LineStart(text, i) + own.start && whole.end == LineStart(text, i) + own.end &&
            whole.kind == if own.kind == Str && AllWs(Lex(Lines(text)[i])[j + 1..]) && ColonNext(Lex(After(text, i)))
                          then Key else own.kind
  {
    hide Lex, Locate, Mark, ColonNext, GroupTokens, Lines, LineStart, After, Text;
    assert text[0..] == text;
    LineLocalAt(text, 0, text, i);
    var line := Lines(text)[i];
    var ls := Lex(line);
    var later := ColonNext(Lex(After(text, i)));
    var m := MarkLine(ls, later);
    MarkSize(ls);
    TokensSize(line);
    LocateAt(m, LineStart(text, i), j);
    LocateAt(Mark(ls), 0, j);
    SameTexts(m[..j], Mark(ls)[..j]);
    if AllWs(ls[j + 1..]) {
      WsNotColon(ls[j + 1..]);
    }
  }

  lemma {:induction false} WsNotColon(ls: seq<Lexeme>)
    requires AllWs(ls)
    ensures !ColonNext(ls)
  {
    if ls != [] {
      WsNotColon(ls[1..]);
    }
  }
}
