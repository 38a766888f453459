/**
  The lexical layer of the console's JSON text helpers.

  A `Lexeme` is a token together with the slice of text it covers.  `Head` is the first
  token of a non-empty text, `Lex` the tokens of the whole text before property names are
  told apart from other strings, and `Mark` makes a `Key` of each string in front of a
  colon.  `Tokens` is what the tokenizer delivers, with offsets.
*/
module JsonLex {
  import opened Seqs

  datatype Kind = Key | Str | Num | Bool | Null | Punct | Ws | Err

  /** The kind of a token and the half-open range of offsets it covers. */
  datatype Token = Token(kind: Kind, start: nat, end: nat)

  datatype Lexeme = Lexeme(kind: Kind, text: string)

  // ---- characters ------------------------------------------------------------

  predicate IsHorizontalWs(c: char) {
    c == ' ' || c == '\t' || c == '\r'
  }

  predicate IsPunct(c: char) {
    c == '{' || c == '}' || c == '[' || c == ']' || c == ',' || c == ':'
  }

  /** No unquoted token goes on past one of these. */
  predicate IsStop(c: char) {
    c == '\n' || IsHorizontalWs(c) || c == '\"' || IsPunct(c)
  }

  predicate NotStop(c: char) {
    !IsStop(c)
  }

  predicate IsDigit(c: char) {
    '0' <= c <= '9'
  }

  predicate IsHex(c: char) {
    '0' <= c <= '9' || 'a' <= c <= 'f' || 'A' <= c <= 'F'
  }

  /** The text is over at `i`, or continues with a stop character. */
  predicate StopAt(s: string, i: nat) {
    i >= |s| || IsStop(s[i])
  }

  // ---- runs of characters ----------------------------------------------------

  /** The first index from `i` on whose character fails `p`. */
  function RunEnd(s: string, i: nat, p: char -> bool): (end: nat)
    requires i <= |s|
    ensures i <= end <= |s|
    ensures forall k :: i <= k < end ==> p(s[k])
    ensures end < |s| ==> !p(s[end])
    decreases |s| - i
  {
    if i < |s| && p(s[i]) then RunEnd(s, i + 1, p) else i
  }

  lemma RunEndIs(s: string, i: nat, p: char -> bool, end: nat)
    requires i <= end <= |s|
    requires forall k :: i <= k < end ==> p(s[k])
    requires end < |s| ==> !p(s[end])
    ensures RunEnd(s, i, p) == end
  {
  }

  // ---- strings ---------------------------------------------------------------

  datatype Scan = Scan(end: nat, ok: bool)

  /** Whether the backslash at `j` starts one of the escapes JSON has. */
  predicate EscapeOk(s: string, j: nat) {
    j + 1 < |s| &&
    if s[j + 1] == 'u'
    then j + 6 <= |s| && forall k :: j + 2 <= k < j + 6 ==> IsHex(s[k])
    else s[j + 1] in "\"\\/bfnrt"
  }

  /** The scanning loop for a string whose opening quote has been consumed. */
  function ScanString(s: string, j: nat, valid: bool): (r: Scan)
    requires j <= |s|
    ensures j <= r.end <= |s|
    ensures r.ok ==> valid && j < r.end
    decreases |s| - j
  {
    if j == |s| then Scan(j, false)
    else if s[j] == '\\' then
      var v := valid && EscapeOk(s, j);
      if j + 1 < |s| && s[j + 1] == '\n' then ScanString(s, j + 1, v)
      else if j + 2 <= |s| then ScanString(s, j + 2, v)
      else Scan(|s|, false)
    else if s[j] == '\n' then Scan(j, false)
    else if s[j] == '\"' then Scan(j + 1, valid)
    else ScanString(s, j + 1, valid && s[j] >= ' ')
  }

  // ---- numbers ---------------------------------------------------------------

  function IntEnd(s: string): (end: nat)
    ensures end <= |s|
  {
    var a := if |s| > 0 && s[0] == '-' then 1 else 0;
    if a < |s| && s[a] == '0' then a + 1
    else if a < |s| && '1' <= s[a] <= '9' then RunEnd(s, a + 1, IsDigit)
    else 0
  }

  function FracEnd(s: string, b: nat): (end: nat)
    requires b <= |s|
    ensures b <= end <= |s|
  {
    if b + 1 < |s| && s[b] == '.' && IsDigit(s[b + 1]) then RunEnd(s, b + 1, IsDigit) else b
  }

  function ExpDigits(s: string, c: nat): nat {
    if c + 1 < |s| && (s[c + 1] == '+' || s[c + 1] == '-') then c + 2 else c + 1
  }

  function ExpEnd(s: string, c: nat): (end: nat)
    requires c <= |s|
    ensures c <= end <= |s|
  {
    if c < |s| && (s[c] == 'e' || s[c] == 'E') then
      var k := ExpDigits(s, c);
      if k < |s| && IsDigit(s[k]) then RunEnd(s, k, IsDigit) else c
    else c
  }

  /** The length of the number the sticky expression matches at the start; 0 when it matches none. */
  function NumberEnd(s: string): (end: nat)
    ensures end <= |s|
  {
    if IntEnd(s) == 0 then 0 else ExpEnd(s, FracEnd(s, IntEnd(s)))
  }

  // ---- tokens ----------------------------------------------------------------

  /** Length of the unquoted token at the front: its first character and all that are no stops after it. */
  function WordEnd(s: string): (end: nat)
    requires s != ""
    ensures 1 <= end <= |s|
  {
    RunEnd(s, 1, NotStop)
  }

  predicate LiteralAt(s: string, word: string) {
    word <= s && StopAt(s, |word|)
  }

  /** Kind and length of the first token. */
  function HeadSpan(s: string): (r: (Kind, nat))
    requires s != ""
    ensures 1 <= r.1 <= |s|
  {
    var c := s[0];
    if c == '\n' then (Ws, 1)
    else if IsHorizontalWs(c) then (Ws, RunEnd(s, 1, IsHorizontalWs))
    else if c == '\"' then
      var scan := ScanString(s, 1, true);
      (if scan.ok then Str else Err, scan.end)
    else if IsPunct(c) then (Punct, 1)
    else if c == '-' || IsDigit(c) then
      if NumberEnd(s) > 0 && StopAt(s, NumberEnd(s)) then (Num, NumberEnd(s)) else (Err, WordEnd(s))
    else if LiteralAt(s, "true") then (Bool, 4)
    else if LiteralAt(s, "null") then (Null, 4)
    else if LiteralAt(s, "false") then (Bool, 5)
    else (Err, WordEnd(s))
  }

  function Head(s: string): (l: Lexeme)
    requires s != ""
    ensures l.text != "" && l.text <= s
  {
    var (kind, n) := HeadSpan(s);
    Lexeme(kind, s[..n])
  }

  function Lex(s: string): seq<Lexeme> {
    if s == "" then [] else [Head(s)] + Lex(s[|Head(s).text|..])
  }

  lemma LexUnfold(s: string)
    requires s != ""
    ensures Lex(s) == [Head(s)] + Lex(s[|Head(s).text|..])
  {
    hide HeadSpan, Head;
  }

  /** The text a token sequence covers. */
  function Text(ls: seq<Lexeme>): string {
    if ls == [] then "" else ls[0].text + Text(ls[1..])
  }

  /** Tokens tile the text: nothing is lost, nothing overlaps. */
  lemma {:induction false} LexTiles(s: string)
    ensures Text(Lex(s)) == s
  {
    if s != "" {
      var t := Head(s).text;
      LexTiles(s[|t|..]);
      assert s == t + s[|t|..];
    }
  }

  predicate IsColon(l: Lexeme) {
    l == Lexeme(Punct, ":")
  }

  /** The next token that is not whitespace is a colon. */
  predicate ColonNext(ls: seq<Lexeme>) {
    ls != [] && (if ls[0].kind == Ws then ColonNext(ls[1..]) else IsColon(ls[0]))
  }

  function MarkOne(l: Lexeme, colon: bool): Lexeme {
    if l.kind == Str && colon then l.(kind := Key) else l
  }

  /** Strings in front of a colon become keys. */
  function Mark(ls: seq<Lexeme>): seq<Lexeme> {
    if ls == [] then [] else [MarkOne(ls[0], ColonNext(ls[1..]))] + Mark(ls[1..])
  }

  /** The tokens that are not whitespace. */
  function Solid(ls: seq<Lexeme>): seq<Lexeme> {
    if ls == [] then [] else (if ls[0].kind == Ws then [] else [ls[0]]) + Solid(ls[1..])
  }

  function Solids(s: string): seq<Lexeme> {
    Solid(Lex(s))
  }

  function Locate(ls: seq<Lexeme>, at: nat): seq<Token> {
    if ls == [] then []
    else [Token(ls[0].kind, at, at + |ls[0].text|)] + Locate(ls[1..], at + |ls[0].text|)
  }

  /** What the tokenizer delivers for `s`. */
  function Tokens(s: string): seq<Token> {
    Locate(Mark(Lex(s)), 0)
  }

  lemma {:induction false} ColonNextSolid(ls: seq<Lexeme>)
    ensures ColonNext(Solid(ls)) == ColonNext(ls)
  {
    if ls != [] && ls[0].kind == Ws {
      ColonNextSolid(ls[1..]);
      assert Solid(ls) == Solid(ls[1..]);
    }
  }

  /** Whitespace plays no part in telling property names apart. */
  lemma {:induction false} MarkSolid(ls: seq<Lexeme>)
    ensures Solid(Mark(ls)) == Mark(Solid(ls))
  {
    if ls != [] {
      MarkSolid(ls[1..]);
      ColonNextSolid(ls[1..]);
      assert Mark(ls)[1..] == Mark(ls[1..]);
      if ls[0].kind == Ws {
        assert Solid(ls) == Solid(ls[1..]);
      } else {
        assert Solid(ls) == [ls[0]] + Solid(ls[1..]);
      }
    }
  }

  lemma {:induction false} LexemeSolidConcat(a: seq<Lexeme>, b: seq<Lexeme>)
    ensures Solid(a + b) == Solid(a) + Solid(b)
  {
    Unit(b);
    if a != [] {
      LexemeSolidConcat(a[1..], b);
      Cons(a, b);
      Assoc(if a[0].kind == Ws then [] else [a[0]], Solid(a[1..]), Solid(b));
    }
  }

  /** No token of `ls` is malformed. */
  ghost predicate NoErr(ls: seq<Lexeme>) {
    forall i :: 0 <= i < |ls| ==> ls[i].kind != Err
  }
}
