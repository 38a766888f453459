/**
  The grammar checker: a pushdown automaton over the tokens that are not whitespace.

  Main result: it accepts a text exactly when the text is derivable from the grammar of
  RFC 8259 (`AcceptsIffDerivable`).
*/
module JsonCheck {
  import opened Seqs
  import opened JsonLex
  import opened JsonGrammar
  import opened JsonSyntax

  datatype Want = EValue | EKey | EColon | EMore | EEnd

  /** `stack` holds the open containers, `true` for an object. */
  datatype CheckState = CheckState(stack: seq<bool>, want: Want, afterComma: bool)

  const START := CheckState([], EValue, false)

  function AfterValue(stack: seq<bool>): CheckState {
    CheckState(stack, if stack == [] then EEnd else EMore, false)
  }

  function Top(stack: seq<bool>): bool
    requires stack != []
  {
    stack[|stack| - 1]
  }

  function Pop<T>(stack: seq<T>): seq<T>
    requires stack != []
  {
    stack[..|stack| - 1]
  }

  function StepValue(st: CheckState, l: Lexeme): Option<CheckState> {
    if l.kind != Punct then Some(AfterValue(st.stack))
    else if l == P('{') then Some(CheckState(st.stack + [true], EKey, false))
    else if l == P('[') then Some(CheckState(st.stack + [false], EValue, false))
    else if l == P(']') && st.stack != [] && !Top(st.stack) && !st.afterComma then Some(AfterValue(Pop(st.stack)))
    else None
  }

  function StepKey(st: CheckState, l: Lexeme): Option<CheckState>
    requires st.stack != []
  {
    if l == P('}') then (if st.afterComma then None else Some(AfterValue(Pop(st.stack))))
    else if l.kind == Key || l.kind == Str then Some(CheckState(st.stack, EColon, false))
    else None
  }

  function StepMore(st: CheckState, l: Lexeme): Option<CheckState>
    requires st.stack != []
  {
    if l == P(',') then Some(CheckState(st.stack, if Top(st.stack) then EKey else EValue, true))
    else if l == P(CloseChar(Top(st.stack))) then Some(AfterValue(Pop(st.stack)))
    else None
  }

  predicate Coherent(st: CheckState) {
    (st.want == EKey || st.want == EColon || st.want == EMore) ==> st.stack != []
  }

  /** One token that is not whitespace; `None` is a problem at that token. */
  function Step(st: CheckState, l: Lexeme): (r: Option<CheckState>)
    requires Coherent(st)
    ensures r.Some? ==> Coherent(r.value)
  {
    if st.want == EEnd || l.kind == Err then None
    else
      match st.want
      case EValue => StepValue(st, l)
      case EKey => StepKey(st, l)
      case EColon => if l == P(':') then Some(st.(want := EValue)) else None
      case EMore => StepMore(st, l)
  }

  function Run(st: CheckState, ls: seq<Lexeme>): (r: Option<CheckState>)
    requires Coherent(st)
    ensures r.Some? ==> Coherent(r.value)
    decreases |ls|
  {
    if ls == [] then Some(st)
    else if Step(st, ls[0]).None? then None
    else Run(Step(st, ls[0]).value, ls[1..])
  }

  predicate Accepts(ls: seq<Lexeme>) {
    var r := Run(START, ls);
    r.Some? && r.value.want == EEnd
  }

  /** The checker's verdict on a text. */
  predicate WellFormed(text: string) {
    Accepts(Solids(text))
  }

  // ---- every tree is accepted --------------------------------------------------------

  lemma RunStep(st: CheckState, l: Lexeme, rest: seq<Lexeme>)
    requires Coherent(st) && Step(st, l).Some?
    ensures Run(st, [l] + rest) == Run(Step(st, l).value, rest)
  {
    assert ([l] + rest)[1..] == rest;
  }

  /** Reading a whole value leaves the stack as it was. */
  lemma {:induction false} RunTree(n: Node, st: CheckState, rest: seq<Lexeme>)
    requires WfNode(n) && st.want == EValue
    ensures Run(st, TokensOf(n) + rest) == Run(AfterValue(st.stack), rest)
    decreases n, 1
  {
    hide Run, EntriesTokens;
    match n
    case Scalar(kind, text) =>
      RunStep(st, Lexeme(kind, text), rest);
    case Container(isObject, entries) =>
      var inner := CheckState(st.stack + [isObject], if isObject then EKey else EValue, false);
      var tail := [P(CloseChar(isObject))] + rest;
      Regroup([P(OpenChar(isObject))], EntriesTokens(entries), [P(CloseChar(isObject))], rest);
      RunStep(st, P(OpenChar(isObject)), EntriesTokens(entries) + tail);
      assert Pop(st.stack + [isObject]) == st.stack;
      RunEntries(isObject, entries, inner, tail);
      RunStep(if entries == [] then inner else inner.(want := EMore), P(CloseChar(isObject)), rest);
  }

  lemma {:induction false} RunEntries(isObject: bool, es: seq<Entry>, st: CheckState, rest: seq<Lexeme>)
    requires WfEntries(isObject, es)
    requires st.stack != [] && Top(st.stack) == isObject
    requires st.want == (if isObject then EKey else EValue) && !st.afterComma
    ensures Run(st, EntriesTokens(es) + rest) == Run(if es == [] then st else st.(want := EMore), rest)
    decreases es, 0
  {
    if es == [] {
      assert EntriesTokens(es) + rest == rest;
    } else {
      var init, last := es[..|es| - 1], es[|es| - 1];
      var tail := EntryTokens(last) + rest;
      Regroup(EntriesTokens(init), Comma(init), EntryTokens(last), rest);
      RunEntries(isObject, init, st, Comma(init) + tail);
      if init == [] {
        assert Comma(init) + tail == tail;
        RunEntry(isObject, last, st, rest);
      } else {
        RunStep(st.(want := EMore), P(','), tail);
        RunEntry(isObject, last, st.(afterComma := true), rest);
      }
    }
  }

  lemma {:induction false} RunEntry(isObject: bool, e: Entry, st: CheckState, rest: seq<Lexeme>)
    requires WfEntry(isObject, e)
    requires st.stack != [] && Top(st.stack) == isObject && st.want == (if isObject then EKey else EValue)
    ensures Run(st, EntryTokens(e) + rest) == Run(AfterValue(st.stack), rest)
    decreases e, 0
  {
    if isObject {
      var k := Lexeme(Str, e.key.value);
      assert EntryTokens(e) + rest == [k] + ([P(':')] + (TokensOf(e.node) + rest));
      RunStep(st, k, [P(':')] + (TokensOf(e.node) + rest));
      RunStep(CheckState(st.stack, EColon, false), P(':'), TokensOf(e.node) + rest);
      RunTree(e.node, CheckState(st.stack, EValue, false), rest);
    } else {
      assert EntryTokens(e) == TokensOf(e.node);
      RunTree(e.node, st, rest);
    }
  }

  lemma AcceptsTree(n: Node)
    requires WfNode(n)
    ensures Accepts(TokensOf(n))
  {
    RunTree(n, START, []);
    assert TokensOf(n) + [] == TokensOf(n);
  }

  // ---- every accepted text has a derivation ---------------------------------------------

  /** A container whose end has not been read: what it holds so far, and the entry in progress. */
  datatype Frame = Frame(isObject: bool, open: Pad, entries: seq<CEntry>, sep: Pad, key: Option<CKey>)

  /** A prefix of a derivation, by what the automaton expects next. */
  datatype Partial =
    | AwaitValue(before: string, frames: seq<Frame>)
    | AwaitKey(before: string, frames: seq<Frame>)
    | AwaitColon(before: string, frames: seq<Frame>, key: string, gap: string)
    | AwaitMore(before: string, frames: seq<Frame>, gap: string)
    | Complete(before: string, c: Cst, gap: string)

  const NO_PAD := Pad("", "")

  function FrameDone(f: Frame): string {
    Structural(OpenChar(f.isObject), f.open) + UnparseEntries(f.entries)
  }

  function FrameText(f: Frame): string {
    FrameDone(f) + UnparseSep(f.entries, f.sep) + UnparseKey(f.key)
  }

  function FramesText(fs: seq<Frame>): string {
    if fs == [] then "" else FramesText(Pop(fs)) + FrameText(fs[|fs| - 1])
  }

  function PartialText(p: Partial): string {
    match p
    case AwaitValue(before, frames) => before + FramesText(frames)
    case AwaitKey(before, frames) => before + FramesText(frames)
    case AwaitColon(before, frames, key, gap) => before + FramesText(frames) + key + gap
    case AwaitMore(before, frames, gap) =>
      if frames == [] then "" else before + FramesText(Pop(frames)) + FrameDone(frames[|frames| - 1]) + gap
    case Complete(before, c, gap) => before + Unparse(c) + gap
  }

  ghost predicate FrameOk(f: Frame) {
    WfPad(f.open) && WfPad(f.sep) && WfCEntries(f.isObject, f.entries) &&
    (f.key.Some? ==> IsString(f.key.value.text) && WfPad(f.key.value.colon))
  }

  /** Every frame of `fs` is waiting for the value of its current entry. */
  ghost predicate Waiting(fs: seq<Frame>) {
    forall i :: 0 <= i < |fs| ==> FrameOk(fs[i]) && fs[i].key.Some? == fs[i].isObject
  }

  predicate Shape(fs: seq<Frame>, stack: seq<bool>) {
    |fs| == |stack| && forall i :: 0 <= i < |fs| ==> fs[i].isObject == stack[i]
  }

  ghost predicate Between(fs: seq<Frame>) {
    fs != [] && Waiting(Pop(fs)) && FrameOk(fs[|fs| - 1]) && fs[|fs| - 1].key.None?
  }

  ghost predicate Matches(p: Partial, st: CheckState) {
    match p
    case AwaitValue(before, fs) =>
      st.want == EValue && Shape(fs, st.stack) && IsWs(before) && Waiting(fs) &&
      (fs != [] && !fs[|fs| - 1].isObject ==> st.afterComma == (fs[|fs| - 1].entries != []))
    case AwaitKey(before, fs) =>
      st.want == EKey && Shape(fs, st.stack) && IsWs(before) && Between(fs) && fs[|fs| - 1].isObject &&
      st.afterComma == (fs[|fs| - 1].entries != [])
    case AwaitColon(before, fs, key, gap) =>
      st.want == EColon && Shape(fs, st.stack) && IsWs(before) && Between(fs) && fs[|fs| - 1].isObject &&
      IsString(key) && IsWs(gap)
    case AwaitMore(before, fs, gap) =>
      st.want == EMore && Shape(fs, st.stack) && IsWs(before) && Between(fs) && fs[|fs| - 1].entries != [] &&
      IsWs(gap)
    case Complete(before, c, gap) =>
      st.want == EEnd && st.stack == [] && IsWs(before) && WfCst(c) && IsWs(gap)
  }

  // -- completing a value

  function Attach(f: Frame, c: Cst): Frame {
    Frame(f.isObject, f.open, f.entries + [CEntry(f.sep, f.key, c)], NO_PAD, None)
  }

  function Finish(before: string, fs: seq<Frame>, c: Cst): Partial {
    if fs == [] then Complete(before, c, "")
    else AwaitMore(before, Pop(fs) + [Attach(fs[|fs| - 1], c)], "")
  }

  lemma AttachText(f: Frame, c: Cst)
    ensures FrameDone(Attach(f, c)) == FrameText(f) + Unparse(c)
  {
    var e := CEntry(f.sep, f.key, c);
    var o, us, sep := Structural(OpenChar(f.isObject), f.open), UnparseEntries(f.entries), UnparseSep(f.entries, f.sep);
    UnparseSnoc(f.entries, e);
    hide Structural, UnparseEntries, UnparseSep, UnparseKey, Unparse;
    Assoc(us, sep, UnparseEntry(e));
    Assoc(o, us, sep + UnparseEntry(e));
    Assoc(o + us, sep, UnparseEntry(e));
    Assoc(o + us + sep, UnparseKey(f.key), Unparse(c));
  }

  lemma UnparseSnoc(es: seq<CEntry>, e: CEntry)
    ensures UnparseEntries(es + [e]) == UnparseEntries(es) + UnparseSep(es, e.sep) + UnparseEntry(e)
  {
    hide Unparse;
    Snoc(es, e);
  }

  lemma FinishText(before: string, fs: seq<Frame>, c: Cst)
    ensures PartialText(Finish(before, fs, c)) == before + FramesText(fs) + Unparse(c)
  {
    hide FrameText, FrameDone, Attach, Unparse;
    Unit(before + Unparse(c));
    Unit(before);
    if fs != [] {
      var f := fs[|fs| - 1];
      AttachText(f, c);
      Snoc(Pop(fs), Attach(f, c));
      Assoc(before, FramesText(Pop(fs)), FrameText(f));
      Assoc(before + FramesText(Pop(fs)), FrameText(f), Unparse(c));
      Unit(before + FramesText(Pop(fs)) + FrameDone(Attach(f, c)));
    }
  }

  lemma FinishMatches(before: string, fs: seq<Frame>, stack: seq<bool>, c: Cst)
    requires IsWs(before) && Waiting(fs) && Shape(fs, stack) && WfCst(c)
    ensures Matches(Finish(before, fs, c), AfterValue(stack))
  {
    if fs != [] {
      var f := fs[|fs| - 1];
      var e := CEntry(f.sep, f.key, c);
      assert WfCEntry(f.isObject, e);
      var fs' := Pop(fs) + [Attach(f, c)];
      assert Pop(fs') == Pop(fs) && fs'[|fs'| - 1] == Attach(f, c);
    }
  }

  /** Finishing a value that starts right after the text of `p`. */
  lemma Finished(before: string, fs: seq<Frame>, stack: seq<bool>, c: Cst, done: string, more: string) returns (q: Partial)
    requires IsWs(before) && Waiting(fs) && Shape(fs, stack) && WfCst(c)
    requires done + more == before + FramesText(fs) + Unparse(c)
    ensures Matches(q, AfterValue(stack)) && PartialText(q) == done + more
  {
    q := Finish(before, fs, c);
    FinishText(before, fs, c);
    FinishMatches(before, fs, stack, c);
  }

  // -- whitespace

  /** Whitespace after a structural character belongs to that character. */
  function PadIn(f: Frame, w: string): Frame {
    if f.key.Some? then
      f.(key := Some(CKey(f.key.value.text, Pad(f.key.value.colon.before, f.key.value.colon.after + w))))
    else if f.entries != [] then f.(sep := Pad(f.sep.before, f.sep.after + w))
    else f.(open := Pad(f.open.before, f.open.after + w))
  }

  lemma PadInText(f: Frame, w: string)
    ensures FrameText(PadIn(f, w)) == FrameText(f) + w
  {
    hide UnparseEntries, Structural;
    if f.key.Some? {
      var k := f.key.value;
      PadAfter(':', k.colon, w);
      Assoc(k.text, Structural(':', k.colon), w);
      Assoc(FrameDone(f) + UnparseSep(f.entries, f.sep), UnparseKey(f.key), w);
    } else if f.entries != [] {
      PadAfter(',', f.sep, w);
      Assoc(FrameDone(f), Structural(',', f.sep), w);
      Unit(FrameText(f));
      Unit(FrameDone(f) + Structural(',', f.sep) + w);
      Unit(FrameDone(f) + Structural(',', f.sep));
    } else {
      PadAfter(OpenChar(f.isObject), f.open, w);
      assert UnparseEntries(f.entries) == "" by { NoUnparse(); }
    }
  }

  lemma NoUnparse()
    ensures UnparseEntries([]) == ""
  {
  }

  lemma PadAfter(c: char, pad: Pad, w: string)
    ensures Structural(c, Pad(pad.before, pad.after + w)) == Structural(c, pad) + w
  {
    Assoc(pad.before + [c], pad.after, w);
  }

  lemma WsConcat(a: string, b: string)
    requires IsWs(a) && IsWs(b)
    ensures IsWs(a + b)
  {
  }

  lemma PadInOk(f: Frame, w: string)
    requires FrameOk(f) && IsWs(w)
    ensures FrameOk(PadIn(f, w)) && PadIn(f, w).isObject == f.isObject
    ensures PadIn(f, w).key.Some? == f.key.Some? && PadIn(f, w).entries == f.entries
  {
    if f.key.Some? {
      WsConcat(f.key.value.colon.after, w);
    }
    WsConcat(f.sep.after, w);
    WsConcat(f.open.after, w);
  }

  function PadLast(fs: seq<Frame>, w: string): seq<Frame>
    requires fs != []
  {
    Pop(fs) + [PadIn(fs[|fs| - 1], w)]
  }

  lemma PadLastText(fs: seq<Frame>, w: string)
    requires fs != []
    ensures FramesText(PadLast(fs, w)) == FramesText(fs) + w
  {
    hide FrameText, PadIn;
    PadInText(fs[|fs| - 1], w);
    Snoc(Pop(fs), PadIn(fs[|fs| - 1], w));
    Assoc(FramesText(Pop(fs)), FrameText(fs[|fs| - 1]), w);
  }

  lemma PadLastOk(fs: seq<Frame>, stack: seq<bool>, w: string)
    requires fs != [] && FrameOk(fs[|fs| - 1]) && IsWs(w) && Shape(fs, stack)
    ensures Shape(PadLast(fs, w), stack)
    ensures Waiting(fs) ==> Waiting(PadLast(fs, w))
    ensures Between(fs) ==> Between(PadLast(fs, w))
    ensures PadLast(fs, w)[|fs| - 1].entries == fs[|fs| - 1].entries
  {
    hide FrameOk, PadIn;
    PadInOk(fs[|fs| - 1], w);
    assert Pop(PadLast(fs, w)) == Pop(fs);
  }

  lemma SkipWsInFrames(p: Partial, st: CheckState, w: string) returns (q: Partial)
    requires (p.AwaitValue? || p.AwaitKey?) && p.frames != [] && Matches(p, st) && IsWs(w)
    ensures Matches(q, st) && PartialText(q) == PartialText(p) + w
  {
    hide FrameOk, FramesText, PadLast, IsWs;
    var fs := PadLast(p.frames, w);
    PadLastText(p.frames, w);
    PadLastOk(p.frames, st.stack, w);
    Assoc(p.before, FramesText(p.frames), w);
    q := if p.AwaitValue? then AwaitValue(p.before, fs) else AwaitKey(p.before, fs);
  }

  /** Whitespace never changes what is expected. */
  lemma SkipWs(p: Partial, st: CheckState, w: string) returns (q: Partial)
    requires Matches(p, st) && IsWs(w)
    ensures Matches(q, st) && PartialText(q) == PartialText(p) + w
  {
    hide FramesText, FrameDone, FrameOk, IsWs, Waiting, WfCst, Unparse;
    match p
    case AwaitValue(before, fs) =>
      if fs == [] {
        WsConcat(before, w);
        q := AwaitValue(before + w, fs);
        NoFrames();
        Unit(before);
        Unit(before + w);
      } else {
        q := SkipWsInFrames(p, st, w);
      }
    case AwaitKey(before, fs) =>
      q := SkipWsInFrames(p, st, w);
    case AwaitColon(before, fs, key, gap) =>
      WsConcat(gap, w);
      q := AwaitColon(before, fs, key, gap + w);
      Assoc(before + FramesText(fs) + key, gap, w);
    case AwaitMore(before, fs, gap) =>
      WsConcat(gap, w);
      q := AwaitMore(before, fs, gap + w);
      Assoc(before + FramesText(Pop(fs)) + FrameDone(fs[|fs| - 1]), gap, w);
    case Complete(before, c, gap) =>
      WsConcat(gap, w);
      q := Complete(before, c, gap + w);
      Assoc(before + Unparse(c), gap, w);
  }

  lemma NoFrames()
    ensures FramesText([]) == "" && Waiting([])
  {
  }

  // -- tokens

  lemma AdvanceOpen(p: Partial, st: CheckState, isObject: bool) returns (q: Partial)
    requires p.AwaitValue? && Matches(p, st)
    ensures Matches(q, Step(st, P(OpenChar(isObject))).value)
    ensures PartialText(q) == PartialText(p) + [OpenChar(isObject)]
  {
    hide FrameOk, FrameText;
    var f := Frame(isObject, NO_PAD, [], NO_PAD, None);
    var fs := p.frames + [f];
    Snoc(p.frames, f);
    NewFrame(isObject);
    Assoc(p.before, FramesText(p.frames), [OpenChar(isObject)]);
    q := if isObject then AwaitKey(p.before, fs) else AwaitValue(p.before, fs);
  }

  lemma NewFrame(isObject: bool)
    ensures FrameText(Frame(isObject, NO_PAD, [], NO_PAD, None)) == [OpenChar(isObject)]
    ensures FrameOk(Frame(isObject, NO_PAD, [], NO_PAD, None))
  {
  }

  lemma AdvanceScalar(p: Partial, st: CheckState, l: Lexeme) returns (q: Partial)
    requires p.AwaitValue? && Matches(p, st) && LexemeOk(l) && l.kind != Punct
    ensures Matches(q, AfterValue(st.stack))
    ensures PartialText(q) == PartialText(p) + l.text
  {
    q := Finished(p.before, p.frames, st.stack, CScalar(l.kind, l.text), PartialText(p), l.text);
  }

  /** Closing a container, in whichever state it is closed. */
  lemma AdvanceClose(before: string, fs: seq<Frame>, stack: seq<bool>, gap: string, text: string) returns (q: Partial)
    requires IsWs(before) && IsWs(gap) && Between(fs) && Shape(fs, stack)
    requires text == before + FramesText(Pop(fs)) + FrameDone(fs[|fs| - 1]) + gap
    ensures Matches(q, AfterValue(Pop(stack)))
    ensures PartialText(q) == text + [CloseChar(fs[|fs| - 1].isObject)]
  {
    var f := fs[|fs| - 1];
    var x := CloseChar(f.isObject);
    var c := CContainer(f.isObject, f.open, f.entries, Pad(gap, ""));
    assert WfCst(c);
    CloseText(f, gap);
    hide FrameDone, FrameOk, Unparse, WfCst, FramesText;
    Assoc(FrameDone(f), gap, [x]);
    Regroup(before + FramesText(Pop(fs)), FrameDone(f), gap, [x]);
    q := Finished(before, Pop(fs), Pop(stack), c, text, [x]);
  }

  lemma CloseText(f: Frame, gap: string)
    ensures Unparse(CContainer(f.isObject, f.open, f.entries, Pad(gap, ""))) == FrameDone(f) + gap + [CloseChar(f.isObject)]
  {
    hide UnparseEntries;
    Unit(gap + [CloseChar(f.isObject)]);
    Assoc(FrameDone(f), gap, [CloseChar(f.isObject)]);
  }

  lemma EmptyFrame(fs: seq<Frame>)
    requires fs != [] && fs[|fs| - 1].key.None? && fs[|fs| - 1].entries == []
    ensures FramesText(fs) == FramesText(Pop(fs)) + FrameDone(fs[|fs| - 1])
  {
  }

  lemma AdvanceKey(p: Partial, st: CheckState, l: Lexeme) returns (q: Partial)
    requires p.AwaitKey? && Matches(p, st) && LexemeOk(l) && Step(st, l).Some?
    ensures Matches(q, Step(st, l).value) && PartialText(q) == PartialText(p) + l.text
  {
    hide FrameOk, FramesText, FrameDone;
    if l == P('}') {
      EmptyFrame(p.frames);
      Assoc(p.before, FramesText(Pop(p.frames)), FrameDone(p.frames[|p.frames| - 1]));
      Unit(PartialText(p));
      q := AdvanceClose(p.before, p.frames, st.stack, "", PartialText(p));
    } else {
      q := AwaitColon(p.before, p.frames, l.text, "");
      Unit(PartialText(p) + l.text);
    }
  }

  lemma AdvanceColon(p: Partial, st: CheckState) returns (q: Partial)
    requires p.AwaitColon? && Matches(p, st)
    ensures Matches(q, st.(want := EValue)) && PartialText(q) == PartialText(p) + ":"
  {
    hide FrameOk, FrameText, FrameDone, IsWs, IsString;
    var f := p.frames[|p.frames| - 1];
    var g := f.(key := Some(CKey(p.key, Pad(p.gap, ""))));
    var fs := Pop(p.frames) + [g];
    Snoc(Pop(p.frames), g);
    ColonFrame(f, p.key, p.gap);
    q := AwaitValue(p.before, fs);
    var outer, t := FramesText(Pop(p.frames)), FrameText(f);
    assert FramesText(p.frames) == outer + t;
    Assoc(outer, t, p.key + p.gap + ":");
    Assoc(p.before, outer + t, p.key + p.gap + ":");
    Regroup(p.before + (outer + t), p.key, p.gap, ":");
    Assoc(p.key, p.gap, ":");
  }

  lemma ColonFrame(f: Frame, key: string, gap: string)
    requires FrameOk(f) && f.key.None? && IsString(key) && IsWs(gap)
    ensures FrameText(f.(key := Some(CKey(key, Pad(gap, ""))))) == FrameText(f) + (key + gap + ":")
    ensures FrameOk(f.(key := Some(CKey(key, Pad(gap, "")))))
  {
    hide FrameDone;
    var g := f.(key := Some(CKey(key, Pad(gap, ""))));
    assert FrameDone(g) == FrameDone(f) by { SameFrame(f, g); }
    Unit(FrameText(f));
    Unit(gap + ":");
    Assoc(key, gap, ":");
  }

  lemma SameFrame(f: Frame, g: Frame)
    requires f.isObject == g.isObject && f.open == g.open && f.entries == g.entries
    ensures FrameDone(f) == FrameDone(g)
  {
  }

  lemma AdvanceComma(p: Partial, st: CheckState) returns (q: Partial)
    requires p.AwaitMore? && Matches(p, st)
    ensures Matches(q, Step(st, P(',')).value) && PartialText(q) == PartialText(p) + ","
  {
    hide FrameOk, FrameText, FrameDone, IsWs;
    var f := p.frames[|p.frames| - 1];
    var g := f.(sep := Pad(p.gap, ""));
    var fs := Pop(p.frames) + [g];
    Snoc(Pop(p.frames), g);
    CommaFrame(f, p.gap);
    Assoc(FramesText(Pop(p.frames)), FrameDone(f), p.gap + ",");
    Assoc(FrameDone(f), p.gap, ",");
    Assoc(p.before, FramesText(Pop(p.frames)), FrameDone(f) + p.gap + ",");
    Regroup(p.before + FramesText(Pop(p.frames)), FrameDone(f), p.gap, ",");
    q := if f.isObject then AwaitKey(p.before, fs) else AwaitValue(p.before, fs);
  }

  lemma CommaFrame(f: Frame, gap: string)
    requires FrameOk(f) && f.key.None? && f.entries != [] && IsWs(gap)
    ensures FrameText(f.(sep := Pad(gap, ""))) == FrameDone(f) + gap + ","
    ensures FrameOk(f.(sep := Pad(gap, "")))
  {
    assert Structural(',', Pad(gap, "")) == gap + ",";
  }

  lemma AdvanceValue(p: Partial, st: CheckState, l: Lexeme) returns (q: Partial)
    requires p.AwaitValue? && Matches(p, st) && LexemeOk(l) && Step(st, l).Some?
    ensures Matches(q, Step(st, l).value) && PartialText(q) == PartialText(p) + l.text
  {
    hide FramesText, FrameOk;
    if l.kind != Punct {
      q := AdvanceScalar(p, st, l);
    } else if l == P('{') || l == P('[') {
      q := AdvanceOpen(p, st, l == P('{'));
    } else {
      EmptyFrame(p.frames);
      q := AdvanceClose(p.before, p.frames, st.stack, "", PartialText(p));
    }
  }

  lemma AdvanceMore(p: Partial, st: CheckState, l: Lexeme) returns (q: Partial)
    requires p.AwaitMore? && Matches(p, st) && LexemeOk(l) && Coherent(st) && Step(st, l).Some?
    ensures Matches(q, Step(st, l).value) && PartialText(q) == PartialText(p) + l.text
  {
    hide FramesText, FrameOk, FrameDone;
    if l == P(',') {
      q := AdvanceComma(p, st);
    } else {
      q := AdvanceClose(p.before, p.frames, st.stack, p.gap, PartialText(p));
    }
  }

  lemma Advance(p: Partial, st: CheckState, l: Lexeme) returns (q: Partial)
    requires Matches(p, st) && Coherent(st) && LexemeOk(l) && Step(st, l).Some?
    ensures Matches(q, Step(st, l).value) && PartialText(q) == PartialText(p) + l.text
  {
    hide PartialText, FramesText, FrameOk, Waiting, Between, Shape;
    match p
    case AwaitValue(_, _) => q := AdvanceValue(p, st, l);
    case AwaitKey(_, _) => q := AdvanceKey(p, st, l);
    case AwaitColon(_, _, _, _) => q := AdvanceColon(p, st);
    case AwaitMore(_, _, _) => q := AdvanceMore(p, st, l);
  }

  lemma {:induction false} AcceptedDerives(p: Partial, st: CheckState, s: string, text: string)
    requires Matches(p, st) && Coherent(st) && PartialText(p) + s == text
    requires Run(st, Solids(s)).Some? && Run(st, Solids(s)).value.want == EEnd
    ensures Derivable(text)
    decreases |s|
  {
    hide Step, Matches, PartialText, Derivable, Run, Solids, LexemeOk, IsWs, Coherent;
    if s == "" {
      NothingLeft(p, st, s);
      assert PartialText(p) + s == PartialText(p);
    } else {
      var l := Head(s);
      var rest := s[|l.text|..];
      SolidsHead(s);
      assert s == l.text + rest;
      if l.kind == Ws {
        HeadWs(s);
        var q := SkipWs(p, st, l.text);
        assert PartialText(p) + s == PartialText(q) + rest;
        AcceptedDerives(q, st, rest, text);
      } else {
        RunHead(st, Solids(s));
        HeadOk(s);
        var q := Advance(p, st, l);
        assert PartialText(p) + s == PartialText(q) + rest;
        AcceptedDerives(q, Step(st, l).value, rest, text);
      }
    }
  }

  lemma NothingLeft(p: Partial, st: CheckState, s: string)
    requires Matches(p, st) && Coherent(st) && s == ""
    requires Run(st, Solids(s)).Some? && Run(st, Solids(s)).value.want == EEnd
    ensures Derivable(PartialText(p))
  {
    assert Derives(p.c, p.before, p.gap, PartialText(p));
  }

  lemma RunHead(st: CheckState, ls: seq<Lexeme>)
    requires Coherent(st) && ls != [] && Run(st, ls).Some?
    ensures ls[0].kind != Err && Step(st, ls[0]).Some? && Run(st, ls) == Run(Step(st, ls[0]).value, ls[1..])
  {
  }

  /** The checker accepts exactly the texts the grammar derives. */
  lemma AcceptsIffDerivable(text: string)
    ensures WellFormed(text) <==> Derivable(text)
  {
    if WellFormed(text) {
      assert PartialText(AwaitValue("", [])) + text == text;
      AcceptedDerives(AwaitValue("", []), START, text, text);
    }
    if Derivable(text) {
      var c, before, after :| Derives(c, before, after, text);
      SolidsDerives(c, before, after, text);
      EraseWf(c);
      AcceptsTree(Erase(c));
    }
  }
}
