/**
  The incremental parser for Server-Sent Events.

  What is delivered depends only on the text, not on where it is cut into chunks
  (`ChunkInvariant`), and messages printed as frames are parsed back from any chunking
  exactly when their fields can be written on a line (`RoundTripIff`).
*/
module Sse {
  import opened Seqs
  import opened Strings
  import opened JsonSyntax
  import opened JsonTree

  datatype Message = Message(event: string, data: string, id: Option<string>)

  datatype Frame = Frame(event: string, data: seq<string>, id: Option<string>)

  const EMPTY_FRAME := Frame("", [], None)

  /** Whether to stop, given the messages delivered so far, the last one included. */
  type Handler = seq<Message> -> bool

  // ---- one line ---------------------------------------------------------------------------------------

  function StripCr(line: string): string {
    if line != "" && line[|line| - 1] == '\r' then line[..|line| - 1] else line
  }

  function StripSpace(value: string): string {
    if value != "" && value[0] == ' ' then value[1..] else value
  }

  function FieldOf(line: string): string {
    var colon := IndexOf(line, ':');
    if colon.None? then line else line[..colon.value]
  }

  function ValueOf(line: string): string {
    var colon := IndexOf(line, ':');
    StripSpace(if colon.None? then "" else line[colon.value + 1..])
  }

  /** The frame after a line that is not blank. */
  function FrameAfter(frame: Frame, line: string): Frame {
    if line != "" && line[0] == ':' then frame
    else if FieldOf(line) == "event" then frame.(event := ValueOf(line))
    else if FieldOf(line) == "data" then frame.(data := frame.data + [ValueOf(line)])
    else if FieldOf(line) == "id" then frame.(id := Some(ValueOf(line)))
    else frame
  }

  /** The message of a finished frame; one without data lines is dropped. */
  function MessageOf(frame: Frame): Option<Message> {
    if frame.data == [] then None
    else Some(Message(if frame.event == "" then "message" else frame.event, Join(frame.data, "\n"), frame.id))
  }

  datatype State = State(frame: Frame, delivered: seq<Message>, stopped: bool)

  function Dispatched(st: State, handler: Handler): State {
    var message := MessageOf(st.frame);
    if message.None? then st.(frame := EMPTY_FRAME)
    else
      var delivered := st.delivered + [message.value];
      State(EMPTY_FRAME, delivered, handler(delivered))
  }

  function AfterLine(st: State, raw: string, handler: Handler): State {
    var line := StripCr(raw);
    if line == "" then Dispatched(st, handler) else st.(frame := FrameAfter(st.frame, line))
  }

  /** The state after some lines; nothing more happens after a stop. */
  function AfterLines(st: State, lines: seq<string>, handler: Handler): State
    decreases |lines|
  {
    if lines == [] || st.stopped then st else AfterLines(AfterLine(st, lines[0], handler), lines[1..], handler)
  }

  // ---- lines of a text -------------------------------------------------------------------------------------

  /** The terminated lines of a text and what is left after the last line feed. */
  datatype Cut = Cut(lines: seq<string>, rest: string)

  function CutLines(text: string): Cut
    decreases |text|
  {
    var newline := IndexOf(text, '\n');
    if newline.None? then Cut([], text)
    else
      var cut := CutLines(text[newline.value + 1..]);
      Cut([text[..newline.value]] + cut.lines, cut.rest)
  }

  /** What a whole text delivers: its lines, the line left over, the frame left over. */
  function Finished(st: State, rest: string, handler: Handler): State {
    if st.stopped then st
    else
      var last := if rest == "" then st else AfterLine(st, rest, handler);
      if last.stopped then last else Dispatched(last, handler)
  }

  const START := State(EMPTY_FRAME, [], false)

  function Whole(text: string, handler: Handler): seq<Message> {
    var cut := CutLines(text);
    Finished(AfterLines(START, cut.lines, handler), cut.rest, handler).delivered
  }

  // ---- cutting a text in chunks ------------------------------------------------------------------------------

  lemma {:induction false} RestHasNoLf(text: string)
    ensures '\n' !in CutLines(text).rest
    decreases |text|
  {
    hide IndexOf;
    IndexOfIs(text, '\n');
    var newline := IndexOf(text, '\n');
    if newline.Some? {
      RestHasNoLf(text[newline.value + 1..]);
    }
  }

  /** More text continues from what was left over. */
  lemma {:induction false} CutConcat(a: string, b: string)
    ensures var first := CutLines(a);
            var second := CutLines(first.rest + b);
            CutLines(a + b) == Cut(first.lines + second.lines, second.rest)
    decreases |a|
  {
    var newline := IndexOf(a, '\n');
    hide IndexOf;
    if newline.None? {
      Unit(CutLines(a + b).lines);
    } else {
      var k := newline.value;
      IndexOfConcat(a, b, '\n');
      CutConcat(a[k + 1..], b);
      SliceConcat(a, b, k);
      Assoc([a[..k]], CutLines(a[k + 1..]).lines, CutLines(CutLines(a[k + 1..]).rest + b).lines);
    }
  }

  lemma SliceConcat(a: string, b: string, k: nat)
    requires k < |a|
    ensures (a + b)[..k] == a[..k] && (a + b)[k + 1..] == a[k + 1..] + b
  {
  }

  lemma {:induction false} AfterConcat(st: State, a: seq<string>, b: seq<string>, handler: Handler)
    ensures AfterLines(st, a + b, handler) == AfterLines(AfterLines(st, a, handler), b, handler)
    decreases |a|
  {
    hide AfterLine;
    if a == [] {
      Unit(b);
    } else if !st.stopped {
      Cons(a, b);
      AfterConcat(AfterLine(st, a[0], handler), a[1..], b, handler);
    }
  }

  // ---- pushes ---------------------------------------------------------------------------------------------------

  /** The state and the buffer between two pushes. */
  datatype Parse = Parse(st: State, buffer: string)

  function Pushed(p: Parse, chunk: string, handler: Handler): Parse {
    var cut := CutLines(p.buffer + chunk);
    Parse(AfterLines(p.st, cut.lines, handler), cut.rest)
  }

  /** Pushes until one of them stops. */
  function PushedAll(p: Parse, chunks: seq<string>, handler: Handler): Parse
    decreases |chunks|
  {
    if chunks == [] || p.st.stopped then p else PushedAll(Pushed(p, chunks[0], handler), chunks[1..], handler)
  }

  function Text(chunks: seq<string>): string {
    if chunks == [] then "" else chunks[0] + Text(chunks[1..])
  }

  function Delivered(chunks: seq<string>, handler: Handler): seq<Message> {
    var p := PushedAll(Parse(START, ""), chunks, handler);
    Finished(p.st, p.buffer, handler).delivered
  }

  lemma {:induction false} StoppedStays(st: State, lines: seq<string>, handler: Handler)
    requires st.stopped
    ensures AfterLines(st, lines, handler) == st
  {
  }

  lemma {:induction false} NoLfNoLines(text: string)
    requires '\n' !in text
    ensures CutLines(text) == Cut([], text)
  {
    hide IndexOf;
    IndexOfIs(text, '\n');
  }

  /** Pushing chunk after chunk is pushing the whole text, as far as deliveries go. */
  lemma {:induction false} PushesAreOne(p: Parse, chunks: seq<string>, handler: Handler)
    requires '\n' !in p.buffer
    ensures var q, cut := PushedAll(p, chunks, handler), CutLines(p.buffer + Text(chunks));
            q.st == AfterLines(p.st, cut.lines, handler) && (!q.st.stopped ==> q.buffer == cut.rest)
    decreases |chunks|
  {
    hide CutLines, AfterLines;
    if chunks == [] {
      Unit(p.buffer);
      NoLfNoLines(p.buffer);
      NoLines(p.st, handler);
    } else if p.st.stopped {
      StoppedStays(p.st, CutLines(p.buffer + Text(chunks)).lines, handler);
    } else {
      var c, rest := chunks[0], Text(chunks[1..]);
      var q := Pushed(p, c, handler);
      RestHasNoLf(p.buffer + c);
      PushesAreOne(q, chunks[1..], handler);
      Assoc(p.buffer, c, rest);
      CutConcat(p.buffer + c, rest);
      AfterConcat(p.st, CutLines(p.buffer + c).lines, CutLines(q.buffer + rest).lines, handler);
    }
  }

  lemma NoLines(st: State, handler: Handler)
    ensures AfterLines(st, [], handler) == st
  {
  }

  /** What is delivered, up to and including the first stop, does not depend on the chunks. */
  lemma ChunkInvariant(chunks: seq<string>, handler: Handler)
    ensures Delivered(chunks, handler) == Whole(Text(chunks), handler)
  {
    hide PushedAll, CutLines, AfterLines;
    PushesAreOne(Parse(START, ""), chunks, handler);
    Unit(Text(chunks));
  }

  // ---- the parser as the console runs it ---------------------------------------------------------------------------

  class SseParser {
    var buffer: string
    var frame: Frame
    var delivered: seq<Message>
    const handler: Handler

    ghost function Running(): State
      reads this
    {
      State(frame, delivered, false)
    }

    ghost predicate Is(st: State)
      reads this
    {
      frame == st.frame && delivered == st.delivered
    }

    constructor (handler: Handler)
      ensures buffer == "" && Is(START) && this.handler == handler
    {
      this.handler := handler;
      buffer, frame, delivered := "", EMPTY_FRAME, [];
    }

    method Dispatch() returns (stop: bool)
      modifies this
      ensures var st := Dispatched(old(Running()), handler); Is(st) && stop == st.stopped
      ensures buffer == old(buffer)
    {
      var current := frame;
      frame := EMPTY_FRAME;
      if |current.data| == 0 {
        return false;
      }
      var event := if current.event == "" then "message" else current.event;
      delivered := delivered + [Message(event, Join(current.data, "\n"), current.id)];
      stop := handler(delivered);
    }

    method HandleLine(raw: string) returns (stop: bool)
      modifies this
      ensures var st := AfterLine(old(Running()), raw, handler); Is(st) && stop == st.stopped
      ensures buffer == old(buffer)
    {
      var line := StripCr(raw);
      if line == "" {
        stop := Dispatch();
        return;
      }
      stop := false;
      if line[0] == ':' {
        return;
      }
      var colon := IndexOf(line, ':');
      var field := if colon.None? then line else line[..colon.value];
      var value := StripSpace(if colon.None? then "" else line[colon.value + 1..]);
      match field {
        case "event" => frame := frame.(event := value);
        case "data" => frame := frame.(data := frame.data + [value]);
        case "id" => frame := frame.(id := Some(value));
        case _ =>
      }
    }

    method Push(chunk: string) returns (stop: bool)
      modifies this
      ensures var p := Pushed(Parse(old(Running()), old(buffer)), chunk, handler);
              Is(p.st) && stop == p.st.stopped && (!stop ==> buffer == p.buffer)
    {
      ghost var goal := Pushed(Parse(Running(), buffer), chunk, handler);
      hide AfterLine;
      buffer := buffer + chunk;
      var newline := IndexOf(buffer, '\n');
      while newline.Some?
        invariant newline == IndexOf(buffer, '\n')
        invariant AfterLines(Running(), CutLines(buffer).lines, handler) == goal.st
        invariant CutLines(buffer).rest == goal.buffer
        decreases |buffer|
      {
        var line := buffer[..newline.value];
        ghost var cut := CutLines(buffer[newline.value + 1..]);
        Tail(line, cut.lines);
        assert CutLines(buffer) == Cut([line] + cut.lines, cut.rest);
        buffer := buffer[newline.value + 1..];
        ghost var st := Running();
        stop := HandleLine(line);
        if stop {
          StoppedStays(AfterLine(st, line, handler), cut.lines, handler);
          return;
        }
        newline := IndexOf(buffer, '\n');
      }
      stop := false;
    }

    method Flush() returns (stop: bool)
      modifies this
      ensures var st := Finished(old(Running()), old(buffer), handler); Is(st) && stop == st.stopped
      ensures !stop ==> buffer == ""
    {
      if buffer != "" {
        var line := buffer;
        buffer := "";
        stop := HandleLine(line);
        if stop {
          return;
        }
      }
      stop := Dispatch();
    }
  }

  /** Chunks pushed until a stop, then the flush: what the handler was given. */
  method Deliver(chunks: seq<string>, handler: Handler) returns (messages: seq<Message>)
    ensures messages == Whole(Text(chunks), handler)
  {
    ChunkInvariant(chunks, handler);
    hide Pushed, Finished, Whole;
    var parser := new SseParser(handler);
    ghost var goal := PushedAll(Parse(START, ""), chunks, handler);
    var stopped := false;
    for k := 0 to |chunks|
      invariant fresh(parser) && parser.handler == handler && !stopped
      invariant PushedAll(Parse(parser.Running(), parser.buffer), chunks[k..], handler) == goal
    {
      assert chunks[k..][1..] == chunks[k + 1..];
      ghost var p := Pushed(Parse(parser.Running(), parser.buffer), chunks[k], handler);
      stopped := parser.Push(chunks[k]);
      if stopped {
        assert goal == p;
        AlreadyStopped(goal, handler);
        return parser.delivered;
      }
    }
    var _ := parser.Flush();
    messages := parser.delivered;
  }

  lemma AlreadyStopped(p: Parse, handler: Handler)
    requires p.st.stopped
    ensures Finished(p.st, p.buffer, handler) == p.st
  {
  }

  // ---- printing frames -------------------------------------------------------------------------------------------------

  /** The lines a data text is written on. */
  function DataLines(data: string): (r: seq<string>)
    ensures r != []
  {
    CutLines(data).lines + [CutLines(data).rest]
  }

  function DataFields(lines: seq<string>): seq<string> {
    if lines == [] then [] else DataFields(lines[..|lines| - 1]) + ["data" + ": " + lines[|lines| - 1]]
  }

  function IdFields(id: Option<string>): seq<string> {
    if id.Some? then ["id" + ": " + id.value] else []
  }

  /** The lines of the frame of a message, the blank one included. */
  function FrameLines(m: Message): seq<string> {
    ["event" + ": " + m.event] + IdFields(m.id) + DataFields(DataLines(m.data)) + [""]
  }

  function AllLines(ms: seq<Message>): seq<string> {
    if ms == [] then [] else FrameLines(ms[0]) + AllLines(ms[1..])
  }

  function Unlines(lines: seq<string>): string {
    if lines == [] then "" else lines[0] + "\n" + Unlines(lines[1..])
  }

  function Printed(ms: seq<Message>): string {
    Unlines(AllLines(ms))
  }

  predicate EndsCr(s: string) {
    s != "" && s[|s| - 1] == '\r'
  }

  /** A value that stays itself on a line of its own. */
  predicate Writable(s: string) {
    '\n' !in s && !EndsCr(s)
  }

  predicate Printable(m: Message) {
    m.event != "" && Writable(m.event) && (m.id.Some? ==> Writable(m.id.value)) &&
    forall line :: line in DataLines(m.data) ==> !EndsCr(line)
  }

  lemma {:induction false} CutUnlines(lines: seq<string>)
    requires forall line :: line in lines ==> '\n' !in line
    ensures CutLines(Unlines(lines)) == Cut(lines, "")
  {
    if lines != [] {
      var line, rest := lines[0], Unlines(lines[1..]);
      CutUnlines(lines[1..]);
      IndexOfIs(line, '\n');
      IndexOfConcat(line, "\n" + rest, '\n');
      Assoc(line, "\n", rest);
      assert (line + ("\n" + rest))[..|line|] == line && (line + ("\n" + rest))[|line| + 1..] == rest;
      assert lines == [line] + lines[1..];
    }
  }

  /** A field line is taken apart again, less one carriage return at its end. */
  lemma FieldRead(field: string, value: string)
    requires field != "" && ':' !in field
    ensures var line := StripCr(field + ": " + value);
            line != "" && line[0] != ':' && FieldOf(line) == field && ValueOf(line) == StripCr(value)
  {
    var v := StripCr(value);
    var line := field + ": " + v;
    StripValue(field + ": ", value);
    hide StripCr;
    Assoc(field, ": ", v);
    IndexOfIs(field, ':');
    IndexOfConcat(field, ": " + v, ':');
    assert (": " + v)[0] == ':';
    assert line[..|field|] == field;
    assert line[|field| + 1..] == " " + v;
    Tail(' ', v);
  }

  lemma StripValue(pre: string, value: string)
    requires pre != "" && !EndsCr(pre)
    ensures StripCr(pre + value) == pre + StripCr(value)
  {
    if value == "" {
      Unit(pre);
    } else {
      var s := pre + value;
      assert s[|s| - 1] == value[|value| - 1];
      assert s[..|s| - 1] == pre + value[..|value| - 1];
    }
  }

  lemma EventRead(st: State, value: string, handler: Handler)
    ensures AfterLine(st, "event" + ": " + value, handler) == st.(frame := st.frame.(event := StripCr(value)))
  {
    hide StripCr, FieldOf, ValueOf;
    FieldRead("event", value);
  }

  lemma IdRead(st: State, value: string, handler: Handler)
    ensures AfterLine(st, "id" + ": " + value, handler) == st.(frame := st.frame.(id := Some(StripCr(value))))
  {
    hide StripCr, FieldOf, ValueOf;
    FieldRead("id", value);
  }

  lemma DataRead(st: State, value: string, handler: Handler)
    ensures AfterLine(st, "data" + ": " + value, handler) == st.(frame := st.frame.(data := st.frame.data + [StripCr(value)]))
  {
    hide StripCr, FieldOf, ValueOf;
    FieldRead("data", value);
  }

  lemma AfterSnoc(st: State, lines: seq<string>, line: string, handler: Handler)
    ensures var mid := AfterLines(st, lines, handler);
            AfterLines(st, lines + [line], handler) == if mid.stopped then mid else AfterLine(mid, line, handler)
  {
    AfterConcat(st, lines, [line], handler);
    hide AfterLine;
    assert [line][1..] == [];
  }

  function StripAll(lines: seq<string>): (r: seq<string>)
    ensures |r| == |lines|
  {
    if lines == [] then [] else StripAll(lines[..|lines| - 1]) + [StripCr(lines[|lines| - 1])]
  }

  lemma {:induction false} DataFieldsRead(st: State, lines: seq<string>, handler: Handler)
    requires !st.stopped
    ensures AfterLines(st, DataFields(lines), handler) == st.(frame := st.frame.(data := st.frame.data + StripAll(lines)))
    decreases |lines|
  {
    hide AfterLine, StripCr;
    if lines == [] {
      Unit(st.frame.data);
    } else {
      var k := |lines| - 1;
      DataFieldsRead(st, lines[..k], handler);
      AfterSnoc(st, DataFields(lines[..k]), "data" + ": " + lines[k], handler);
      Assoc(st.frame.data, StripAll(lines[..k]), [StripCr(lines[k])]);
      DataRead(AfterLines(st, DataFields(lines[..k]), handler), lines[k], handler);
    }
  }

  lemma {:induction false} JoinDataLines(data: string)
    ensures Join(DataLines(data), "\n") == data
    decreases |data|
  {
    var newline := IndexOf(data, '\n');
    IndexOfIs(data, '\n');
    hide IndexOf;
    if newline.Some? {
      var k := newline.value;
      var rest := data[k + 1..];
      JoinDataLines(rest);
      Assoc([data[..k]], CutLines(rest).lines, [CutLines(rest).rest]);
      assert DataLines(data) == [data[..k]] + DataLines(rest);
      JoinFirst(data[..k], DataLines(rest));
      assert data == data[..k] + "\n" + rest;
    } else {
      Unit([data]);
    }
  }

  lemma JoinFirst(x: string, rest: seq<string>)
    requires rest != []
    ensures Join([x] + rest, "\n") == x + "\n" + Join(rest, "\n")
  {
    Tail(x, rest);
  }

  /** The message that the frame printed for `m` delivers. */
  function Normal(m: Message): Message {
    Message(if StripCr(m.event) == "" then "message" else StripCr(m.event),
            Join(StripAll(DataLines(m.data)), "\n"),
            if m.id.Some? then Some(StripCr(m.id.value)) else None)
  }

  /** A frame delivers its message and leaves an empty frame. */
  lemma FrameRead(done: seq<Message>, m: Message, handler: Handler)
    ensures AfterLines(State(EMPTY_FRAME, done, false), FrameLines(m), handler) ==
            State(EMPTY_FRAME, done + [Normal(m)], handler(done + [Normal(m)]))
  {
    hide AfterLines, AfterLine, DataFields, DataLines, StripCr;
    var st := State(EMPTY_FRAME, done, false);
    var e, i, d := ["event" + ": " + m.event], IdFields(m.id), DataFields(DataLines(m.data));
    var st1 := st.(frame := st.frame.(event := StripCr(m.event)));
    assert AfterLines(st, e, handler) == st1 by {
      Unit(e);
      AfterSnoc(st, [], e[0], handler);
      NoLines(st, handler);
      EventRead(st, m.event, handler);
    }
    var st2 := st1.(frame := st1.frame.(id := if m.id.Some? then Some(StripCr(m.id.value)) else None));
    AfterConcat(st, e, i, handler);
    assert AfterLines(st1, i, handler) == st2 by {
      NoLines(st1, handler);
      if m.id.Some? {
        AfterSnoc(st1, [], i[0], handler);
        Unit(i);
        IdRead(st1, m.id.value, handler);
      }
    }
    var st3 := st2.(frame := st2.frame.(data := st2.frame.data + StripAll(DataLines(m.data))));
    AfterConcat(st, e + i, d, handler);
    DataFieldsRead(st2, DataLines(m.data), handler);
    AfterSnoc(st, e + i + d, "", handler);
    Unit(StripAll(DataLines(m.data)));
    BlankRead(st3, handler);
  }

  lemma BlankRead(st: State, handler: Handler)
    requires st.frame.data != []
    ensures AfterLine(st, "", handler) ==
            var m := Message(if st.frame.event == "" then "message" else st.frame.event, Join(st.frame.data, "\n"), st.frame.id);
            State(EMPTY_FRAME, st.delivered + [m], handler(st.delivered + [m]))
  {
    hide Join;
  }

  lemma {:induction false} StripAllLength(lines: seq<string>)
    ensures |Join(StripAll(lines), "\n")| <= |Join(lines, "\n")|
    ensures |Join(StripAll(lines), "\n")| == |Join(lines, "\n")| ==> forall line :: line in lines ==> !EndsCr(line)
    decreases |lines|
  {
    hide Join;
    if lines != [] {
      var k := |lines| - 1;
      StripAllLength(lines[..k]);
      JoinSnoc(lines[..k], lines[k], "\n");
      JoinSnoc(StripAll(lines[..k]), StripCr(lines[k]), "\n");
      assert lines == lines[..k] + [lines[k]];
      assert StripAll(lines) == StripAll(lines[..k]) + [StripCr(lines[k])];
      assert |StripCr(lines[k])| <= |lines[k]|;
      if |Join(StripAll(lines), "\n")| == |Join(lines, "\n")| {
        JoinedNothing();
      }
    }
  }

  lemma JoinedNothing()
    ensures Join([], "\n") == ""
  {
  }

  lemma {:induction false} StripNone(lines: seq<string>)
    requires forall line :: line in lines ==> !EndsCr(line)
    ensures StripAll(lines) == lines
    decreases |lines|
  {
    if lines != [] {
      var k := |lines| - 1;
      StripNone(lines[..k]);
      assert lines[k] in lines;
      assert lines == lines[..k] + [lines[k]];
    }
  }

  /** Messages whose printed frame delivers them unchanged. */
  lemma NormalIff(m: Message)
    ensures Normal(m) == m <==>
            m.event != "" && !EndsCr(m.event) && (m.id.Some? ==> !EndsCr(m.id.value)) &&
            forall line :: line in DataLines(m.data) ==> !EndsCr(line)
  {
    hide DataLines, Join, StripAll;
    JoinDataLines(m.data);
    StripAllLength(DataLines(m.data));
    if forall line :: line in DataLines(m.data) ==> !EndsCr(line) {
      StripNone(DataLines(m.data));
    }
  }

  lemma PrintableIsNormal(m: Message)
    requires Printable(m)
    ensures Normal(m) == m
  {
    hide Normal, DataLines;
    NormalIff(m);
  }

  /** The messages up to and including the one at which the handler stops. */
  function UpToStop(done: seq<Message>, ms: seq<Message>, handler: Handler): seq<Message>
    decreases |ms|
  {
    if ms == [] then done
    else if handler(done + [ms[0]]) then done + [ms[0]]
    else UpToStop(done + [ms[0]], ms[1..], handler)
  }

  predicate AllPrintable(ms: seq<Message>) {
    forall m :: m in ms ==> Printable(m)
  }

  lemma {:induction false} FramesRead(done: seq<Message>, ms: seq<Message>, handler: Handler)
    requires AllPrintable(ms)
    ensures var st := AfterLines(State(EMPTY_FRAME, done, false), AllLines(ms), handler);
            st.frame == EMPTY_FRAME && st.delivered == UpToStop(done, ms, handler)
    decreases |ms|
  {
    hide AfterLines, FrameLines, Printable, Normal;
    var st := State(EMPTY_FRAME, done, false);
    if ms == [] {
      NoLines(st, handler);
    } else {
      var d := done + [ms[0]];
      assert ms[0] in ms;
      FrameRead(done, ms[0], handler);
      PrintableIsNormal(ms[0]);
      AfterConcat(st, FrameLines(ms[0]), AllLines(ms[1..]), handler);
      if handler(d) {
        StoppedStays(State(EMPTY_FRAME, d, true), AllLines(ms[1..]), handler);
      } else {
        FramesRead(d, ms[1..], handler);
      }
    }
  }

  lemma {:induction false} DataFieldsNoLf(lines: seq<string>)
    requires forall line :: line in lines ==> '\n' !in line
    ensures forall line :: line in DataFields(lines) ==> '\n' !in line
    decreases |lines|
  {
    if lines != [] {
      DataFieldsNoLf(lines[..|lines| - 1]);
    }
  }

  lemma {:induction false} CutLinesNoLf(text: string)
    ensures forall line :: line in CutLines(text).lines ==> '\n' !in line
    decreases |text|
  {
    IndexOfIs(text, '\n');
    hide IndexOf;
    var newline := IndexOf(text, '\n');
    if newline.Some? {
      CutLinesNoLf(text[newline.value + 1..]);
    }
  }

  lemma DataLinesNoLf(data: string)
    ensures forall line :: line in DataLines(data) ==> '\n' !in line
  {
    hide CutLines;
    CutLinesNoLf(data);
    RestHasNoLf(data);
  }

  lemma FrameLinesNoLf(m: Message)
    requires '\n' !in m.event && (m.id.Some? ==> '\n' !in m.id.value)
    ensures forall line :: line in FrameLines(m) ==> '\n' !in line
  {
    hide DataLines, DataFields;
    DataLinesNoLf(m.data);
    DataFieldsNoLf(DataLines(m.data));
  }

  lemma {:induction false} AllLinesNoLf(ms: seq<Message>)
    requires forall m :: m in ms ==> '\n' !in m.event && (m.id.Some? ==> '\n' !in m.id.value)
    ensures forall line :: line in AllLines(ms) ==> '\n' !in line
    decreases |ms|
  {
    if ms != [] {
      assert ms[0] in ms;
      FrameLinesNoLf(ms[0]);
      hide FrameLines;
      AllLinesNoLf(ms[1..]);
    }
  }

  /** Printed messages are delivered again, in any chunking, up to where the handler stops. */
  lemma RoundTrip(ms: seq<Message>, chunks: seq<string>, handler: Handler)
    requires AllPrintable(ms) && Text(chunks) == Printed(ms)
    ensures Delivered(chunks, handler) == UpToStop([], ms, handler)
  {
    hide AllLines, Unlines, CutLines, AfterLines, UpToStop, Delivered;
    ChunkInvariant(chunks, handler);
    AllLinesNoLf(ms);
    CutUnlines(AllLines(ms));
    FramesRead([], ms, handler);
  }

  // ---- only printable messages come back -------------------------------------------------------------------------------

  ghost predicate FrameNoLf(f: Frame) {
    '\n' !in f.event && (f.id.Some? ==> '\n' !in f.id.value)
  }

  ghost predicate MessageNoLf(m: Message) {
    m.event != "" && '\n' !in m.event && (m.id.Some? ==> '\n' !in m.id.value)
  }

  ghost predicate StateNoLf(st: State) {
    FrameNoLf(st.frame) && forall m :: m in st.delivered ==> MessageNoLf(m)
  }

  lemma ValueNoLf(line: string)
    requires '\n' !in line
    ensures '\n' !in ValueOf(line)
  {
    hide IndexOf;
  }

  lemma DispatchNoLf(st: State, handler: Handler)
    requires StateNoLf(st)
    ensures StateNoLf(Dispatched(st, handler))
  {
    hide Join;
  }

  lemma LineNoLf(st: State, raw: string, handler: Handler)
    requires StateNoLf(st) && '\n' !in raw
    ensures StateNoLf(AfterLine(st, raw, handler))
  {
    hide ValueOf, FieldOf, Dispatched;
    if StripCr(raw) == "" {
      DispatchNoLf(st, handler);
    } else {
      ValueNoLf(StripCr(raw));
    }
  }

  lemma {:induction false} LinesNoLf(st: State, lines: seq<string>, handler: Handler)
    requires StateNoLf(st) && forall line :: line in lines ==> '\n' !in line
    ensures StateNoLf(AfterLines(st, lines, handler))
    decreases |lines|
  {
    hide AfterLine, StateNoLf;
    if lines != [] && !st.stopped {
      LineNoLf(st, lines[0], handler);
      LinesNoLf(AfterLine(st, lines[0], handler), lines[1..], handler);
    }
  }

  lemma FinishedNoLf(st: State, rest: string, handler: Handler)
    requires StateNoLf(st) && '\n' !in rest
    ensures StateNoLf(Finished(st, rest, handler))
  {
    hide AfterLine, StateNoLf, Dispatched;
    var last := if rest == "" then st else AfterLine(st, rest, handler);
    if rest != "" {
      LineNoLf(st, rest, handler);
    }
    DispatchNoLf(last, handler);
  }

  /** No text delivers an empty event name or a line feed in an event or an id. */
  lemma DeliveredNoLf(text: string, handler: Handler, m: Message)
    requires m in Whole(text, handler)
    ensures MessageNoLf(m)
  {
    hide CutLines, AfterLines, Finished, MessageNoLf;
    var cut := CutLines(text);
    assert StateNoLf(START);
    CutLinesNoLf(text);
    RestHasNoLf(text);
    LinesNoLf(START, cut.lines, handler);
    FinishedNoLf(AfterLines(START, cut.lines, handler), cut.rest, handler);
  }

  lemma OneFrame(m: Message, handler: Handler)
    requires '\n' !in m.event && (m.id.Some? ==> '\n' !in m.id.value)
    ensures Whole(Printed([m]), handler) == [Normal(m)]
  {
    hide FrameLines, CutLines, AfterLines, Normal, Unlines;
    FrameLinesNoLf(m);
    OneAllLines(m);
    CutUnlines(FrameLines(m));
    FrameRead([], m, handler);
  }

  lemma OneAllLines(m: Message)
    ensures AllLines([m]) == FrameLines(m)
  {
    hide FrameLines;
    assert [m][1..] == [];
    Unit(FrameLines(m));
  }

  /** A message printed alone comes back, in any chunking, exactly when its fields can be written on a line. */
  lemma RoundTripIff(m: Message, chunks: seq<string>, handler: Handler)
    requires Text(chunks) == Printed([m])
    ensures Delivered(chunks, handler) == [m] <==> Printable(m)
  {
    hide Delivered, Whole, Normal, Printed, DataLines;
    ChunkInvariant(chunks, handler);
    NormalIff(m);
    if Delivered(chunks, handler) == [m] {
      assert m in [m];
      DeliveredNoLf(Printed([m]), handler, m);
      OneFrame(m, handler);
      assert [Normal(m)][0] == Normal(m);
    }
    if Printable(m) {
      OneFrame(m, handler);
    }
  }

  // ---- whole sequences ------------------------------------------------------------------------------------------------------

  ghost predicate NeverStops(handler: Handler) {
    forall ms :: !handler(ms)
  }

  function Normals(ms: seq<Message>): (r: seq<Message>)
    ensures |r| == |ms| && forall i :: 0 <= i < |ms| ==> r[i] == Normal(ms[i])
  {
    seq(|ms|, i requires 0 <= i < |ms| => Normal(ms[i]))
  }

  lemma {:induction false} FramesNormal(done: seq<Message>, ms: seq<Message>, handler: Handler)
    requires NeverStops(handler)
    ensures AfterLines(State(EMPTY_FRAME, done, false), AllLines(ms), handler) == State(EMPTY_FRAME, done + Normals(ms), false)
    decreases |ms|
  {
    hide AfterLines, FrameLines, Normal;
    var st := State(EMPTY_FRAME, done, false);
    if ms == [] {
      NoLines(st, handler);
    } else {
      var d := done + [Normal(ms[0])];
      FrameRead(done, ms[0], handler);
      AfterConcat(st, FrameLines(ms[0]), AllLines(ms[1..]), handler);
      FramesNormal(d, ms[1..], handler);
      assert Normals(ms) == [Normal(ms[0])] + Normals(ms[1..]);
      Assoc(done, [Normal(ms[0])], Normals(ms[1..]));
    }
  }

  lemma AllFrames(ms: seq<Message>, handler: Handler)
    requires NeverStops(handler) && forall m :: m in ms ==> MessageNoLf(m)
    ensures Whole(Printed(ms), handler) == Normals(ms)
  {
    hide AllLines, CutLines, AfterLines, Normals, Unlines;
    AllLinesNoLf(ms);
    CutUnlines(AllLines(ms));
    FramesNormal([], ms, handler);
    Unit(Normals(ms));
  }

  /** Printed messages all come back unchanged, in any chunking, exactly when each of them can be written. */
  lemma RoundTripAllIff(ms: seq<Message>, chunks: seq<string>, handler: Handler)
    requires NeverStops(handler) && Text(chunks) == Printed(ms)
    ensures Delivered(chunks, handler) == ms <==> AllPrintable(ms)
  {
    hide Delivered, Whole, Normal, Printed, DataLines, NeverStops;
    ChunkInvariant(chunks, handler);
    if Delivered(chunks, handler) == ms {
      forall m | m in ms
        ensures MessageNoLf(m)
      {
        DeliveredNoLf(Printed(ms), handler, m);
      }
      AllFrames(ms, handler);
      forall m | m in ms
        ensures Printable(m)
      {
        var i :| 0 <= i < |ms| && ms[i] == m;
        assert Normals(ms)[i] == m;
        NormalIff(m);
      }
    }
    if AllPrintable(ms) {
      forall m | m in ms
        ensures MessageNoLf(m)
      {
        assert Printable(m);
      }
      AllFrames(ms, handler);
      forall i | 0 <= i < |ms|
        ensures Normals(ms)[i] == ms[i]
      {
        PrintableIsNormal(ms[i]);
      }
    }
  }

  // ---- what a frame means ------------------------------------------------------------------------------------------------------

  /** The ways to write a field: its name alone, or a colon, perhaps a space, and the value. */
  predicate Spells(line: string, field: string, value: string) {
    ':' !in field &&
    ((line == field && value == "") || (line == field + ":" + value && (value == "" || value[0] != ' ')) || line == field + ": " + value)
  }

  /** A line is taken apart in the one way it can have been written. */
  lemma LineSpells(line: string, field: string, value: string)
    ensures Spells(line, field, value) <==> field == FieldOf(line) && value == ValueOf(line)
  {
    TakenApart(line);
    if Spells(line, field, value) {
      if line == field {
        NameAlone(field);
      } else {
        NamedValue(line, field, value);
      }
    }
  }

  lemma TakenApart(line: string)
    ensures Spells(line, FieldOf(line), ValueOf(line))
  {
    var colon := IndexOf(line, ':');
    IndexOfIs(line, ':');
    hide IndexOf;
    if colon.Some? {
      var name, rest := line[..colon.value], line[colon.value + 1..];
      Around(line, colon.value);
      assert line == name + ":" + rest;
      if rest != "" && rest[0] == ' ' {
        assert line == name + ": " + rest[1..];
      }
    }
  }

  lemma NameAlone(field: string)
    requires ':' !in field
    ensures FieldOf(field) == field && ValueOf(field) == ""
  {
    IndexOfIs(field, ':');
    hide IndexOf;
  }

  lemma NamedValue(line: string, field: string, value: string)
    requires ':' !in field
    requires line == field + ": " + value || (line == field + ":" + value && (value == "" || value[0] != ' '))
    ensures FieldOf(line) == field && ValueOf(line) == value
  {
    hide FieldOf, ValueOf;
    if line == field + ": " + value {
      assert line == field + ":" + (" " + value);
      AfterColon(field, " " + value);
      assert (" " + value)[1..] == value;
    } else {
      AfterColon(field, value);
    }
  }

  lemma AfterColon(field: string, rest: string)
    requires ':' !in field
    ensures FieldOf(field + ":" + rest) == field && ValueOf(field + ":" + rest) == StripSpace(rest)
  {
    IndexOfIs(field, ':');
    IndexOfConcat(field, ":" + rest, ':');
    Append(field, ':', rest);
    assert IndexOf(":" + rest, ':') == Some(0);
    hide IndexOf;
    var line := field + ":" + rest;
    assert line[..|field|] == field && line[|field| + 1..] == rest;
  }

  /** The values given to a field, in order. */
  function ValuesOf(lines: seq<string>, field: string): seq<string> {
    if lines == [] then []
    else
      var init, line := ValuesOf(lines[..|lines| - 1], field), StripCr(lines[|lines| - 1]);
      if FieldOf(line) == field then init + [ValueOf(line)] else init
  }

  function LastOf(values: seq<string>): Option<string> {
    if values == [] then None else Some(values[|values| - 1])
  }

  /** Of lines that are not blank the frame has all data, the last event and the last id; comments and other fields leave no trace. */
  lemma {:induction false} FrameMeans(lines: seq<string>, done: seq<Message>, handler: Handler)
    requires forall i :: 0 <= i < |lines| ==> StripCr(lines[i]) != ""
    ensures var st := AfterLines(State(EMPTY_FRAME, done, false), lines, handler);
            var event := LastOf(ValuesOf(lines, "event"));
            st.delivered == done && !st.stopped &&
            st.frame == Frame(if event.Some? then event.value else "", ValuesOf(lines, "data"), LastOf(ValuesOf(lines, "id")))
    decreases |lines|
  {
    hide AfterLines, StripCr, FieldOf, ValueOf;
    var st := State(EMPTY_FRAME, done, false);
    if lines == [] {
      NoLines(st, handler);
    } else {
      var k := |lines| - 1;
      FrameMeans(lines[..k], done, handler);
      AfterSnoc(st, lines[..k], lines[k], handler);
      assert lines == lines[..k] + [lines[k]];
      CommentField(StripCr(lines[k]));
    }
  }

  /** A comment line has no field. */
  lemma CommentField(line: string)
    ensures line != "" && line[0] == ':' ==> FieldOf(line) == ""
  {
    IndexOfIs(line, ':');
  }

  /** A carriage return before the line feed makes no difference. */
  lemma CarriageReturns(st: State, line: string, handler: Handler)
    requires !EndsCr(line)
    ensures AfterLine(st, line + "\r", handler) == AfterLine(st, line, handler)
  {
    assert StripCr(line + "\r") == line;
  }
}
