/** Framing: the observer's view of two interleaved byte streams is that of their lines. */
module AcpFraming {
  import opened Utf8
  import opened AcpSnapshot
  import opened AcpMessages
  import opened AcpInvariant
  import opened AcpExact

  /** One received byte and its side. */
  datatype WireByte = WireByte(client: bool, b: byte)

  type Wire = seq<WireByte>

  datatype Line = Line(client: bool, bytes: Bytes)

  /** The observer after the bytes of a wire, one at a time. */
  function OnWire(decode: Decoder, s: State, w: Wire): State {
    if w == [] then s
    else
      var last := w[|w| - 1];
      OnByte(decode, OnWire(decode, s, w[..|w| - 1]), last.client, last.b)
  }

  lemma {:induction false} OnWireConcat(decode: Decoder, s: State, a: Wire, b: Wire)
    ensures OnWire(decode, s, a + b) == OnWire(decode, OnWire(decode, s, a), b)
  {
    hide OnByte;
    if b == [] {
      assert a + b == a;
    } else {
      var n := |b| - 1;
      assert (a + b)[..|a + b| - 1] == a + b[..n];
      OnWireConcat(decode, s, a, b[..n]);
    }
  }

  // ---------- The reference: split each side on newlines ----------

  /** What one side has sent since its last newline. */
  function Tail(w: Wire, client: bool): Bytes {
    if w == [] then []
    else
      var last := w[|w| - 1];
      var before := Tail(w[..|w| - 1], client);
      if last.client != client then before
      else if last.b == NEWLINE then []
      else before + [last.b]
  }

  /** The lines completed so far, in the order of their newlines. */
  function Lines(w: Wire): seq<Line> {
    if w == [] then []
    else
      var last := w[|w| - 1];
      var before := w[..|w| - 1];
      Lines(before) + if last.b == NEWLINE then [Line(last.client, Tail(before, last.client))] else []
  }

  predicate Oversized(bytes: Bytes) {
    |bytes| > 1_048_576
  }

  function OversizedIn(lines: seq<Line>): nat {
    if lines == [] then 0
    else OversizedIn(lines[..|lines| - 1]) + if Oversized(lines[|lines| - 1].bytes) then 1 else 0
  }

  /** Oversized lines, finished or not. */
  function OversizedLines(w: Wire): nat {
    OversizedIn(Lines(w)) +
    (if Oversized(Tail(w, true)) then 1 else 0) + (if Oversized(Tail(w, false)) then 1 else 0)
  }

  /** The observer's reaction to a whole line: blank and oversized lines are dropped. */
  function OnLine(decode: Decoder, s: State, line: Line): State {
    if Oversized(line.bytes) || Blank(line.bytes) then s else OnFrame(decode, s, line.client, line.bytes)
  }

  function OnLines(decode: Decoder, s: State, lines: seq<Line>): State {
    if lines == [] then s
    else OnLine(decode, OnLines(decode, s, lines[..|lines| - 1]), lines[|lines| - 1])
  }

  function StreamOf(tail: Bytes): FrameStream {
    if Oversized(tail) then FrameStream([], true) else FrameStream(tail, false)
  }

  /** The same projection with n more things missed and other partial lines. */
  function Shift(s: State, n: nat, clientStream: FrameStream, agentStream: FrameStream): State {
    s.(clientStream := clientStream, agentStream := agentStream,
       snapshot := s.snapshot.(revision := s.snapshot.revision + n, incomplete := s.snapshot.incomplete || n > 0))
  }

  // ---------- Messages do not see what Shift changes ----------

  lemma OpenPromptShift(s: State, m: Message, n: nat, c: FrameStream, a: FrameStream)
    requires m.params.Some?
    ensures OpenPrompt(Shift(s, n, c, a), m) == Shift(OpenPrompt(s, m), n, c, a)
  {
    hide RetainBlocks;
  }

  lemma RequestShift(s: State, m: Message, n: nat, c: FrameStream, a: FrameStream)
    requires Tracked(m.rpc)
    ensures OnRequest(Shift(s, n, c, a), m) == Shift(OnRequest(s, m), n, c, a)
  {
    hide OpenPrompt, HasSession, OversizedParams;
    var t := Shift(s, n, c, a);
    assert Untrackable(t, m) == Untrackable(s, m);
    if Untrackable(s, m) {
    } else if m.rpc == Authenticate || OversizedParams(m) {
    } else {
      assert m.params.Some? by { FittingParams(m); }
      if m.rpc == SessionPrompt {
        OpenPromptShift(s, m, n, c, a);
      }
    }
  }

  lemma FittingParams(m: Message)
    ensures OversizedParams(m) || m.params.Some?
  {
  }

  lemma OpenSessionShift(s: State, r: Request, result: ResultFields, n: nat, c: FrameStream, a: FrameStream)
    requires OpensSession(r.rpc)
    ensures OpenSession(Shift(s, n, c, a), r, result) == Shift(OpenSession(s, r, result), n, c, a)
  {
    hide HasSession, OperationOf;
    var t := Shift(s, n, c, a);
    assert t.snapshot.sessions == s.snapshot.sessions;
  }

  lemma ClosePromptShift(s: State, r: Request, m: Message, n: nat, c: FrameStream, a: FrameStream)
    ensures ClosePrompt(Shift(s, n, c, a), r, m) == Shift(ClosePrompt(s, r, m), n, c, a)
  {
    hide Settled;
  }

  lemma SettleShift(s: State, r: Request, m: Message, n: nat, c: FrameStream, a: FrameStream)
    ensures Settle(Shift(s, n, c, a), r, m) == Shift(Settle(s, r, m), n, c, a)
  {
    hide Bounded, Settled, OpenSession, ClosePrompt;
    if r.rpc == SessionPrompt {
      ClosePromptShift(s, r, m, n, c, a);
    } else if OpensSession(r.rpc) && !FailedReply(m) {
      OpenSessionShift(s, r, m.result.value, n, c, a);
    }
  }

  lemma ResponseShift(s: State, m: Message, n: nat, c: FrameStream, a: FrameStream)
    ensures OnResponse(Shift(s, n, c, a), m) == Shift(OnResponse(s, m), n, c, a)
  {
    hide Settle;
    if m.id in s.pending {
      assert Answer(Shift(s, n, c, a), m) == Shift(Answer(s, m), n, c, a);
      SettleShift(Answer(s, m), s.pending[m.id], m, n, c, a);
    }
  }

  lemma UpdateShift(s: State, m: Message, n: nat, c: FrameStream, a: FrameStream)
    ensures OnUpdate(Shift(s, n, c, a), m) == Shift(OnUpdate(s, m), n, c, a)
  {
    hide Retain, Chunked, Called;
    if m.update.Some? {
      var session := m.update.value.sessionId;
      if session in s.active && 0 <= s.active[session] < |s.snapshot.prompts| {
        assert Shift(s, n, c, a).snapshot.prompts == s.snapshot.prompts;
      }
    }
  }

  lemma FrameShift(decode: Decoder, s: State, client: bool, frame: Bytes, n: nat, c: FrameStream, a: FrameStream)
    ensures OnFrame(decode, Shift(s, n, c, a), client, frame) == Shift(OnFrame(decode, s, client, frame), n, c, a)
  {
    hide OnRequest, OnResponse, OnUpdate, Valid;
    if Valid(frame) && decode(frame).Some? {
      var m := decode(frame).value;
      if Tracked(m.rpc) { RequestShift(s, m, n, c, a); }
      ResponseShift(s, m, n, c, a);
      UpdateShift(s, m, n, c, a);
    }
  }

  // ---------- Framing ----------

  lemma {:induction false} OnLinesKeeps(decode: Decoder, content: bool, lines: seq<Line>)
    ensures var s := OnLines(decode, Initial(content), lines);
      Inv(s) && SameFrame(Initial(content), s) && !s.snapshot.final
  {
    InitialInv(content);
    hide Inv, OnFrame, Blank;
    if lines != [] {
      var before := lines[..|lines| - 1];
      OnLinesKeeps(decode, content, before);
      var last := lines[|lines| - 1];
      FrameKeepsInv(decode, OnLines(decode, Initial(content), before), last.client, last.bytes);
    }
  }

  lemma OnLinesAppend(decode: Decoder, s: State, lines: seq<Line>, line: Line)
    ensures OnLines(decode, s, lines + [line]) == OnLine(decode, OnLines(decode, s, lines), line)
    ensures OversizedIn(lines + [line]) == OversizedIn(lines) + if Oversized(line.bytes) then 1 else 0
  {
    hide OnLine;
    assert (lines + [line])[..|lines|] == lines;
  }

  /** Feeding an interleaving of two streams reaches the projection of their completed lines, plus one missed
      observation per oversized line, with the unfinished tails buffered. */
  lemma {:induction false} Framing(decode: Decoder, content: bool, w: Wire)
    ensures OnWire(decode, Initial(content), w) ==
            Shift(OnLines(decode, Initial(content), Lines(w)), OversizedLines(w),
                  StreamOf(Tail(w, true)), StreamOf(Tail(w, false)))
  {
    if w != [] {
      var before, last := w[..|w| - 1], w[|w| - 1];
      Framing(decode, content, before);
      OnLinesKeeps(decode, content, Lines(before));
      assert before + [last] == w;
      FramingStep(decode, content, before, last);
    }
  }

  lemma FramingStep(decode: Decoder, content: bool, w: Wire, last: WireByte)
    requires !OnLines(decode, Initial(content), Lines(w)).snapshot.final
    ensures var s := OnLines(decode, Initial(content), Lines(w));
      var w' := w + [last];
      OnByte(decode, Shift(s, OversizedLines(w), StreamOf(Tail(w, true)), StreamOf(Tail(w, false))), last.client,
        last.b) ==
      Shift(OnLines(decode, Initial(content), Lines(w')), OversizedLines(w'),
            StreamOf(Tail(w', true)), StreamOf(Tail(w', false)))
  {
    hide OnByte, OnLines, OversizedIn, OnLine, StreamOf, Shift;
    var w' := w + [last];
    assert w'[..|w|] == w;
    var s := OnLines(decode, Initial(content), Lines(w));
    var tail, other := Tail(w, last.client), Tail(w, !last.client);
    if last.b == NEWLINE {
      OnLinesAppend(decode, Initial(content), Lines(w), Line(last.client, tail));
      assert Lines(w') == Lines(w) + [Line(last.client, tail)];
      NewlineStep(decode, s, last.client, OversizedLines(w), tail, other);
    } else {
      assert Lines(w') == Lines(w);
      PartStep(decode, s, last.client, last.b, OversizedLines(w), tail, other);
    }
  }

  /** Shift with the partial lines of the speaking side and of the other one. */
  function ShiftTails(s: State, n: nat, client: bool, tail: Bytes, other: Bytes): State {
    if client then Shift(s, n, StreamOf(tail), StreamOf(other)) else Shift(s, n, StreamOf(other), StreamOf(tail))
  }

  lemma NewlineStep(decode: Decoder, s: State, client: bool, n: nat, tail: Bytes, other: Bytes)
    requires !s.snapshot.final
    ensures OnByte(decode, ShiftTails(s, n, client, tail, other), client, NEWLINE) ==
            ShiftTails(OnLine(decode, s, Line(client, tail)), n, client, [], other)
  {
    hide OnFrame, Blank;
    var t := ShiftTails(s, n, client, tail, other);
    FrameShift(decode, s, client, tail, n, t.clientStream, t.agentStream);
  }

  lemma PartStep(decode: Decoder, s: State, client: bool, b: byte, n: nat, tail: Bytes, other: Bytes)
    requires !s.snapshot.final && b != NEWLINE
    ensures OnByte(decode, ShiftTails(s, n, client, tail, other), client, b) ==
            ShiftTails(s, if |tail| == MAX_FRAME_BYTES then n + 1 else n, client, tail + [b], other)
  {
    hide OnFrame, Blank;
  }

  // ---------- Lines as messages ----------

  predicate Decodes(decode: Decoder, line: Line) {
    Blank(line.bytes) || (Valid(line.bytes) && decode(line.bytes).Some?)
  }

  predicate Eventful(decode: Decoder, line: Line) {
    Valid(line.bytes) && !Blank(line.bytes) && decode(line.bytes).Some?
  }

  function EventOf(decode: Decoder, line: Line): Event
    requires Eventful(decode, line)
  {
    Event(line.client, decode(line.bytes).value)
  }

  /** The messages the lines carry. */
  function Events(decode: Decoder, lines: seq<Line>): History {
    if lines == [] then []
    else
      var last := lines[|lines| - 1];
      Events(decode, lines[..|lines| - 1]) + if Eventful(decode, last) then [EventOf(decode, last)] else []
  }

  /** Lines that were all observed were all decoded, and leave the observer where their messages do. */
  lemma {:induction false} ObservedLines(decode: Decoder, content: bool, lines: seq<Line>)
    requires !OnLines(decode, Initial(content), lines).snapshot.incomplete && OversizedIn(lines) == 0
    ensures OnLines(decode, Initial(content), lines) == MessageRun(content, Events(decode, lines))
    ensures forall i | 0 <= i < |lines| :: Decodes(decode, lines[i]) && !Oversized(lines[i].bytes)
  {
    hide OnLine, OnMessage, Inv, SameFrame, MessageRun, Oversized, Decodes, Eventful;
    if lines != [] {
      var before, last := lines[..|lines| - 1], lines[|lines| - 1];
      OnLinesKeeps(decode, content, before);
      ObservedLine(decode, OnLines(decode, Initial(content), before), last);
      ObservedLines(decode, content, before);
      if Eventful(decode, last) {
        MessageRunAppend(content, Events(decode, before), EventOf(decode, last));
      } else {
        assert Events(decode, lines) == Events(decode, before);
      }
    } else {
      NoMessages(content);
    }
  }

  lemma NoMessages(content: bool)
    ensures MessageRun(content, []) == Initial(content)
  {
  }

  lemma ObservedLine(decode: Decoder, s: State, line: Line)
    requires Inv(s) && !s.snapshot.final
    ensures var t := OnLine(decode, s, line);
      !t.snapshot.incomplete ==>
        && !s.snapshot.incomplete
        && (!Oversized(line.bytes) ==>
              && Decodes(decode, line)
              && t == if Eventful(decode, line) then OnMessage(s, line.client, EventOf(decode, line).m) else s)
  {
    hide Inv, OnMessage, Valid, Blank;
    if Valid(line.bytes) && decode(line.bytes).Some? {
      MessageEvolves(s, line.client, decode(line.bytes).value);
    }
  }

  /** Lines that all decode and fit leave the observer where their messages do. */
  lemma {:induction false} DecodedLines(decode: Decoder, content: bool, lines: seq<Line>)
    requires forall i | 0 <= i < |lines| :: Decodes(decode, lines[i]) && !Oversized(lines[i].bytes)
    ensures OnLines(decode, Initial(content), lines) == MessageRun(content, Events(decode, lines))
    ensures OversizedIn(lines) == 0
  {
    hide OnLine, OnMessage, MessageRun, Oversized, Decodes, Eventful;
    if lines != [] {
      var before, last := lines[..|lines| - 1], lines[|lines| - 1];
      DecodedLines(decode, content, before);
      DecodedLine(decode, OnLines(decode, Initial(content), before), last);
      if Eventful(decode, last) {
        MessageRunAppend(content, Events(decode, before), EventOf(decode, last));
      } else {
        assert Events(decode, lines) == Events(decode, before);
      }
    } else {
      NoMessages(content);
    }
  }

  lemma DecodedLine(decode: Decoder, s: State, line: Line)
    requires Decodes(decode, line) && !Oversized(line.bytes)
    ensures OnLine(decode, s, line) == if Eventful(decode, line)
      then OnMessage(s, line.client, EventOf(decode, line).m) else s
  {
    hide OnMessage, Valid, Blank;
  }

  // ---------- Every line, observed or not ----------

  /** The lines that are not dropped for their size. */
  function Admitted(lines: seq<Line>): seq<Line> {
    if lines == [] then []
    else Admitted(lines[..|lines| - 1]) + if |lines[|lines| - 1].bytes| <= 1_048_576 then [lines[|lines| - 1]] else []
  }

  /** Admitted lines that are neither blank nor decodable. */
  function Undecoded(decode: Decoder, lines: seq<Line>): nat {
    if lines == [] then 0
    else
      var last := lines[|lines| - 1];
      Undecoded(decode, lines[..|lines| - 1]) +
      if |last.bytes| <= 1_048_576 && !Decodes(decode, last) then 1 else 0
  }

  /** Whatever the lines are, they leave what their messages leave, with one more thing missed for each line that does
      not decode. */
  lemma {:induction false} LinesAreMessages(decode: Decoder, content: bool, lines: seq<Line>)
    ensures OnLines(decode, Initial(content), lines) ==
      Shift(MessageRun(content, Events(decode, Admitted(lines))), Undecoded(decode, lines), EMPTY_STREAM, EMPTY_STREAM)
  {
    hide OnLine, OnMessage, MessageRun, Decodes, Eventful, Shift;
    if lines == [] {
      NoMessages(content);
      NoShift(Initial(content));
    } else {
      var n := |lines| - 1;
      LinesAreMessages(decode, content, lines[..n]);
      LineShift(decode, MessageRun(content, Events(decode, Admitted(lines[..n]))), lines[n],
        Undecoded(decode, lines[..n]));
      AdmittedAppend(decode, content, lines);
    }
  }

  lemma NoShift(s: State)
    requires s.clientStream == s.agentStream == EMPTY_STREAM
    ensures Shift(s, 0, EMPTY_STREAM, EMPTY_STREAM) == s
  {
  }

  lemma AdmittedAppend(decode: Decoder, content: bool, lines: seq<Line>)
    requires lines != []
    ensures
      var before, last := Events(decode, Admitted(lines[..|lines| - 1])), lines[|lines| - 1];
      MessageRun(content, Events(decode, Admitted(lines))) ==
        if |last.bytes| <= 1_048_576 && Eventful(decode, last)
        then OnMessage(MessageRun(content, before), last.client, EventOf(decode, last).m)
        else MessageRun(content, before)
  {
    hide OnMessage, MessageRun, Eventful;
    var before, last := Admitted(lines[..|lines| - 1]), lines[|lines| - 1];
    if |last.bytes| <= 1_048_576 {
      assert (before + [last])[..|before|] == before;
      if Eventful(decode, last) {
        MessageRunAppend(content, Events(decode, before), EventOf(decode, last));
      } else {
        assert Events(decode, before) + [] == Events(decode, before);
      }
    } else {
      assert before + [] == before;
    }
  }

  lemma LineShift(decode: Decoder, s: State, line: Line, n: nat)
    ensures
      var t := if |line.bytes| <= 1_048_576 && Eventful(decode, line)
               then OnMessage(s, line.client, EventOf(decode, line).m) else s;
      OnLine(decode, Shift(s, n, EMPTY_STREAM, EMPTY_STREAM), line) ==
        Shift(t, n + if |line.bytes| <= 1_048_576 && !Decodes(decode, line) then 1 else 0, EMPTY_STREAM, EMPTY_STREAM)
  {
    hide OnMessage, Valid, Blank;
    FrameShift(decode, s, line.client, line.bytes, n, EMPTY_STREAM, EMPTY_STREAM);
  }
}
