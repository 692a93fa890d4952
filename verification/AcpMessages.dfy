/** The ACP observer's reaction to one decoded JSON-RPC message, as functions on its state. */
module AcpMessages {
  import opened Wrappers
  import opened Utf8
  import opened AcpSnapshot

  /** The methods the observer tells apart; NoMethod is a response. */
  datatype Method =
    | NoMethod | Initialize | Authenticate | SessionNew | SessionLoad | SessionResume | SessionFork
    | SessionPrompt | AuthStatusUpdate | SessionUpdate | OtherMethod

  datatype Block = Block(isText: bool, text: Text)

  datatype RequestParams = RequestParams(sessionId: Text, cwd: Text, blocks: seq<Block>)

  /** Absent and null errors are NoError; the code is absent when it does not decode. */
  datatype ErrorField = NoError | Error(code: Option<int>)

  datatype ResultFields = ResultFields(
    sessionId: Text, protocolVersion: uint32, agentName: Text, agentVersion: Text, stopReason: StopReason)

  datatype UpdateKind = AgentMessageChunk | ToolCall | OtherUpdate

  datatype UpdateParams = UpdateParams(sessionId: Text, kind: UpdateKind, isText: bool, text: Text)

  /** One message; a None view is one whose JSON does not decode to the shape its reader expects.
      The id is the tagged text of a string or number id, empty when there is none. */
  datatype Message = Message(
    id: Text, rpc: Method, params: Option<RequestParams>, error: ErrorField, result: Option<ResultFields>,
    authStatusNone: bool, update: Option<UpdateParams>)

  datatype FrameStream = FrameStream(bytes: Bytes, skipping: bool)

  datatype Request = Request(rpc: Method, session: Text, cwd: Text, prompt: int)

  datatype State = State(
    content: bool, clientStream: FrameStream, agentStream: FrameStream, snapshot: Snapshot,
    pending: map<Bytes, Request>, active: map<Bytes, int>, textBytes: nat)

  const EMPTY_STREAM := FrameStream([], false)

  function Initial(content: bool): State {
    State(content, EMPTY_STREAM, EMPTY_STREAM,
          Snapshot(1, 0, Agent([], []), false, [], [], false, false, None), map[], map[], 0)
  }

  predicate Tracked(rpc: Method) {
    rpc.Initialize? || rpc.Authenticate? || OpensSession(rpc) || rpc.SessionPrompt?
  }

  predicate OpensSession(rpc: Method) {
    rpc.SessionNew? || rpc.SessionLoad? || rpc.SessionResume? || rpc.SessionFork?
  }

  function OperationOf(rpc: Method): Operation
    requires OpensSession(rpc)
  {
    match rpc
    case SessionNew => New
    case SessionLoad => Load
    case SessionResume => Resume
    case SessionFork => Fork
  }

  /** Records that something could not be observed. */
  function Flag(s: State): State {
    s.(snapshot := s.snapshot.(incomplete := true, revision := s.snapshot.revision + 1))
  }

  function Publish(s: State): State {
    s.(snapshot := s.snapshot.(revision := s.snapshot.revision + 1))
  }

  // ---------- Text budget ----------

  datatype Kept = Kept(text: Text, total: nat, lost: bool)

  function Retain(text: Text, total: nat): (k: Kept)
    ensures total <= MAX_TEXT_BYTES ==> k.total <= MAX_TEXT_BYTES
    ensures total <= MAX_TEXT_BYTES ==> LongestValidPrefix(k.text, text, MAX_TEXT_BYTES - total)
    ensures k.total == total + |k.text|
    ensures !k.lost ==> k.text == text
  {
    var kept := Bounded(text, if total <= MAX_TEXT_BYTES then MAX_TEXT_BYTES - total else 0);
    Kept(kept, total + |kept|, |kept| != |text|)
  }

  /** The text of the text blocks, each cut to what the budget leaves for it. */
  function RetainBlocks(blocks: seq<Block>, total: nat): (k: Kept)
    ensures total <= MAX_TEXT_BYTES ==> k.total <= MAX_TEXT_BYTES
    ensures k.total == total + |k.text|
  {
    if blocks == [] then Kept([], total, false)
    else
      var before := RetainBlocks(blocks[..|blocks| - 1], total);
      var last := blocks[|blocks| - 1];
      if !last.isText then before
      else
        var kept := Retain(last.text, before.total);
        ValidConcat(before.text, kept.text);
        Kept(before.text + kept.text, kept.total, before.lost || kept.lost)
  }

  // ---------- Client requests ----------

  /** Whether a tracked request cannot be followed: no id, too many open requests, or an id already open. */
  predicate Untrackable(s: State, m: Message) {
    m.id == [] || |s.pending| >= MAX_PROMPTS || m.id in s.pending
  }

  predicate OversizedParams(m: Message) {
    m.params.None? || |m.params.value.sessionId| > MAX_SESSION_ID || |m.params.value.cwd| > MAX_CWD
  }

  function OpenPrompt(s: State, m: Message): State
    requires m.params.Some?
  {
    var sn := s.snapshot;
    var session := m.params.value.sessionId;
    var index := |sn.prompts|;
    var kept := if s.content then RetainBlocks(m.params.value.blocks, s.textBytes) else Kept([], s.textBytes, false);
    var overlaps := session in s.active;
    s.(textBytes := kept.total,
       active := s.active[session := if overlaps then -1 else index],
       pending := s.pending[m.id := Request(SessionPrompt, session, m.params.value.cwd, index)],
       snapshot := sn.(
         prompts := sn.prompts + [Prompt(index + 1, session, Pending, NoReason, kept.text, [], 0)],
         incomplete := sn.incomplete || kept.lost || overlaps,
         revision := sn.revision + 1))
  }

  function OnRequest(s: State, m: Message): State
    requires Tracked(m.rpc)
  {
    if Untrackable(s, m) then Flag(s)
    else if m.rpc == Authenticate then
      s.(pending := s.pending[m.id := Request(Authenticate, [], [], -1)])
    else if OversizedParams(m) then Flag(s)
    else if m.rpc != SessionPrompt then
      Publish(s.(pending := s.pending[m.id := Request(m.rpc, m.params.value.sessionId, m.params.value.cwd, -1)]))
    else if !HasSession(s.snapshot.sessions, m.params.value.sessionId) || |s.snapshot.prompts| >= MAX_PROMPTS then
      Flag(s)
    else OpenPrompt(s, m)
  }

  // ---------- Agent responses ----------

  predicate FailedReply(m: Message) {
    m.error.Error? || m.result.None?
  }

  function Reported(reason: StopReason): StopReason {
    if reason.EndTurn? || reason.MaxTokens? || reason.MaxTurnRequests? || reason.Refusal? || reason.StopCancelled?
    then reason else OtherReason
  }

  /** The prompt record once its response has arrived. */
  function Settled(p: Prompt, m: Message): Prompt {
    if FailedReply(m) then p.(state := Failed)
    else
      p.(state := if m.result.value.stopReason == StopCancelled then Cancelled else Completed,
         stopReason := Reported(m.result.value.stopReason))
  }

  function ClosePrompt(s: State, request: Request, m: Message): State {
    var sn := s.snapshot;
    // The index is always within the prompt list; see AcpInvariant.Coupled.
    if !(0 <= request.prompt < |sn.prompts|) then s
    else
      s.(active := s.active - {request.session},
         snapshot := sn.(
           prompts := sn.prompts[request.prompt := Settled(sn.prompts[request.prompt], m)],
           needsAuthentication := sn.needsAuthentication && FailedReply(m)))
  }

  function OpenSession(s: State, request: Request, result: ResultFields): State
    requires OpensSession(request.rpc)
  {
    var sn := s.snapshot;
    var id := if result.sessionId == [] && (request.rpc.SessionLoad? || request.rpc.SessionResume?)
              then request.session else result.sessionId;
    if id == [] || |id| > MAX_SESSION_ID then s.(snapshot := sn.(incomplete := true))
    else if HasSession(sn.sessions, id) then s
    else if |sn.sessions| >= MAX_SESSIONS then s.(snapshot := sn.(incomplete := true))
    else s.(snapshot := sn.(sessions := sn.sessions + [Session(id, request.cwd, OperationOf(request.rpc))]))
  }

  /** Closes the request and notes what the reply itself says. */
  function Answer(s: State, m: Message): State {
    var sn := s.snapshot;
    s.(pending := s.pending - {m.id},
       snapshot := sn.(
         revision := sn.revision + 1,
         needsAuthentication := sn.needsAuthentication || m.error == Error(Some(-32000)),
         incomplete := sn.incomplete || (m.error.NoError? && m.result.None?)))
  }

  function Settle(s: State, request: Request, m: Message): State {
    if request.rpc == SessionPrompt then ClosePrompt(s, request, m)
    else if FailedReply(m) then s
    else if request.rpc == Authenticate then s.(snapshot := s.snapshot.(needsAuthentication := false))
    else if request.rpc == Initialize then
      var result := m.result.value;
      s.(snapshot := s.snapshot.(
           protocolVersion := result.protocolVersion,
           agent := Agent(Bounded(result.agentName, MAX_AGENT_NAME), Bounded(result.agentVersion, MAX_AGENT_VERSION))))
    else if OpensSession(request.rpc) then OpenSession(s, request, m.result.value)
    else s
  }

  function OnResponse(s: State, m: Message): State {
    if m.id !in s.pending then s else Settle(Answer(s, m), s.pending[m.id], m)
  }

  // ---------- Agent notifications ----------

  function Chunked(p: Prompt, text: Bytes): Prompt {
    p.(agentText := p.agentText + text)
  }

  function Called(p: Prompt): Prompt {
    p.(toolCalls := p.toolCalls + 1)
  }

  function OnUpdate(s: State, m: Message): State {
    if m.update.None? then Flag(s)
    else
      var update := m.update.value;
      var sn := s.snapshot;
      var index := if update.sessionId in s.active then s.active[update.sessionId] else -1;
      if !(0 <= index < |sn.prompts|) then s
      else
        var prompt := sn.prompts[index];
        if update.kind == AgentMessageChunk && s.content && update.isText then
          var kept := Retain(update.text, s.textBytes);
          s.(textBytes := kept.total,
             snapshot := sn.(
               prompts := sn.prompts[index := Chunked(prompt, kept.text)],
               incomplete := sn.incomplete || kept.lost,
               revision := sn.revision + 1))
        else if update.kind == ToolCall then
          s.(snapshot := sn.(
               prompts := sn.prompts[index := Called(prompt)],
               revision := sn.revision + 1))
        else s
  }

  function AuthStatus(s: State, m: Message): State {
    if m.authStatusNone then Publish(s.(snapshot := s.snapshot.(needsAuthentication := true))) else s
  }

  function OnMessage(s: State, client: bool, m: Message): State {
    if client then (if Tracked(m.rpc) then OnRequest(s, m) else s)
    else match m.rpc
      case NoMethod => OnResponse(s, m)
      case AuthStatusUpdate => AuthStatus(s, m)
      case SessionUpdate => OnUpdate(s, m)
      case _ => s
  }

  // ---------- Frames, bytes and the end of the run ----------

  /** The JSON decoder: an arbitrary function from a frame to a message or nothing. */
  type Decoder = Bytes -> Option<Message>

  function OnFrame(decode: Decoder, s: State, client: bool, frame: Bytes): State {
    if !Valid(frame) || decode(frame).None? then Flag(s) else OnMessage(s, client, decode(frame).value)
  }

  function Stream(s: State, client: bool): FrameStream {
    if client then s.clientStream else s.agentStream
  }

  function SetStream(s: State, client: bool, stream: FrameStream): State {
    if client then s.(clientStream := stream) else s.(agentStream := stream)
  }

  const NEWLINE: byte := 0x0A

  /** The observer's reaction to one received byte. */
  function OnByte(decode: Decoder, s: State, client: bool, b: byte): State {
    var stream := Stream(s, client);
    if s.snapshot.final then s
    else if b == NEWLINE then
      var s' := if stream.skipping || Blank(stream.bytes) then s else OnFrame(decode, s, client, stream.bytes);
      SetStream(s', client, EMPTY_STREAM)
    else if stream.skipping then s
    else if |stream.bytes| + 1 > MAX_FRAME_BYTES then SetStream(Flag(s), client, FrameStream([], true))
    else SetStream(s, client, FrameStream(stream.bytes + [b], false))
  }

  function Interrupt(prompts: seq<Prompt>): (r: seq<Prompt>)
    ensures |r| == |prompts|
    ensures forall i | 0 <= i < |prompts| ::
      r[i] == if prompts[i].state == Pending then prompts[i].(state := Interrupted) else prompts[i]
  {
    if prompts == [] then []
    else
      var last := prompts[|prompts| - 1];
      Interrupt(prompts[..|prompts| - 1]) + [if last.state == Pending then last.(state := Interrupted) else last]
  }

  /** Whether ending the run now would leave something unobserved. */
  predicate Unfinished(s: State) {
    || s.pending != map[]
    || s.clientStream != EMPTY_STREAM || s.agentStream != EMPTY_STREAM
    || exists i | 0 <= i < |s.snapshot.prompts| :: s.snapshot.prompts[i].state == Pending
  }

  function Finished(s: State, exitCode: int64, incomplete: bool): State {
    if s.snapshot.final then s
    else
      var sn := s.snapshot;
      s.(clientStream := s.clientStream.(bytes := []), agentStream := s.agentStream.(bytes := []),
         pending := map[], active := map[],
         snapshot := sn.(
           prompts := Interrupt(sn.prompts), exitCode := Some(exitCode), final := true,
           incomplete := sn.incomplete || incomplete || Unfinished(s), revision := sn.revision + 1))
  }
}
