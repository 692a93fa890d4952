/** The ACP observer itself: fields updated in place, each operation proved against the functions on State. */
module AcpObserver {
  import opened Wrappers
  import opened Utf8
  import opened AcpSnapshot
  import opened AcpMessages
  import opened AcpInvariant
  import opened AcpFraming
  import opened AcpRuns

  /** A part without newline is buffered, or turns its line into a skipped one. */
  function Buffered(s: State, client: bool, part: Bytes): State {
    var stream := Stream(s, client);
    if stream.skipping then s
    else if |stream.bytes| + |part| > MAX_FRAME_BYTES then SetStream(Flag(s), client, FrameStream([], true))
    else SetStream(s, client, FrameStream(stream.bytes + part, false))
  }

  lemma BufferedByte(decode: Decoder, s: State, client: bool, part: Bytes, b: byte)
    requires b != NEWLINE && !s.snapshot.final
    ensures OnByte(decode, Buffered(s, client, part), client, b) == Buffered(s, client, part + [b])
  {
    hide OnFrame, Blank;
    assert Stream(s, client).bytes + (part + [b]) == Stream(s, client).bytes + part + [b];
  }

  lemma BufferedNothing(s: State, client: bool)
    requires StreamInv(Stream(s, client))
    ensures Buffered(s, client, []) == s
  {
  }

  lemma {:induction false} WireBuffers(decode: Decoder, s: State, client: bool, part: Bytes)
    requires NEWLINE !in part && !s.snapshot.final && StreamInv(Stream(s, client))
    ensures OnWire(decode, s, Tagged(client, part)) == Buffered(s, client, part)
  {
    hide OnByte, Buffered, StreamInv;
    if part != [] {
      var n := |part| - 1;
      assert Tagged(client, part)[..n] == Tagged(client, part[..n]);
      WireBuffers(decode, s, client, part[..n]);
      assert part[..n] + [part[n]] == part;
      BufferedByte(decode, s, client, part[..n], part[n]);
    } else {
      BufferedNothing(s, client);
    }
  }

  lemma WireNewline(decode: Decoder, s: State, client: bool)
    ensures OnWire(decode, s, Tagged(client, [NEWLINE])) == OnByte(decode, s, client, NEWLINE)
  {
    hide OnByte;
    assert Tagged(client, [NEWLINE])[..0] == [];
  }

  /** Position of the first newline, as bytes.IndexByte reports it. */
  method IndexNewline(data: Bytes) returns (end: int)
    ensures end == -1 ==> NEWLINE !in data
    ensures end != -1 ==> 0 <= end < |data| && data[end] == NEWLINE && NEWLINE !in data[..end]
  {
    for i := 0 to |data|
      invariant NEWLINE !in data[..i]
    {
      if data[i] == NEWLINE { return i; }
    }
    return -1;
  }

  class Observer {
    const decode: Decoder
    const content: bool
    var clientStream: FrameStream
    var agentStream: FrameStream
    var snapshot: Snapshot
    var pending: map<Bytes, Request>
    var active: map<Bytes, int>
    var textBytes: nat

    ghost function View(): State
      reads this
    {
      State(content, clientStream, agentStream, snapshot, pending, active, textBytes)
    }

    constructor (decode: Decoder, content: bool)
      ensures View() == Initial(content) && this.decode == decode
      ensures Inv(View())
    {
      this.decode := decode;
      this.content := content;
      clientStream, agentStream := EMPTY_STREAM, EMPTY_STREAM;
      snapshot := Snapshot(1, 0, Agent([], []), false, [], [], false, false, None);
      pending, active := map[], map[];
      textBytes := 0;
      new;
      InitialInv(content);
    }

    method MarkIncomplete()
      modifies this`snapshot
      ensures View() == Flag(old(View()))
    {
      snapshot := snapshot.(incomplete := true, revision := snapshot.revision + 1);
    }

    /** Keeps what the text budget allows and notes when that is not everything. */
    method RetainText(text: Text) returns (kept: Text)
      requires textBytes <= MAX_TEXT_BYTES
      modifies this`textBytes, this`snapshot
      ensures var k := Retain(text, old(textBytes));
        kept == k.text && textBytes == k.total <= MAX_TEXT_BYTES &&
        snapshot == old(snapshot).(incomplete := old(snapshot).incomplete || k.lost)
    {
      kept := Truncate(text, MAX_TEXT_BYTES - textBytes);
      if |kept| != |text| {
        snapshot := snapshot.(incomplete := true);
      }
      textBytes := textBytes + |kept|;
    }

    method RetainPrompt(blocks: seq<Block>) returns (text: Text)
      requires textBytes <= MAX_TEXT_BYTES
      modifies this`textBytes, this`snapshot
      ensures var k := RetainBlocks(blocks, old(textBytes));
        text == k.text && textBytes == k.total &&
        snapshot == old(snapshot).(incomplete := old(snapshot).incomplete || k.lost)
    {
      text := [];
      for i := 0 to |blocks|
        invariant var k := RetainBlocks(blocks[..i], old(textBytes));
          text == k.text && textBytes == k.total <= MAX_TEXT_BYTES &&
          snapshot == old(snapshot).(incomplete := old(snapshot).incomplete || k.lost)
      {
        assert blocks[..i + 1][..i] == blocks[..i];
        if blocks[i].isText {
          var kept := RetainText(blocks[i].text);
          ValidConcat(text, kept);
          text := text + kept;
        }
      }
      assert blocks[..|blocks|] == blocks;
    }

    method OpenPrompt(m: Message)
      requires m.params.Some? && textBytes <= MAX_TEXT_BYTES
      modifies this
      ensures View() == AcpMessages.OpenPrompt(old(View()), m)
    {
      hide RetainBlocks;
      var session, index := m.params.value.sessionId, |snapshot.prompts|;
      var text := [];
      if content {
        text := RetainPrompt(m.params.value.blocks);
      }
      var overlaps := session in active;
      snapshot := snapshot.(
        prompts := snapshot.prompts + [Prompt(index + 1, session, Pending, NoReason, text, [], 0)],
        incomplete := snapshot.incomplete || overlaps,
        revision := snapshot.revision + 1);
      active := active[session := if overlaps then -1 else index];
      pending := pending[m.id := Request(SessionPrompt, session, m.params.value.cwd, index)];
    }

    method OnClientRequest(m: Message)
      requires Tracked(m.rpc) && textBytes <= MAX_TEXT_BYTES
      modifies this
      ensures View() == OnRequest(old(View()), m)
    {
      hide AcpMessages.OpenPrompt;
      if m.id == [] || |pending| >= MAX_PROMPTS || m.id in pending {
        MarkIncomplete();
      } else if m.rpc == Authenticate {
        pending := pending[m.id := Request(Authenticate, [], [], -1)];
      } else if OversizedParams(m) {
        MarkIncomplete();
      } else if m.rpc == SessionPrompt {
        var found := FindSession(snapshot.sessions, m.params.value.sessionId);
        if !found || |snapshot.prompts| >= MAX_PROMPTS {
          MarkIncomplete();
        } else {
          OpenPrompt(m);
        }
      } else {
        pending := pending[m.id := Request(m.rpc, m.params.value.sessionId, m.params.value.cwd, -1)];
        snapshot := snapshot.(revision := snapshot.revision + 1);
      }
    }

    method AddSession(request: Request, result: ResultFields)
      requires OpensSession(request.rpc)
      modifies this`snapshot
      ensures View() == OpenSession(old(View()), request, result)
    {
      var id := result.sessionId;
      if id == [] && (request.rpc == SessionLoad || request.rpc == SessionResume) {
        id := request.session;
      }
      if id == [] || |id| > MAX_SESSION_ID {
        snapshot := snapshot.(incomplete := true);
        return;
      }
      var found := FindSession(snapshot.sessions, id);
      if found { return; }
      if |snapshot.sessions| >= MAX_SESSIONS {
        snapshot := snapshot.(incomplete := true);
        return;
      }
      snapshot := snapshot.(
        sessions := snapshot.sessions + [Session(id, request.cwd, OperationOf(request.rpc))]);
    }

    /** The prompt index of a request is always in range. */
    method SettlePrompt(request: Request, m: Message)
      requires 0 <= request.prompt < |snapshot.prompts|
      modifies this`snapshot, this`active
      ensures View() == ClosePrompt(old(View()), request, m)
    {
      var prompt := snapshot.prompts[request.prompt];
      active := active - {request.session};
      if FailedReply(m) {
        prompt := prompt.(state := Failed);
      } else {
        prompt := prompt.(state := Completed);
        snapshot := snapshot.(needsAuthentication := false);
        match m.result.value.stopReason
        case EndTurn => prompt := prompt.(stopReason := EndTurn);
        case MaxTokens => prompt := prompt.(stopReason := MaxTokens);
        case MaxTurnRequests => prompt := prompt.(stopReason := MaxTurnRequests);
        case Refusal => prompt := prompt.(stopReason := Refusal);
        case StopCancelled => prompt := prompt.(state := Cancelled, stopReason := StopCancelled);
        case _ => prompt := prompt.(stopReason := OtherReason);
      }
      snapshot := snapshot.(prompts := snapshot.prompts[request.prompt := prompt]);
    }

    method SettleRequest(request: Request, m: Message)
      requires request.rpc == SessionPrompt ==> 0 <= request.prompt < |snapshot.prompts|
      modifies this`snapshot, this`active
      ensures View() == Settle(old(View()), request, m)
    {
      hide ClosePrompt, OpenSession, Bounded;
      if request.rpc == SessionPrompt {
        SettlePrompt(request, m);
      } else if FailedReply(m) {
      } else if request.rpc == Authenticate {
        snapshot := snapshot.(needsAuthentication := false);
      } else if request.rpc == Initialize {
        var name := Truncate(m.result.value.agentName, MAX_AGENT_NAME);
        var version := Truncate(m.result.value.agentVersion, MAX_AGENT_VERSION);
        snapshot := snapshot.(protocolVersion := m.result.value.protocolVersion, agent := Agent(name, version));
      } else if OpensSession(request.rpc) {
        AddSession(request, m.result.value);
      }
    }

    method CloseRequest(m: Message)
      modifies this`snapshot, this`pending
      ensures View() == Answer(old(View()), m)
    {
      pending := pending - {m.id};
      snapshot := snapshot.(revision := snapshot.revision + 1);
      if m.error == Error(Some(-32000)) {
        snapshot := snapshot.(needsAuthentication := true);
      }
      if m.error.NoError? && m.result.None? {
        snapshot := snapshot.(incomplete := true);
      }
    }

    method OnAgentResponse(m: Message)
      requires Coupled(pending, active, snapshot.prompts)
      modifies this
      ensures View() == OnResponse(old(View()), m)
    {
      if m.id !in pending { return; }
      var request := pending[m.id];
      assert request.rpc == SessionPrompt ==> 0 <= request.prompt < |snapshot.prompts| by {
        assert RequestInv(snapshot.prompts, request);
      }
      hide Coupled, Settle, RequestInv;
      CloseRequest(m);
      SettleRequest(request, m);
    }

    method OnSessionUpdate(m: Message)
      requires Coupled(pending, active, snapshot.prompts) && textBytes <= MAX_TEXT_BYTES
      modifies this
      ensures View() == OnUpdate(old(View()), m)
    {
      hide Retain, Requests, Injective, Covered;
      if m.update.None? {
        MarkIncomplete();
        return;
      }
      var update := m.update.value;
      if update.sessionId !in active || active[update.sessionId] < 0 { return; }
      var index := active[update.sessionId];
      assert PendingAt(snapshot.prompts, index, update.sessionId);
      var prompt := snapshot.prompts[index];
      match update.kind
      case AgentMessageChunk =>
        if content && update.isText {
          var kept := RetainText(update.text);
          prompt := prompt.(agentText := prompt.agentText + kept);
          snapshot := snapshot.(prompts := snapshot.prompts[index := prompt], revision := snapshot.revision + 1);
        }
      case ToolCall =>
        prompt := prompt.(toolCalls := prompt.toolCalls + 1);
        snapshot := snapshot.(prompts := snapshot.prompts[index := prompt], revision := snapshot.revision + 1);
      case OtherUpdate =>
    }

    method OnAuthStatus(m: Message)
      modifies this`snapshot
      ensures View() == AuthStatus(old(View()), m)
    {
      if m.authStatusNone {
        snapshot := snapshot.(needsAuthentication := true, revision := snapshot.revision + 1);
      }
    }

    method OnAgentMessage(m: Message)
      requires Coupled(pending, active, snapshot.prompts) && textBytes <= MAX_TEXT_BYTES
      modifies this
      ensures View() == OnMessage(old(View()), false, m)
    {
      hide Coupled, OnRequest, OnResponse, OnUpdate, AuthStatus;
      match m.rpc
      case NoMethod => OnAgentResponse(m);
      case AuthStatusUpdate => OnAuthStatus(m);
      case SessionUpdate => OnSessionUpdate(m);
      case _ =>
    }

    method OnClientMessage(m: Message)
      requires textBytes <= MAX_TEXT_BYTES
      modifies this
      ensures View() == OnMessage(old(View()), true, m)
    {
      hide OnRequest, Tracked;
      if Tracked(m.rpc) { OnClientRequest(m); }
    }

    method Frame(client: bool, frame: Bytes)
      requires Inv(View())
      modifies this
      ensures View() == OnFrame(decode, old(View()), client, frame)
    {
      assert textBytes <= MAX_TEXT_BYTES && Coupled(pending, active, snapshot.prompts);
      hide Inv, Coupled, OnMessage, Valid;
      var message := decode(frame);
      if !Valid(frame) || message.None? {
        MarkIncomplete();
      } else if client {
        OnClientMessage(message.value);
      } else {
        OnAgentMessage(message.value);
      }
    }

    /** Appends a newline-free part to the unfinished line of one side. */
    method Buffer(client: bool, part: Bytes)
      modifies this
      ensures View() == Buffered(old(View()), client, part)
    {
      var stream := if client then clientStream else agentStream;
      if stream.skipping { return; }
      if |stream.bytes| + |part| > MAX_FRAME_BYTES {
        stream := FrameStream([], true);
        snapshot := snapshot.(incomplete := true, revision := snapshot.revision + 1);
      } else {
        stream := FrameStream(stream.bytes + part, false);
      }
      if client { clientStream := stream; } else { agentStream := stream; }
    }

    /** Ends the line of one side. */
    method EndLine(client: bool)
      requires Inv(View()) && !snapshot.final
      modifies this
      ensures View() == OnByte(decode, old(View()), client, NEWLINE)
    {
      hide Inv, Blank, OnFrame;
      var stream := if client then clientStream else agentStream;
      if !stream.skipping && !Blank(stream.bytes) {
        Frame(client, stream.bytes);
      }
      if client { clientStream := EMPTY_STREAM; } else { agentStream := EMPTY_STREAM; }
    }

    /** One round of the feeding loop: the rest up to its first newline, and that newline. */
    method FeedLine(client: bool, rest: Bytes) returns (taken: nat)
      requires Inv(View()) && !snapshot.final && rest != []
      modifies this
      ensures 0 < taken <= |rest|
      ensures View() == Apply(decode, old(View()), Call.Feed(client, rest[..taken]))
      ensures Inv(View()) && !snapshot.final
    {
      hide Inv, Buffered, OnByte, OnWire;
      var end := IndexNewline(rest);
      if end < 0 {
        FeedPart(decode, View(), client, rest);
        Buffer(client, rest);
        assert rest[..|rest|] == rest;
        return |rest|;
      }
      FeedPart(decode, View(), client, rest[..end]);
      assert rest[..end] + [NEWLINE] == rest[..end + 1];
      Buffer(client, rest[..end]);
      EndLine(client);
      return end + 1;
    }

    /** Consumes received bytes of one side: exactly one OnByte step per byte, however they are chunked. */
    method Feed(client: bool, data: Bytes)
      requires Inv(View())
      modifies this
      ensures View() == Apply(decode, old(View()), Call.Feed(client, data))
      ensures Inv(View())
    {
      hide OnWire, Inv, Apply;
      ghost var start := View();
      if snapshot.final {
        FinalIgnoresFeed(decode, start, client, data);
        return;
      }
      var done := 0;
      NothingFed(decode, start, client);
      while done < |data|
        invariant done <= |data| && View() == Apply(decode, start, Call.Feed(client, data[..done]))
        invariant Inv(View()) && !snapshot.final
      {
        var taken := FeedLine(client, data[done..]);
        ChunkingIrrelevant(decode, start, client, data[..done], data[done..][..taken]);
        assert data[..done] + data[done..][..taken] == data[..done + taken];
        done := done + taken;
      }
      assert data[..done] == data;
    }

    /** The trimmed copy that readers get. */
    method Read() returns (result: Snapshot)
      requires Inv(View())
      ensures result == Published(View())
      ensures snapshot.revision <= MAX_INT64 ==> EncodedLength(result) < MAX_SNAPSHOT_BYTES
    {
      assert snapshot.revision <= MAX_INT64 ==> BoundedIdentities(snapshot) by {
        assert forall i | 0 <= i < |snapshot.sessions| :: LegalSession(snapshot.sessions[i]);
      }
      hide Inv, EncodedLength, Trimmed;
      result := Trim(snapshot);
      if snapshot.revision <= MAX_INT64 { TrimmedFits(snapshot); }
    }

    /** Ends the observation; later calls change nothing. */
    method Finish(exitCode: int64, incomplete: bool)
      requires Inv(View())
      modifies this
      ensures View() == Finished(old(View()), exitCode, incomplete)
      ensures Inv(View()) && snapshot.final
    {
      hide Inv, Interrupt;
      ghost var start := View();
      if !snapshot.final {
        var prompts, interrupted := InterruptPrompts(snapshot.prompts);
        var missed := interrupted || pending != map[] || clientStream != EMPTY_STREAM || agentStream != EMPTY_STREAM;
        assert missed <==> Unfinished(start);
        hide Unfinished;
        clientStream, agentStream := clientStream.(bytes := []), agentStream.(bytes := []);
        pending, active := map[], map[];
        Seal(prompts, exitCode, incomplete || missed);
      }
      assert View() == Finished(start, exitCode, incomplete);
      hide Finished;
      FinishKeepsInv(start, exitCode, incomplete);
    }

    method Seal(prompts: seq<Prompt>, exitCode: int64, missed: bool)
      modifies this`snapshot
      ensures snapshot == old(snapshot).(
        prompts := prompts, exitCode := Some(exitCode), final := true,
        incomplete := old(snapshot).incomplete || missed, revision := old(snapshot).revision + 1)
    {
      snapshot := snapshot.(
        prompts := prompts, exitCode := Some(exitCode), final := true,
        incomplete := snapshot.incomplete || missed, revision := snapshot.revision + 1);
    }
  }

  method InterruptPrompts(prompts: seq<Prompt>) returns (r: seq<Prompt>, any: bool)
    ensures r == Interrupt(prompts)
    ensures any <==> exists i | 0 <= i < |prompts| :: prompts[i].state == Pending
  {
    r, any := prompts, false;
    for index := 0 to |prompts|
      invariant |r| == |prompts| && r[index..] == prompts[index..]
      invariant r[..index] == Interrupt(prompts)[..index]
      invariant any <==> exists i | 0 <= i < index :: prompts[i].state == Pending
    {
      assert r[index] == prompts[index];
      if r[index].state == Pending {
        r := r[index := r[index].(state := Interrupted)];
        any := true;
      }
      assert r[..index + 1] == r[..index] + [r[index]];
    }
    assert r == r[..|prompts|];
  }

  lemma FinalIgnoresFeed(decode: Decoder, s: State, client: bool, data: Bytes)
    requires Inv(s) && s.snapshot.final
    ensures Apply(decode, s, Call.Feed(client, data)) == s
  {
    hide Inv, OnWire;
    WireKeeps(decode, s, Tagged(client, data));
  }

  lemma NothingFed(decode: Decoder, s: State, client: bool)
    ensures Apply(decode, s, Call.Feed(client, [])) == s
  {
  }

  /** A newline-free part and the newline that may end it. */
  lemma FeedPart(decode: Decoder, s: State, client: bool, part: Bytes)
    requires Inv(s) && !s.snapshot.final && NEWLINE !in part
    ensures Apply(decode, s, Call.Feed(client, part)) == Buffered(s, client, part)
    ensures Inv(Buffered(s, client, part)) && !Buffered(s, client, part).snapshot.final
    ensures
      var t := Apply(decode, s, Call.Feed(client, part + [NEWLINE]));
      t == OnByte(decode, Buffered(s, client, part), client, NEWLINE) && Inv(t) && !t.snapshot.final
  {
    assert StreamInv(Stream(s, client));
    hide OnWire, OnByte, Inv, Buffered, StreamInv, Evolves, Stream;
    WireBuffers(decode, s, client, part);
    WireNewline(decode, Buffered(s, client, part), client);
    ChunkingIrrelevant(decode, s, client, part, [NEWLINE]);
    WireKeeps(decode, s, Tagged(client, part));
    WireKeeps(decode, s, Tagged(client, part + [NEWLINE]));
  }
}
