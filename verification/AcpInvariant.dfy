/** What every step of the ACP observer keeps, and how two moments of one run relate. */
module AcpInvariant {
  import opened Utf8
  import opened AcpSnapshot
  import opened AcpMessages
  import opened FiniteSets

  // ---------- The invariant ----------

  predicate PromptsInv(sessions: seq<Session>, final: bool, prompts: seq<Prompt>) {
    forall i | 0 <= i < |prompts| :: LegalPrompt(sessions, final, prompts[i]) && prompts[i].sequence == i + 1
  }

  predicate SnapshotInv(s: State) {
    var sn := s.snapshot;
    && 1 <= sn.revision && |sn.sessions| <= MAX_SESSIONS && |sn.prompts| <= MAX_PROMPTS
    && TextValid(sn.agent.name, MAX_AGENT_NAME) && TextValid(sn.agent.version, MAX_AGENT_VERSION)
    && sn.final == sn.exitCode.Some?
    && LegalSessions(sn.sessions)
    && PromptsInv(sn.sessions, sn.final, sn.prompts)
    && TextTotal(sn.prompts) == s.textBytes <= MAX_TEXT_BYTES
    && (!s.content ==> s.textBytes == 0)
  }

  /** An open request is well-formed, and an open session/prompt points at its own pending prompt. */
  predicate RequestInv(prompts: seq<Prompt>, r: Request) {
    && Tracked(r.rpc) && |r.session| <= MAX_SESSION_ID && |r.cwd| <= MAX_CWD
    && (if r.rpc == SessionPrompt then PendingAt(prompts, r.prompt, r.session) else r.prompt == -1)
  }

  predicate PendingAt(prompts: seq<Prompt>, index: int, session: Bytes) {
    0 <= index < |prompts| && prompts[index].state == Pending && prompts[index].sessionId == session
  }

  predicate Awaits(pending: map<Bytes, Request>, id: Bytes, index: int) {
    id in pending && pending[id].rpc == SessionPrompt && pending[id].prompt == index
  }

  predicate Requests(pending: map<Bytes, Request>, prompts: seq<Prompt>) {
    forall id | id in pending :: id != [] && RequestInv(prompts, pending[id])
  }

  ghost predicate Injective(pending: map<Bytes, Request>) {
    forall a, b, i | Awaits(pending, a, i) && Awaits(pending, b, i) :: a == b
  }

  ghost predicate Covered(pending: map<Bytes, Request>, prompts: seq<Prompt>) {
    forall i | 0 <= i < |prompts| && prompts[i].state == Pending :: exists id :: Awaits(pending, id, i)
  }

  predicate ActiveInv(active: map<Bytes, int>, prompts: seq<Prompt>) {
    forall session | session in active :: active[session] == -1 || PendingAt(prompts, active[session], session)
  }

  /** Open prompt requests and pending prompts are in bijection; a usable active entry is a pending prompt
      of its own session. */
  ghost predicate Coupled(pending: map<Bytes, Request>, active: map<Bytes, int>, prompts: seq<Prompt>) {
    && |pending| <= MAX_PROMPTS
    && Requests(pending, prompts) && Injective(pending) && Covered(pending, prompts)
    && ActiveInv(active, prompts)
  }

  predicate StreamInv(stream: FrameStream) {
    && |stream.bytes| <= MAX_FRAME_BYTES
    && (stream.skipping ==> stream.bytes == [])
    && NEWLINE !in stream.bytes
  }

  ghost predicate Inv(s: State) {
    && SnapshotInv(s)
    && Coupled(s.pending, s.active, s.snapshot.prompts)
    && StreamInv(s.clientStream) && StreamInv(s.agentStream)
  }

  lemma {:induction false} InitialInv(content: bool)
    ensures Inv(Initial(content))
  {
  }

  // ---------- Coupling, one table operation at a time ----------

  lemma AddRequest(pending: map<Bytes, Request>, prompts: seq<Prompt>, id: Bytes, r: Request)
    requires Requests(pending, prompts) && Injective(pending) && Covered(pending, prompts)
    requires id != [] && id !in pending && RequestInv(prompts, r) && r.rpc != SessionPrompt
    ensures var pending' := pending[id := r];
      Requests(pending', prompts) && Injective(pending') && Covered(pending', prompts)
  {
    hide RequestInv;
    var pending' := pending[id := r];
    assert forall a, i | Awaits(pending', a, i) :: Awaits(pending, a, i);
    forall i | 0 <= i < |prompts| && prompts[i].state == Pending ensures exists a :: Awaits(pending', a, i) {
      var a :| Awaits(pending, a, i);
      assert Awaits(pending', a, i);
    }
  }

  lemma AddPromptRequest(pending: map<Bytes, Request>, prompts: seq<Prompt>, id: Bytes, r: Request, p: Prompt)
    requires Requests(pending, prompts) && Injective(pending) && Covered(pending, prompts)
    requires id != [] && id !in pending && r.rpc == SessionPrompt && r.prompt == |prompts|
    requires RequestInv(prompts + [p], r)
    ensures var pending' := pending[id := r];
      Requests(pending', prompts + [p]) && Injective(pending') && Covered(pending', prompts + [p])
  {
    var pending', prompts' := pending[id := r], prompts + [p];
    forall a | a in pending' ensures a != [] && RequestInv(prompts', pending'[a]) {
      assert a != id ==> RequestInv(prompts, pending[a]);
    }
    hide Requests;
    forall a, i | Awaits(pending', a, i)
      ensures if a == id then i == |prompts| else Awaits(pending, a, i) && i < |prompts|
    {
      if a != id { assert RequestInv(prompts, pending[a]); }
    }
    forall i | 0 <= i < |prompts'| && prompts'[i].state == Pending ensures exists a :: Awaits(pending', a, i) {
      if i == |prompts| {
        assert Awaits(pending', id, i);
      } else {
        var a :| Awaits(pending, a, i);
        assert Awaits(pending', a, i);
      }
    }
  }

  /** Closing a request; a prompt request closes together with its prompt. */
  lemma RemoveRequest(pending: map<Bytes, Request>, prompts: seq<Prompt>, prompts': seq<Prompt>, id: Bytes)
    requires Requests(pending, prompts) && Injective(pending) && Covered(pending, prompts)
    requires id in pending && |prompts'| == |prompts|
    requires forall i | 0 <= i < |prompts| && !Awaits(pending, id, i) :: prompts'[i] == prompts[i]
    requires forall i | 0 <= i < |prompts| && Awaits(pending, id, i) :: prompts'[i].state != Pending
    ensures var pending' := pending - {id};
      && Requests(pending', prompts') && Injective(pending') && Covered(pending', prompts')
      && |pending'| <= |pending|
  {
    var pending' := pending - {id};
    forall a | a in pending' ensures a != [] && RequestInv(prompts', pending'[a]) {
      assert RequestInv(prompts, pending[a]);
      if pending[a].rpc == SessionPrompt {
        assert Awaits(pending, a, pending[a].prompt);
      }
    }
    hide Requests, RequestInv;
    assert forall a, i | Awaits(pending', a, i) :: Awaits(pending, a, i);
    forall i | 0 <= i < |prompts'| && prompts'[i].state == Pending ensures exists a :: Awaits(pending', a, i) {
      var a :| Awaits(pending, a, i);
      assert Awaits(pending', a, i);
    }
    assert pending'.Keys <= pending.Keys;
    SubsetSize(pending'.Keys, pending.Keys);
  }

  /** Rewriting a prompt without touching its state or session. */
  lemma CoupledRewrite(pending: map<Bytes, Request>, active: map<Bytes, int>, prompts: seq<Prompt>, i: nat, p: Prompt)
    requires Coupled(pending, active, prompts)
    requires i < |prompts| && p.state == prompts[i].state && p.sessionId == prompts[i].sessionId
    ensures Coupled(pending, active, prompts[i := p])
  {
    forall a | a in pending ensures RequestInv(prompts[i := p], pending[a]) {
      assert RequestInv(prompts, pending[a]);
    }
  }

  // ---------- Snapshot parts ----------

  lemma PromptsInvMoreSessions(sessions: seq<Session>, session: Session, prompts: seq<Prompt>)
    requires PromptsInv(sessions, false, prompts)
    ensures PromptsInv(sessions + [session], false, prompts)
  {
    forall i | 0 <= i < |prompts| ensures LegalPrompt(sessions + [session], false, prompts[i]) {
      assert LegalPrompt(sessions, false, prompts[i]);
      var j :| 0 <= j < |sessions| && sessions[j].id == prompts[i].sessionId;
      assert (sessions + [session])[j].id == prompts[i].sessionId;
    }
  }

  // ---------- Messages ----------

  /** What no message changes. */
  predicate SameFrame(s: State, t: State) {
    && t.clientStream == s.clientStream && t.agentStream == s.agentStream
    && t.content == s.content && t.snapshot.final == s.snapshot.final
  }

  lemma OpenPromptSnapshot(s: State, m: Message)
    requires SnapshotInv(s) && !s.snapshot.final && m.params.Some?
    requires HasSession(s.snapshot.sessions, m.params.value.sessionId) && |s.snapshot.prompts| < MAX_PROMPTS
    ensures SnapshotInv(OpenPrompt(s, m)) && SameFrame(s, OpenPrompt(s, m))
  {
    hide LegalSessions;
    var t := OpenPrompt(s, m);
    var p := t.snapshot.prompts[|s.snapshot.prompts|];
    TextTotalAppend(s.snapshot.prompts, p);
    assert LegalPrompt(s.snapshot.sessions, false, p);
  }

  lemma OpenPromptInv(s: State, m: Message)
    requires Inv(s) && !s.snapshot.final
    requires m.rpc == SessionPrompt && !Untrackable(s, m) && !OversizedParams(m)
    requires HasSession(s.snapshot.sessions, m.params.value.sessionId) && |s.snapshot.prompts| < MAX_PROMPTS
    ensures Inv(OpenPrompt(s, m)) && SameFrame(s, OpenPrompt(s, m))
  {
    OpenPromptSnapshot(s, m);
    hide SnapshotInv, RetainBlocks, Requests, Injective, Covered;
    var t := OpenPrompt(s, m);
    AddPromptRequest(s.pending, s.snapshot.prompts, m.id, t.pending[m.id], t.snapshot.prompts[|s.snapshot.prompts|]);
  }

  lemma RequestKeepsInv(s: State, m: Message)
    requires Inv(s) && !s.snapshot.final && Tracked(m.rpc)
    ensures Inv(OnRequest(s, m)) && SameFrame(s, OnRequest(s, m))
  {
    hide Requests, Injective, Covered, OpenPrompt, LegalSessions, PromptsInv, TextTotal, HasSession;
    if !Untrackable(s, m) {
      if m.rpc == Authenticate {
        AddRequest(s.pending, s.snapshot.prompts, m.id, Request(Authenticate, [], [], -1));
      } else if !OversizedParams(m) {
        if m.rpc != SessionPrompt {
          AddRequest(s.pending, s.snapshot.prompts, m.id, OnRequest(s, m).pending[m.id]);
        } else if HasSession(s.snapshot.sessions, m.params.value.sessionId) && |s.snapshot.prompts| < MAX_PROMPTS {
          OpenPromptInv(s, m);
        }
      }
    }
  }

  lemma CloseTables(s: State, m: Message)
    requires m.id in s.pending && s.pending[m.id].rpc == SessionPrompt
    requires 0 <= s.pending[m.id].prompt < |s.snapshot.prompts|
    ensures var r := s.pending[m.id];
      var t := OnResponse(s, m);
      && SameFrame(s, t) && t.textBytes == s.textBytes
      && t.pending == s.pending - {m.id} && t.active == s.active - {r.session}
      && t.snapshot.prompts == s.snapshot.prompts[r.prompt := Settled(s.snapshot.prompts[r.prompt], m)]
      && t.snapshot.sessions == s.snapshot.sessions && t.snapshot.agent == s.snapshot.agent
      && t.snapshot.exitCode == s.snapshot.exitCode && t.snapshot.revision == s.snapshot.revision + 1
  {
    hide Settled;
  }

  lemma SettledFacts(p: Prompt, m: Message)
    ensures var q := Settled(p, m);
      && q.(state := p.state, stopReason := p.stopReason) == p
      && q.state != Pending && !q.state.UnknownState?
      && (!p.stopReason.UnknownReason? ==> !q.stopReason.UnknownReason?)
  {
  }

  lemma PromptsInvUpdate(sessions: seq<Session>, prompts: seq<Prompt>, i: nat, q: Prompt)
    requires PromptsInv(sessions, false, prompts) && i < |prompts|
    requires q.(state := prompts[i].state, stopReason := prompts[i].stopReason) == prompts[i]
    requires !q.state.UnknownState? && (!prompts[i].stopReason.UnknownReason? ==> !q.stopReason.UnknownReason?)
    ensures PromptsInv(sessions, false, prompts[i := q])
  {
    assert LegalPrompt(sessions, false, prompts[i]);
  }

  lemma ActiveInvClose(active: map<Bytes, int>, prompts: seq<Prompt>, i: nat, q: Prompt)
    requires ActiveInv(active, prompts) && i < |prompts|
    ensures ActiveInv(active - {prompts[i].sessionId}, prompts[i := q])
  {
  }

  lemma ClosePromptSnapshot(s: State, m: Message)
    requires SnapshotInv(s) && !s.snapshot.final
    requires m.id in s.pending && s.pending[m.id].rpc == SessionPrompt &&
      0 <= s.pending[m.id].prompt < |s.snapshot.prompts|
    ensures SnapshotInv(OnResponse(s, m))
  {
    hide OnResponse, Settled, PromptsInv, LegalSessions, TextTotal, TextValid;
    var i := s.pending[m.id].prompt;
    var q := Settled(s.snapshot.prompts[i], m);
    CloseTables(s, m);
    SettledFacts(s.snapshot.prompts[i], m);
    TextTotalUpdate(s.snapshot.prompts, i, q);
    PromptsInvUpdate(s.snapshot.sessions, s.snapshot.prompts, i, q);
  }

  lemma ClosePromptCoupled(s: State, m: Message)
    requires Coupled(s.pending, s.active, s.snapshot.prompts)
    requires m.id in s.pending && s.pending[m.id].rpc == SessionPrompt
    ensures PendingAt(s.snapshot.prompts, s.pending[m.id].prompt, s.pending[m.id].session)
    ensures var t := OnResponse(s, m); Coupled(t.pending, t.active, t.snapshot.prompts) && SameFrame(s, t)
  {
    var r := s.pending[m.id];
    assert RequestInv(s.snapshot.prompts, r);
    hide OnResponse, Settled, Requests, Injective, Covered, ActiveInv;
    var q := Settled(s.snapshot.prompts[r.prompt], m);
    CloseTables(s, m);
    SettledFacts(s.snapshot.prompts[r.prompt], m);
    ClosedRequest(s.pending, s.snapshot.prompts, m.id, q);
    ActiveInvClose(s.active, s.snapshot.prompts, r.prompt, q);
  }

  lemma ClosePromptInv(s: State, m: Message)
    requires Inv(s) && !s.snapshot.final
    requires m.id in s.pending && s.pending[m.id].rpc == SessionPrompt
    ensures Inv(OnResponse(s, m)) && SameFrame(s, OnResponse(s, m))
  {
    hide OnResponse, SnapshotInv, Coupled;
    ClosePromptCoupled(s, m);
    ClosePromptSnapshot(s, m);
  }

  lemma ClosedRequest(pending: map<Bytes, Request>, prompts: seq<Prompt>, id: Bytes, q: Prompt)
    requires Requests(pending, prompts) && Injective(pending) && Covered(pending, prompts)
    requires id in pending && pending[id].rpc == SessionPrompt && 0 <= pending[id].prompt < |prompts|
    requires q.state != Pending
    ensures var pending', prompts' := pending - {id}, prompts[pending[id].prompt := q];
      && Requests(pending', prompts') && Injective(pending') && Covered(pending', prompts')
      && |pending'| <= |pending|
  {
    hide Requests, Injective, Covered;
    RemoveRequest(pending, prompts, prompts[pending[id].prompt := q], id);
  }

  lemma AddedSessionLegal(s: State, r: Request, result: ResultFields)
    requires OpensSession(r.rpc) && |r.session| <= MAX_SESSION_ID && |r.cwd| <= MAX_CWD
    ensures var before, after := s.snapshot.sessions, OpenSession(s, r, result).snapshot.sessions;
      || after == before
      || (&& |before| < MAX_SESSIONS && |after| == |before| + 1 && after == before + [after[|before|]]
          && LegalSession(after[|before|]) && !HasSession(before, after[|before|].id))
  {
  }

  lemma OpenSessionSnapshot(s: State, r: Request, result: ResultFields)
    requires SnapshotInv(s) && !s.snapshot.final && OpensSession(r.rpc)
    requires |r.session| <= MAX_SESSION_ID && |r.cwd| <= MAX_CWD
    ensures SnapshotInv(OpenSession(s, r, result)) && SameFrame(s, OpenSession(s, r, result))
  {
    hide TextTotal, PromptsInv, TextValid;
    var before, after := s.snapshot.sessions, OpenSession(s, r, result).snapshot.sessions;
    AddedSessionLegal(s, r, result);
    if after != before {
      var added := after[|before|];
      assert forall i | 0 <= i < |before| :: before[i].id != added.id;
      PromptsInvMoreSessions(before, added, s.snapshot.prompts);
    }
  }

  lemma OpenSessionTables(s: State, r: Request, result: ResultFields)
    requires OpensSession(r.rpc)
    ensures var t := OpenSession(s, r, result);
      t.pending == s.pending && t.active == s.active && t.snapshot.prompts == s.snapshot.prompts
  {
  }

  lemma PlainAnswerInv(s: State, m: Message)
    requires Inv(s) && m.id in s.pending && s.pending[m.id].rpc != SessionPrompt
    ensures Inv(Answer(s, m)) && SameFrame(s, Answer(s, m))
  {
    hide Requests, Injective, Covered, LegalSessions, PromptsInv, TextTotal;
    RemoveRequest(s.pending, s.snapshot.prompts, s.snapshot.prompts, m.id);
  }

  lemma PlainSettleInv(s: State, r: Request, m: Message)
    requires Inv(s) && !s.snapshot.final && RequestInv(s.snapshot.prompts, r) && r.rpc != SessionPrompt
    ensures Inv(Settle(s, r, m)) && SameFrame(s, Settle(s, r, m))
  {
    hide Coupled, LegalSessions, PromptsInv, TextTotal, OpenSession, ClosePrompt;
    if OpensSession(r.rpc) && !FailedReply(m) {
      OpenSessionSnapshot(s, r, m.result.value);
      OpenSessionTables(s, r, m.result.value);
    }
  }

  lemma ResponseKeepsInv(s: State, m: Message)
    requires Inv(s) && !s.snapshot.final
    ensures Inv(OnResponse(s, m)) && SameFrame(s, OnResponse(s, m))
  {
    if m.id in s.pending {
      assert RequestInv(s.snapshot.prompts, s.pending[m.id]);
      hide Inv, Settle, RequestInv;
      if s.pending[m.id].rpc == SessionPrompt {
        ClosePromptInv(s, m);
      } else {
        PlainAnswerInv(s, m);
        PlainSettleInv(Answer(s, m), s.pending[m.id], m);
      }
    }
  }

  lemma UpdateKeepsInv(s: State, m: Message)
    requires Inv(s) && !s.snapshot.final
    ensures Inv(OnUpdate(s, m)) && SameFrame(s, OnUpdate(s, m))
  {
    hide Coupled, LegalSessions, HasSession, TextTotal;
    var t := OnUpdate(s, m);
    if m.update.Some? && t != s {
      var update := m.update.value;
      var i := s.active[update.sessionId];
      var p, q := s.snapshot.prompts[i], t.snapshot.prompts[i];
      assert t.snapshot.prompts == s.snapshot.prompts[i := q];
      CoupledRewrite(s.pending, s.active, s.snapshot.prompts, i, q);
      TextTotalUpdate(s.snapshot.prompts, i, q);
      TextTotalMember(t.snapshot.prompts, i);
      assert LegalPrompt(s.snapshot.sessions, false, p);
      if update.kind == AgentMessageChunk {
        ValidConcat(p.agentText, Retain(update.text, s.textBytes).text);
      }
    }
  }

  lemma MessageKeepsInv(s: State, client: bool, m: Message)
    requires Inv(s) && !s.snapshot.final
    ensures Inv(OnMessage(s, client, m)) && SameFrame(s, OnMessage(s, client, m))
  {
    hide OnRequest, OnResponse, OnUpdate, Coupled, LegalSessions, PromptsInv, TextTotal;
    if client {
      if Tracked(m.rpc) { RequestKeepsInv(s, m); }
    } else if m.rpc == NoMethod {
      ResponseKeepsInv(s, m);
    } else if m.rpc == SessionUpdate {
      UpdateKeepsInv(s, m);
    }
  }

  lemma FlagKeepsInv(s: State)
    requires Inv(s)
    ensures Inv(Flag(s)) && SameFrame(s, Flag(s))
  {
    hide Coupled, LegalSessions, PromptsInv, TextTotal;
  }

  lemma FrameKeepsInv(decode: Decoder, s: State, client: bool, frame: Bytes)
    requires Inv(s) && !s.snapshot.final
    ensures Inv(OnFrame(decode, s, client, frame)) && SameFrame(s, OnFrame(decode, s, client, frame))
  {
    hide Inv, OnMessage, SameFrame;
    FlagKeepsInv(s);
    if Valid(frame) && decode(frame).Some? {
      MessageKeepsInv(s, client, decode(frame).value);
    }
  }

  lemma SetStreamKeepsInv(s: State, client: bool, stream: FrameStream)
    requires Inv(s) && StreamInv(stream)
    ensures Inv(SetStream(s, client, stream))
  {
    hide Coupled, LegalSessions, PromptsInv, TextTotal;
  }

  lemma ByteKeepsInv(decode: Decoder, s: State, client: bool, b: byte)
    requires Inv(s)
    ensures Inv(OnByte(decode, s, client, b))
  {
    var stream := Stream(s, client);
    assert StreamInv(stream);
    hide Inv, OnFrame, Blank;
    if !s.snapshot.final {
      FrameKeepsInv(decode, s, client, stream.bytes);
      FlagKeepsInv(s);
      SetStreamKeepsInv(OnFrame(decode, s, client, stream.bytes), client, EMPTY_STREAM);
      SetStreamKeepsInv(s, client, EMPTY_STREAM);
      SetStreamKeepsInv(Flag(s), client, FrameStream([], true));
      if b != NEWLINE && |stream.bytes| < MAX_FRAME_BYTES && !stream.skipping {
        SetStreamKeepsInv(s, client, FrameStream(stream.bytes + [b], false));
      }
    }
  }

  lemma InterruptKeepsPrompts(sessions: seq<Session>, prompts: seq<Prompt>)
    requires PromptsInv(sessions, false, prompts)
    ensures PromptsInv(sessions, true, Interrupt(prompts))
  {
    hide HasSession, TextValid;
    var after := Interrupt(prompts);
    forall i | 0 <= i < |after| ensures LegalPrompt(sessions, true, after[i]) && after[i].sequence == i + 1 {
      assert LegalPrompt(sessions, false, prompts[i]);
    }
  }

  /** Once nothing is pending, empty tables are coupled. */
  lemma InterruptedCoupled(prompts: seq<Prompt>)
    ensures Coupled(map[], map[], Interrupt(prompts))
  {
  }

  lemma FinishKeepsInv(s: State, exitCode: int64, incomplete: bool)
    requires Inv(s)
    ensures Inv(Finished(s, exitCode, incomplete))
    ensures Finished(s, exitCode, incomplete).snapshot.final
  {
    hide PromptsInv, LegalSessions, TextValid, TextTotal, Coupled, Interrupt, Unfinished;
    if !s.snapshot.final {
      InterruptKeepsText(s.snapshot.prompts);
      InterruptKeepsPrompts(s.snapshot.sessions, s.snapshot.prompts);
      InterruptedCoupled(s.snapshot.prompts);
    }
  }

  lemma {:induction false} InterruptKeepsText(prompts: seq<Prompt>)
    ensures TextTotal(Interrupt(prompts)) == TextTotal(prompts)
  {
    if prompts != [] {
      var n := |prompts| - 1;
      InterruptKeepsText(prompts[..n]);
      assert Interrupt(prompts)[..n] == Interrupt(prompts[..n]);
    }
  }

  /** The snapshot is legal exactly when the run was short enough and ended with an 8-bit exit code. */
  lemma InvLegal(s: State)
    requires Inv(s)
    ensures Legal(s.snapshot, s.content) <==>
            s.snapshot.revision <= MAX_INT64 && (s.snapshot.final ==> 0 <= s.snapshot.exitCode.value <= 255)
  {
  }

  // ---------- Two moments of a run ----------

  /** A prompt only grows while it is pending and is frozen from the moment it leaves that state. */
  predicate PromptEvolves(p: Prompt, q: Prompt) {
    && q.sequence == p.sequence && q.sessionId == p.sessionId && q.userText == p.userText
    && p.agentText <= q.agentText && p.toolCalls <= q.toolCalls
    && (p.state != Pending ==> q == p)
    && (q.state == Pending ==> q.stopReason == p.stopReason)
  }

  predicate PromptsEvolve(ps: seq<Prompt>, qs: seq<Prompt>) {
    |ps| <= |qs| && forall i | 0 <= i < |ps| :: PromptEvolves(ps[i], qs[i])
  }

  lemma RewriteEvolves(ps: seq<Prompt>, i: nat, q: Prompt)
    requires i < |ps| && PromptEvolves(ps[i], q)
    ensures PromptsEvolve(ps, ps[i := q])
  {
  }

  lemma AppendEvolves(ps: seq<Prompt>, q: Prompt)
    ensures PromptsEvolve(ps, ps) && PromptsEvolve(ps, ps + [q])
  {
  }

  /** How a later moment t of a run relates to an earlier one s. */
  predicate Evolves(s: State, t: State) {
    && s.content == t.content
    && s.snapshot.revision <= t.snapshot.revision
    && (s.snapshot.revision == t.snapshot.revision ==> s.snapshot == t.snapshot)
    && (s.snapshot.incomplete ==> t.snapshot.incomplete)
    && s.snapshot.sessions <= t.snapshot.sessions
    && PromptsEvolve(s.snapshot.prompts, t.snapshot.prompts)
    && (s.snapshot.final ==> t == s)
  }

  lemma EvolvesTransitive(s: State, t: State, u: State)
    requires Evolves(s, t) && Evolves(t, u)
    ensures Evolves(s, u)
  {
    forall i | 0 <= i < |s.snapshot.prompts|
      ensures PromptEvolves(s.snapshot.prompts[i], u.snapshot.prompts[i])
    {
      assert PromptEvolves(s.snapshot.prompts[i], t.snapshot.prompts[i]);
      assert PromptEvolves(t.snapshot.prompts[i], u.snapshot.prompts[i]);
    }
  }

  /** What settling a request does beyond closing it. */
  predicate Grows(s: State, t: State) {
    && s.content == t.content && s.snapshot.revision == t.snapshot.revision && s.snapshot.final == t.snapshot.final
    && (s.snapshot.incomplete ==> t.snapshot.incomplete)
    && s.snapshot.sessions <= t.snapshot.sessions
    && PromptsEvolve(s.snapshot.prompts, t.snapshot.prompts)
  }

  lemma ClosePromptGrows(s: State, r: Request, m: Message)
    requires PendingAt(s.snapshot.prompts, r.prompt, r.session)
    ensures Grows(s, ClosePrompt(s, r, m))
  {
    hide PromptsEvolve, Settled;
    var p := s.snapshot.prompts[r.prompt];
    SettledFacts(p, m);
    RewriteEvolves(s.snapshot.prompts, r.prompt, Settled(p, m));
  }

  lemma OpenSessionGrows(s: State, r: Request, result: ResultFields)
    requires OpensSession(r.rpc)
    ensures Grows(s, OpenSession(s, r, result))
  {
    hide PromptsEvolve, HasSession, OperationOf;
    AppendEvolves(s.snapshot.prompts, Prompt(0, [], Pending, NoReason, [], [], 0));
  }

  lemma SettleGrows(s: State, r: Request, m: Message)
    requires r.rpc == SessionPrompt ==> PendingAt(s.snapshot.prompts, r.prompt, r.session)
    ensures Grows(s, Settle(s, r, m))
  {
    hide PromptsEvolve, Bounded, ClosePrompt, OpenSession;
    AppendEvolves(s.snapshot.prompts, Prompt(0, [], Pending, NoReason, [], [], 0));
    if r.rpc == SessionPrompt {
      ClosePromptGrows(s, r, m);
    } else if OpensSession(r.rpc) && !FailedReply(m) {
      OpenSessionGrows(s, r, m.result.value);
    }
  }

  lemma ResponseEvolves(s: State, m: Message)
    requires Inv(s) && !s.snapshot.final
    ensures Evolves(s, OnResponse(s, m))
  {
    if m.id in s.pending {
      assert RequestInv(s.snapshot.prompts, s.pending[m.id]);
      hide Inv, Settle;
      SettleGrows(Answer(s, m), s.pending[m.id], m);
    }
  }

  lemma HeardEvolves(ps: seq<Prompt>, i: nat, text: Bytes)
    requires i < |ps| && ps[i].state == Pending
    ensures PromptsEvolve(ps, ps[i := Chunked(ps[i], text)]) && PromptsEvolve(ps, ps[i := Called(ps[i])])
  {
    RewriteEvolves(ps, i, Chunked(ps[i], text));
    RewriteEvolves(ps, i, Called(ps[i]));
  }

  lemma UpdateEvolves(s: State, m: Message)
    requires ActiveInv(s.active, s.snapshot.prompts) && !s.snapshot.final
    ensures Evolves(s, OnUpdate(s, m))
  {
    hide Retain, PromptsEvolve, Chunked, Called;
    var ps := s.snapshot.prompts;
    AppendEvolves(ps, Prompt(0, [], Pending, NoReason, [], [], 0));
    if m.update.Some? && m.update.value.sessionId in s.active && s.active[m.update.value.sessionId] >= 0 {
      HeardEvolves(ps, s.active[m.update.value.sessionId], Retain(m.update.value.text, s.textBytes).text);
    }
  }

  lemma OpenPromptEvolves(s: State, m: Message)
    requires m.params.Some? && !s.snapshot.final
    ensures Evolves(s, OpenPrompt(s, m))
  {
    hide RetainBlocks, PromptsEvolve;
    var ps, t := s.snapshot.prompts, OpenPrompt(s, m);
    AppendEvolves(ps, t.snapshot.prompts[|ps|]);
  }

  lemma FlagEvolves(s: State)
    requires !s.snapshot.final
    ensures Evolves(s, Flag(s)) && Evolves(s, Publish(s))
  {
    hide PromptsEvolve;
    AppendEvolves(s.snapshot.prompts, Prompt(0, [], Pending, NoReason, [], [], 0));
  }

  /** Evolution does not look at the tables. */
  lemma TablesEvolve(s: State, t: State, pending: map<Bytes, Request>)
    requires Evolves(s, t) && !s.snapshot.final
    ensures Evolves(s, t.(pending := pending))
  {
    hide PromptsEvolve;
  }

  lemma RequestEvolves(s: State, m: Message)
    requires Tracked(m.rpc) && !s.snapshot.final
    ensures Evolves(s, OnRequest(s, m))
  {
    hide HasSession, PromptsEvolve, OpenPrompt, Evolves, Untrackable;
    FlagEvolves(s);
    var t := OnRequest(s, m);
    if !Untrackable(s, m) {
      if m.rpc == Authenticate {
        SameEvolves(s);
        TablesEvolve(s, s, t.pending);
      } else if OversizedParams(m) {
      } else if m.rpc != SessionPrompt {
        TablesEvolve(s, Publish(s), t.pending);
      } else if HasSession(s.snapshot.sessions, m.params.value.sessionId) && |s.snapshot.prompts| < MAX_PROMPTS {
        OpenPromptEvolves(s, m);
      }
    }
  }

  lemma SameEvolves(s: State)
    ensures Evolves(s, s)
  {
  }

  lemma MessageEvolves(s: State, client: bool, m: Message)
    requires Inv(s) && !s.snapshot.final
    ensures Evolves(s, OnMessage(s, client, m))
  {
    assert ActiveInv(s.active, s.snapshot.prompts);
    hide OnRequest, OnResponse, OnUpdate, Inv, ActiveInv, PromptsEvolve;
    AppendEvolves(s.snapshot.prompts, Prompt(0, [], Pending, NoReason, [], [], 0));
    if client {
      if Tracked(m.rpc) { RequestEvolves(s, m); }
    } else if m.rpc == NoMethod {
      ResponseEvolves(s, m);
    } else if m.rpc == SessionUpdate {
      UpdateEvolves(s, m);
    }
  }

  lemma ByteEvolves(decode: Decoder, s: State, client: bool, b: byte)
    requires Inv(s)
    ensures Evolves(s, OnByte(decode, s, client, b))
  {
    var frame := Stream(s, client).bytes;
    hide Inv, OnMessage, Blank, Valid, PromptsEvolve;
    AppendEvolves(s.snapshot.prompts, Prompt(0, [], Pending, NoReason, [], [], 0));
    if !s.snapshot.final && Valid(frame) && decode(frame).Some? {
      MessageEvolves(s, client, decode(frame).value);
    }
  }

  lemma FinishEvolves(s: State, exitCode: int64, incomplete: bool)
    ensures Evolves(s, Finished(s, exitCode, incomplete))
  {
  }
}
