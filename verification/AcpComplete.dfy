/** When an observation is complete, and what it then says: both in terms of the message history alone. */
module AcpComplete {
  import opened Wrappers
  import opened Utf8
  import opened AcpSnapshot
  import opened AcpMessages
  import opened AcpInvariant
  import opened AcpExact

  // ---------- What a history says, without reference to the observer ----------

  predicate Succeeds(reply: Message) {
    reply.error.NoError? && reply.result.Some?
  }

  /** The session that a successful reply to a session request opens. */
  function OpenedId(request: Message, result: ResultFields): Bytes
    requires request.params.Some?
  {
    if result.sessionId == [] && (request.rpc.SessionLoad? || request.rpc.SessionResume?)
    then request.params.value.sessionId else result.sessionId
  }

  predicate Opens(request: Message, reply: Message) {
    OpensSession(request.rpc) && request.params.Some? && Succeeds(reply)
  }

  function WithSession(sessions: seq<Session>, request: Message, reply: Message): seq<Session> {
    if Opens(request, reply) && !HasSession(sessions, OpenedId(request, reply.result.value))
    then sessions + [Session(OpenedId(request, reply.result.value), request.params.value.cwd, OperationOf(request.rpc))]
    else sessions
  }

  /** The sessions that a history opened: successful replies in order, the first for each id. */
  function SessionsOf(h: History): seq<Session> {
    if h == [] then []
    else
      var before, e := h[..|h| - 1], h[|h| - 1];
      if Replies(e) && e.m.id in OpenTable(before)
        then WithSession(SessionsOf(before), before[OpenTable(before)[e.m.id]].m, e.m)
      else SessionsOf(before)
  }

  predicate PromptOf(e: Event, session: Bytes) {
    IsPrompt(e) && e.m.params.Some? && e.m.params.value.sessionId == session
  }

  /** A prompt of the session awaits its reply. */
  predicate Busy(h: History, session: Bytes) {
    exists id | id in OpenTable(h) :: PromptOf(h[OpenTable(h)[id]], session)
  }

  predicate IsUpdate(e: Event) {
    !e.client && e.m.rpc == SessionUpdate
  }

  /** Text that one more event adds to the projection. */
  function EventText(h: History, e: Event): nat {
    if IsPrompt(e) && e.m.params.Some? then |BlocksText(e.m.params.value.blocks)|
    else if IsUpdate(e) && e.m.update.Some? && Busy(h, e.m.update.value.sessionId)
      then |ChunkOf(e, e.m.update.value.sessionId)|
    else 0
  }

  /** All user text and heard agent text of a history. */
  function TextHeard(h: History): nat {
    if h == [] then 0 else TextHeard(h[..|h| - 1]) + EventText(h[..|h| - 1], h[|h| - 1])
  }

  predicate SpokenText(u: UpdateParams) {
    u.kind == AgentMessageChunk && u.isText
  }

  /** What a projection says besides its sessions and prompts. */
  datatype Standing = Standing(revision: nat, protocolVersion: uint32, agent: Agent, needsAuthentication: bool)

  const NEW_STANDING := Standing(1, 0, Agent([], []), false)

  /** A reply publishes; a successful initialize introduces the agent; success of a login or a prompt ends the need to
      authenticate, and the error for it starts one. */
  function AfterReply(st: Standing, request: Message, reply: Message): Standing {
    var greets := Succeeds(reply) && request.rpc == Initialize;
    Standing(
      st.revision + 1,
      if greets then reply.result.value.protocolVersion else st.protocolVersion,
      if greets then
        Agent(Bounded(reply.result.value.agentName, 256),
          Bounded(reply.result.value.agentVersion, 128))
      else st.agent,
      if Succeeds(reply) && (request.rpc == SessionPrompt || request.rpc == Authenticate) then false
      else st.needsAuthentication || reply.error == Error(Some(-32000)))
  }

  /** An update publishes when a prompt hears a tool call or, with content on, a text. */
  predicate HeardUpdate(content: bool, h: History, m: Message) {
    && m.update.Some? && Busy(h, m.update.value.sessionId)
    && (m.update.value.kind == ToolCall || (content && SpokenText(m.update.value)))
  }

  predicate AsksForLogin(e: Event) {
    !e.client && e.m.rpc == AuthStatusUpdate && e.m.authStatusNone
  }

  function NextStanding(content: bool, st: Standing, h: History, e: Event): Standing {
    if IsTracked(e) then (if e.m.rpc == Authenticate then st else st.(revision := st.revision + 1))
    else if Replies(e) then
      (if e.m.id in OpenTable(h) then AfterReply(st, h[OpenTable(h)[e.m.id]].m, e.m) else st)
    else if IsUpdate(e) then (if HeardUpdate(content, h, e.m) then st.(revision := st.revision + 1) else st)
    else if AsksForLogin(e) then st.(revision := st.revision + 1, needsAuthentication := true)
    else st
  }

  function StandingOf(content: bool, h: History): Standing {
    if h == [] then NEW_STANDING
    else NextStanding(content, StandingOf(content, h[..|h| - 1]), h[..|h| - 1], h[|h| - 1])
  }

  function Shown(sn: Snapshot): Standing {
    Standing(sn.revision, sn.protocolVersion, sn.agent, sn.needsAuthentication)
  }

  // ---------- What can be followed ----------

  predicate PromptFits(content: bool, h: History, m: Message)
    requires m.params.Some?
  {
    var session := m.params.value.sessionId;
    && HasSession(SessionsOf(h), session) && |PromptIndices(h)| < MAX_PROMPTS && !Busy(h, session)
    && (content ==> TextHeard(h) + |BlocksText(m.params.value.blocks)| <= MAX_TEXT_BYTES)
  }

  /** A request with an id of its own, of admissible size, within the number of open requests; a prompt of a known
      session that awaits no other reply. */
  predicate RequestFits(content: bool, h: History, m: Message) {
    && m.id != [] && |OpenTable(h)| < MAX_PROMPTS && m.id !in OpenTable(h)
    && (m.rpc == Authenticate || (!OversizedParams(m) && (m.rpc == SessionPrompt ==> PromptFits(content, h, m))))
  }

  predicate IdFits(sessions: seq<Session>, id: Bytes) {
    id != [] && |id| <= MAX_SESSION_ID && (HasSession(sessions, id) || |sessions| < MAX_SESSIONS)
  }

  /** A reply that is an error or decodes, and opens a session only under an admissible id and within their number. */
  predicate ReplyFits(h: History, request: Message, reply: Message) {
    && (reply.error.NoError? ==> reply.result.Some?)
    && (Opens(request, reply) ==>
          IdFits(SessionsOf(h), OpenedId(request, reply.result.value)))
  }

  predicate UpdateFits(content: bool, h: History, e: Event) {
    e.m.update.Some? && (content ==> TextHeard(h) + EventText(h, e) <= MAX_TEXT_BYTES)
  }

  /** The event can be observed without loss after this history. */
  predicate Followable(content: bool, h: History, e: Event) {
    if IsTracked(e) then RequestFits(content, h, e.m)
    else if Replies(e) && e.m.id in OpenTable(h) then ReplyFits(h, h[OpenTable(h)[e.m.id]].m, e.m)
    else if IsUpdate(e) then UpdateFits(content, h, e)
    else true
  }

  predicate AllFollowable(content: bool, h: History) {
    forall k | 0 <= k < |h| :: Followable(content, h[..k], h[k])
  }

  // ---------- The observer keeps what the history says ----------

  /** An open session request remembers what its session will be. */
  predicate OpenerEntry(request: Message, r: Request) {
    OpensSession(r.rpc) ==>
      request.params.Some? && r.session == request.params.value.sessionId && r.cwd == request.params.value.cwd
  }

  predicate Openers(h: History, open: map<Bytes, nat>, pending: map<Bytes, Request>) {
    forall id | id in pending :: id in open && open[id] < |h| && OpenerEntry(h[open[id]].m, pending[id])
  }

  ghost predicate Follows(s: State, h: History) {
    && Tracks(s, h, OpenTable(h)) && Openers(h, OpenTable(h), s.pending)
    && s.snapshot.sessions == SessionsOf(h) && (s.content ==> s.textBytes == TextHeard(h))
    && Shown(s.snapshot) == StandingOf(s.content, h)
  }

  lemma StandingAppend(content: bool, h: History, e: Event)
    ensures StandingOf(content, h + [e]) == NextStanding(content, StandingOf(content, h), h, e)
  {
    hide NextStanding;
    assert (h + [e])[..|h|] == h;
  }

  lemma SessionsAppend(h: History, e: Event)
    ensures SessionsOf(h + [e]) ==
      if Replies(e) && e.m.id in OpenTable(h) then WithSession(SessionsOf(h), h[OpenTable(h)[e.m.id]].m, e.m)
      else SessionsOf(h)
    ensures TextHeard(h + [e]) == TextHeard(h) + EventText(h, e)
  {
    hide WithSession, EventText, OpenTable;
    assert (h + [e])[..|h|] == h;
  }

  /** The active table lists exactly the busy sessions. */
  lemma BusyActive(s: State, h: History, session: Bytes)
    requires Tracks(s, h, OpenTable(h))
    ensures session in s.active <==> Busy(h, session)
  {
    hide OpenTable;
    if session in s.active {
      ActiveBusy(s, h, session);
    }
    if Busy(h, session) {
      BusyIsActive(s, h, session);
    }
  }

  lemma ActiveBusy(s: State, h: History, session: Bytes)
    requires Tracks(s, h, OpenTable(h)) && session in s.active
    ensures Busy(h, session)
  {
    var i := s.active[session];
    assert PendingAt(s.snapshot.prompts, i, session);
    hide OpenTable, NoOverlap, ExactPrompts, PromptIndices;
    PendingIsOpen(s, h, OpenTable(h), i);
    var id := h[PromptIndices(h)[i]].m.id;
    assert OpenEntry(h, id, OpenTable(h)[id], s.pending[id]);
    assert PromptOf(h[OpenTable(h)[id]], session) by { ExactSession(s, h, i); }
  }

  lemma ExactSession(s: State, h: History, i: nat)
    requires ExactPrompts(s.content, h, s.snapshot.prompts) && i < |s.snapshot.prompts|
    ensures i < |PromptIndices(h)| && PromptOf(h[PromptIndices(h)[i]], s.snapshot.prompts[i].sessionId)
    ensures AnswerIndex(h, PromptIndices(h)[i]) == |h| <==> s.snapshot.prompts[i].state == Pending
  {
    hide PromptIndices, ExactPrompt;
    assert ExactAt(s.content, h, s.snapshot.prompts, i);
    ExactPending(s.content, h, PromptIndices(h)[i], s.snapshot.prompts[i]);
    assert h[PromptIndices(h)[i]].m.params.Some? by {
      ExactParams(s.content, h, PromptIndices(h)[i], s.snapshot.prompts[i]);
    }
  }

  lemma ExactParams(content: bool, h: History, k: nat, p: Prompt)
    requires ExactPrompt(content, h, k, p)
    ensures h[k].m.params.Some?
  {
  }

  lemma BusyIsActive(s: State, h: History, session: Bytes)
    requires Tracks(s, h, OpenTable(h)) && Busy(h, session)
    ensures session in s.active
  {
    hide OpenTable, NoOverlap, PromptIndices, ExactPrompts, NextAnswer;
    var id :| id in OpenTable(h) && PromptOf(h[OpenTable(h)[id]], session);
    assert OpenEntry(h, id, OpenTable(h)[id], s.pending[id]);
    var i := s.pending[id].prompt;
    ExactLength(s.content, h, s.snapshot.prompts);
    ExactSession(s, h, i);
  }

  // ---------- The text budget ----------

  /** A text is cut exactly when it does not fit the budget. */
  lemma RetainExact(text: Text, total: nat)
    requires total <= MAX_TEXT_BYTES
    ensures Retain(text, total).lost <==> total + |text| > MAX_TEXT_BYTES
    ensures !Retain(text, total).lost ==> Retain(text, total).total == total + |text|
  {
  }

  lemma {:induction false} RetainBlocksExact(blocks: seq<Block>, total: nat)
    requires total <= MAX_TEXT_BYTES
    ensures var k := RetainBlocks(blocks, total);
      && (k.lost <==> total + |BlocksText(blocks)| > MAX_TEXT_BYTES)
      && (!k.lost ==> k.total == total + |BlocksText(blocks)|)
  {
    hide Retain;
    if blocks != [] {
      var n := |blocks| - 1;
      RetainBlocksExact(blocks[..n], total);
      var before := RetainBlocks(blocks[..n], total);
      RetainExact(blocks[n].text, before.total);
    }
  }

  // ---------- One more event ----------

  ghost predicate StepsExactly(s: State, h: History, e: Event, t: State) {
    && (t.snapshot.incomplete <==> !Followable(s.content, h, e))
    && (!t.snapshot.incomplete ==> Follows(t, h + [e]))
  }

  lemma OpenersAdd(h: History, e: Event, open: map<Bytes, nat>, pending: map<Bytes, Request>, r: Request)
    requires Openers(h, open, pending) && OpenerEntry(e.m, r)
    ensures Openers(h + [e], open[e.m.id := |h|], pending[e.m.id := r])
  {
    hide OpenerEntry;
  }

  lemma OpenersKeep(h: History, e: Event, open: map<Bytes, nat>, pending: map<Bytes, Request>, id: Bytes)
    requires Openers(h, open, pending)
    ensures Openers(h + [e], open, pending) && Openers(h + [e], open - {id}, pending - {id})
  {
    hide OpenerEntry;
  }

  lemma SameSize(s: State, h: History)
    requires Tracks(s, h, OpenTable(h))
    ensures s.pending.Keys == OpenTable(h).Keys && |s.pending| == |OpenTable(h)|
  {
    hide OpenTable, Tracks;
    TracksKeys(s, h, OpenTable(h));
    assert |s.pending| == |s.pending.Keys| && |OpenTable(h)| == |OpenTable(h).Keys|;
  }

  /** A prompt is opened without loss exactly when it fits. */
  lemma PromptExactly(s: State, h: History, m: Message)
    requires Inv(s) && Follows(s, h) && !s.snapshot.incomplete && m.params.Some?
    requires HasSession(s.snapshot.sessions, m.params.value.sessionId) && |s.snapshot.prompts| < MAX_PROMPTS
    ensures OpenPrompt(s, m).snapshot.incomplete <==> !PromptFits(s.content, h, m)
    ensures s.content && !OpenPrompt(s, m).snapshot.incomplete ==>
      OpenPrompt(s, m).textBytes == s.textBytes + |BlocksText(m.params.value.blocks)|
  {
    assert s.textBytes <= MAX_TEXT_BYTES;
    hide Inv, RetainBlocks, SessionsOf, TextHeard, BlocksText, Busy, HasSession, Tracks;
    BusyActive(s, h, m.params.value.sessionId);
    assert |s.snapshot.prompts| == |PromptIndices(h)| by { TracksLength(s, h); }
    RetainBlocksExact(m.params.value.blocks, s.textBytes);
  }

  lemma TracksLength(s: State, h: History)
    requires Tracks(s, h, OpenTable(h))
    ensures |s.snapshot.prompts| == |PromptIndices(h)|
  {
    ExactLength(s.content, h, s.snapshot.prompts);
  }

  lemma RequestExactly(s: State, h: History, m: Message)
    requires Inv(s) && Follows(s, h) && !s.snapshot.incomplete && Tracked(m.rpc)
    ensures OnRequest(s, m).snapshot.incomplete <==> !RequestFits(s.content, h, m)
  {
    hide Inv, OpenPrompt, OversizedParams, SessionsOf, HasSession, Tracks, OpenTable, Openers, TextHeard, BlocksText,
      Busy;
    SameSize(s, h);
    TracksLength(s, h);
    if !Untrackable(s, m) && m.rpc == SessionPrompt && !OversizedParams(m) {
      assert m.params.Some? by { SizedParams(m); }
      if HasSession(s.snapshot.sessions, m.params.value.sessionId) && |s.snapshot.prompts| < MAX_PROMPTS {
        PromptExactly(s, h, m);
      }
    }
  }

  lemma SizedParams(m: Message)
    requires !OversizedParams(m)
    ensures m.params.Some?
  {
  }

  /** What a taken request leaves: the tables remember it, and it publishes unless it is a login. */
  ghost predicate Took(s: State, t: State, m: Message) {
    && t.content == s.content && t.snapshot.sessions == s.snapshot.sessions
    && m.id in t.pending && t.pending == s.pending[m.id := t.pending[m.id]] && OpenerEntry(m, t.pending[m.id])
    && Shown(t.snapshot) == if m.rpc == Authenticate then Shown(s.snapshot) else Shown(Publish(s).snapshot)
  }

  lemma OpenPromptTook(s: State, m: Message)
    requires m.rpc == SessionPrompt && m.params.Some?
    ensures Took(s, OpenPrompt(s, m), m)
  {
    hide RetainBlocks;
  }

  lemma PlainTook(s: State, m: Message)
    requires Tracked(m.rpc) && m.rpc != SessionPrompt && !OnRequest(s, m).snapshot.incomplete
    ensures Took(s, OnRequest(s, m), m) && OnRequest(s, m).textBytes == s.textBytes
  {
    hide Untrackable;
  }

  lemma TakenPrompt(s: State, m: Message)
    requires m.rpc == SessionPrompt && !OnRequest(s, m).snapshot.incomplete
    ensures m.params.Some? && OnRequest(s, m) == OpenPrompt(s, m)
    ensures HasSession(s.snapshot.sessions, m.params.value.sessionId) && |s.snapshot.prompts| < MAX_PROMPTS
  {
    hide OpenPrompt, HasSession, Untrackable;
  }

  lemma RequestKept(s: State, h: History, e: Event)
    requires Inv(s) && Follows(s, h) && !s.snapshot.incomplete && IsTracked(e) && !OnRequest(s, e.m).snapshot.incomplete
    ensures Took(s, OnRequest(s, e.m), e.m)
    ensures s.content ==> OnRequest(s, e.m).textBytes == s.textBytes + EventText(h, e)
  {
    hide Inv, Follows, OnRequest, OpenPrompt, HasSession, BlocksText, Busy, Took;
    if IsPrompt(e) {
      TakenPrompt(s, e.m);
      OpenPromptTook(s, e.m);
      PromptExactly(s, h, e.m);
    } else {
      PlainTook(s, e.m);
    }
  }

  lemma TookStanding(s: State, t: State, h: History, e: Event)
    requires Took(s, t, e.m) && IsTracked(e)
    ensures Shown(t.snapshot) == NextStanding(s.content, Shown(s.snapshot), h, e)
  {
    hide OpenerEntry, AfterReply, HeardUpdate, OpenTable;
  }

  lemma RequestStep(s: State, h: History, e: Event)
    requires Inv(s) && Follows(s, h) && !s.snapshot.incomplete && IsTracked(e)
    ensures StepsExactly(s, h, e, OnRequest(s, e.m))
  {
    hide Inv, OnRequest, RequestFits, SessionsOf, TextHeard, EventText, OpenTable, Openers, Tracks, OpenerEntry,
      StandingOf, NextStanding, Shown;
    var t := OnRequest(s, e.m);
    RequestExactly(s, h, e.m);
    if !t.snapshot.incomplete {
      RequestKept(s, h, e);
      TookStanding(s, t, h, e);
      TracksRequest(s, h, OpenTable(h), e);
      OpenTableAppend(h, e);
      OpenersAdd(h, e, OpenTable(h), s.pending, t.pending[e.m.id]);
      SessionsAppend(h, e);
      StandingAppend(s.content, h, e);
    }
  }

  lemma OpenSessionExactly(s: State, r: Request, request: Message, reply: Message)
    requires OpensSession(r.rpc) && r.rpc == request.rpc && OpenerEntry(request, r) && Succeeds(reply)
    ensures
      var t, id := OpenSession(s, r, reply.result.value), OpenedId(request, reply.result.value);
      && (t.snapshot.incomplete <==> s.snapshot.incomplete || !IdFits(s.snapshot.sessions, id))
      && (!t.snapshot.incomplete ==> t.snapshot.sessions == WithSession(s.snapshot.sessions, request, reply))
      && t == s.(snapshot := t.snapshot) && Shown(t.snapshot) == Shown(s.snapshot)
  {
    hide HasSession, OperationOf;
  }

  lemma SettleExactly(s: State, r: Request, request: Message, reply: Message)
    requires r.rpc == request.rpc && OpenerEntry(request, r)
    ensures
      var t := Settle(s, r, reply);
      && (t.snapshot.incomplete <==>
            s.snapshot.incomplete ||
            (Opens(request, reply) && !IdFits(s.snapshot.sessions, OpenedId(request, reply.result.value))))
      && (!t.snapshot.incomplete ==> t.snapshot.sessions == WithSession(s.snapshot.sessions, request, reply))
      && t.content == s.content && t.textBytes == s.textBytes && t.pending == s.pending
  {
    hide HasSession, OpenSession, OpenedId, Bounded, Settled, IdFits;
    if OpensSession(r.rpc) && Succeeds(reply) { OpenSessionExactly(s, r, request, reply); }
  }

  /** What a reply to an open request does to the sessions and to completeness. */
  lemma ReplyExactly(s: State, h: History, e: Event)
    requires Follows(s, h) && !s.snapshot.incomplete && Replies(e) && e.m.id in OpenTable(h)
    ensures
      var t, request := OnResponse(s, e.m), h[OpenTable(h)[e.m.id]].m;
      && (t.snapshot.incomplete <==> !ReplyFits(h, request, e.m))
      && (!t.snapshot.incomplete ==> t.snapshot.sessions == WithSession(s.snapshot.sessions, request, e.m))
      && t.content == s.content && t.textBytes == s.textBytes && t.pending == s.pending - {e.m.id}
  {
    hide OpenTable, Tracks, HasSession, SessionsOf, TextHeard, Settle, OpenedId, WithSession, OpenerEntry, IdFits;
    TracksKeys(s, h, OpenTable(h));
    OpenRpc(s, h, e.m.id);
    var request := h[OpenTable(h)[e.m.id]].m;
    SettleExactly(Answer(s, e.m), s.pending[e.m.id], request, e.m);
  }

  lemma OpenSessionStanding(s: State, r: Request, result: ResultFields)
    requires OpensSession(r.rpc)
    ensures Shown(OpenSession(s, r, result).snapshot) == Shown(s.snapshot)
  {
    hide HasSession, OperationOf;
  }

  lemma ClosePromptStanding(s: State, r: Request, m: Message)
    requires 0 <= r.prompt < |s.snapshot.prompts|
    ensures Shown(ClosePrompt(s, r, m).snapshot) ==
      Shown(s.snapshot).(needsAuthentication := s.snapshot.needsAuthentication && FailedReply(m))
  {
    hide Settled;
  }

  /** What a reply to a request leaves shown. */
  lemma ReplyStanding(s: State, r: Request, request: Message, reply: Message)
    requires r.rpc == request.rpc && (r.rpc == SessionPrompt ==> 0 <= r.prompt < |s.snapshot.prompts|)
    ensures Shown(Settle(Answer(s, reply), r, reply).snapshot) == AfterReply(Shown(s.snapshot), request, reply)
  {
    hide OpenSession, ClosePrompt, Bounded;
    var t := Answer(s, reply);
    if r.rpc == SessionPrompt { ClosePromptStanding(t, r, reply); }
    if OpensSession(r.rpc) && Succeeds(reply) { OpenSessionStanding(t, r, reply.result.value); }
  }

  lemma ResponseStanding(s: State, h: History, e: Event)
    requires Inv(s) && Tracks(s, h, OpenTable(h)) && Replies(e) && e.m.id in OpenTable(h)
    ensures Shown(OnResponse(s, e.m).snapshot) == AfterReply(Shown(s.snapshot), h[OpenTable(h)[e.m.id]].m, e.m)
  {
    hide OpenTable, Tracks, Settle, Answer, AfterReply, Shown, SnapshotInv, Injective, Covered, ActiveInv;
    TracksKeys(s, h, OpenTable(h));
    OpenRpc(s, h, e.m.id);
    assert RequestInv(s.snapshot.prompts, s.pending[e.m.id]);
    ReplyStanding(s, s.pending[e.m.id], h[OpenTable(h)[e.m.id]].m, e.m);
  }

  lemma OpenRpc(s: State, h: History, id: Bytes)
    requires Tracks(s, h, OpenTable(h)) && id in s.pending
    ensures id in OpenTable(h) && s.pending[id].rpc == h[OpenTable(h)[id]].m.rpc
  {
    hide OpenTable, ExactPrompts, NoOverlap, TracksActive, PromptIndices;
    assert OpenEntry(h, id, OpenTable(h)[id], s.pending[id]);
  }

  lemma ReplyStep(s: State, h: History, e: Event)
    requires Inv(s) && Follows(s, h) && !s.snapshot.incomplete && Replies(e)
    ensures StepsExactly(s, h, e, OnResponse(s, e.m))
  {
    hide Inv, OnResponse, ReplyFits, SessionsOf, TextHeard, OpenTable, Openers, Tracks, WithSession, StandingOf,
      AfterReply, Shown;
    TracksKeys(s, h, OpenTable(h));
    TracksReply(s, h, OpenTable(h), e);
    OpenTableAppend(h, e);
    OpenersKeep(h, e, OpenTable(h), s.pending, e.m.id);
    SessionsAppend(h, e);
    StandingAppend(s.content, h, e);
    if e.m.id in OpenTable(h) {
      ReplyExactly(s, h, e);
      ResponseStanding(s, h, e);
    } else {
      UnknownReply(s, e.m);
      assert s.pending - {e.m.id} == s.pending;
    }
  }

  lemma UpdateEffect(s: State, m: Message)
    requires s.textBytes <= MAX_TEXT_BYTES && m.update.Some?
    requires m.update.value.sessionId in s.active ==> 0 <= s.active[m.update.value.sessionId] < |s.snapshot.prompts|
    ensures
      var t, u := OnUpdate(s, m), m.update.value;
      var heard := s.content && u.sessionId in s.active && SpokenText(u);
      && (t.snapshot.incomplete <==> s.snapshot.incomplete || (heard && s.textBytes + |u.text| > MAX_TEXT_BYTES))
      && t.content == s.content && t.pending == s.pending && t.snapshot.sessions == s.snapshot.sessions
      && (!t.snapshot.incomplete ==> t.textBytes == s.textBytes + if heard then |u.text| else 0)
      && Shown(t.snapshot) ==
         if heard || (u.sessionId in s.active && u.kind == ToolCall) then Shown(Publish(s).snapshot)
         else Shown(s.snapshot)
  {
    hide Retain, Chunked, Called;
    RetainExact(m.update.value.text, s.textBytes);
  }

  lemma UndecodedUpdate(s: State, m: Message)
    requires m.update.None?
    ensures OnUpdate(s, m) == Flag(s)
  {
  }

  lemma InvBudget(s: State)
    requires Inv(s)
    ensures s.textBytes <= MAX_TEXT_BYTES
  {
  }

  lemma UpdateExactly(s: State, h: History, e: Event)
    requires Inv(s) && Follows(s, h) && !s.snapshot.incomplete && IsUpdate(e)
    ensures
      var t := OnUpdate(s, e.m);
      && (t.snapshot.incomplete <==> !UpdateFits(s.content, h, e))
      && t.content == s.content && t.pending == s.pending && t.snapshot.sessions == s.snapshot.sessions
      && (s.content && !t.snapshot.incomplete ==> t.textBytes == s.textBytes + EventText(h, e))
      && (!t.snapshot.incomplete ==> Shown(t.snapshot) == NextStanding(s.content, Shown(s.snapshot), h, e))
  {
    hide Inv, SessionsOf, TextHeard, OpenTable, Openers, Tracks, Busy, OnUpdate, StandingOf, AfterReply;
    InvBudget(s);
    if e.m.update.None? {
      UndecodedUpdate(s, e.m);
    } else {
      var session := e.m.update.value.sessionId;
      BusyActive(s, h, session);
      if session in s.active { ActiveHears(s, h, session); }
      UpdateEffect(s, e.m);
    }
  }

  lemma ActiveHears(s: State, h: History, session: Bytes)
    requires Tracks(s, h, OpenTable(h)) && session in s.active
    ensures 0 <= s.active[session] < |s.snapshot.prompts|
  {
    hide OpenTable, ExactPrompts, NoOverlap, TracksRequests;
    assert PendingAt(s.snapshot.prompts, s.active[session], session);
  }

  lemma UpdateStep(s: State, h: History, e: Event)
    requires Inv(s) && Follows(s, h) && !s.snapshot.incomplete && IsUpdate(e)
    ensures StepsExactly(s, h, e, OnUpdate(s, e.m))
  {
    hide Inv, OnUpdate, UpdateFits, SessionsOf, TextHeard, EventText, OpenTable, Openers, Tracks, StandingOf,
      NextStanding, Shown;
    UpdateExactly(s, h, e);
    if !OnUpdate(s, e.m).snapshot.incomplete {
      TracksUpdate(s, h, OpenTable(h), e);
      OpenTableAppend(h, e);
      OpenersKeep(h, e, OpenTable(h), s.pending, []);
      SessionsAppend(h, e);
      StandingAppend(s.content, h, e);
    }
  }

  lemma OtherStep(s: State, h: History, e: Event)
    requires Inv(s) && Follows(s, h) && !s.snapshot.incomplete && !IsTracked(e) && !Replies(e) && !IsUpdate(e)
    ensures StepsExactly(s, h, e, OnMessage(s, e.client, e.m))
  {
    hide Inv, OnRequest, OnResponse, OnUpdate, SessionsOf, TextHeard, OpenTable, Openers, Tracks, StandingOf,
      AfterReply;
    TracksMessage(s, h, OpenTable(h), e);
    OpenTableAppend(h, e);
    OpenersKeep(h, e, OpenTable(h), s.pending, []);
    SessionsAppend(h, e);
    StandingAppend(s.content, h, e);
  }

  /** An event marks the observation incomplete exactly when the history says that it cannot be followed. */
  lemma MessageStep(s: State, h: History, e: Event)
    requires Inv(s) && Follows(s, h) && !s.snapshot.incomplete
    ensures StepsExactly(s, h, e, OnMessage(s, e.client, e.m))
  {
    hide Inv, OnRequest, OnResponse, OnUpdate, StepsExactly, Follows;
    if IsTracked(e) {
      RequestStep(s, h, e);
    } else if Replies(e) {
      ReplyStep(s, h, e);
    } else if IsUpdate(e) {
      UpdateStep(s, h, e);
    } else {
      OtherStep(s, h, e);
    }
  }

  // ---------- Whole histories ----------

  lemma InitialFollows(content: bool)
    ensures Follows(Initial(content), []) && Inv(Initial(content))
  {
    InitialInv(content);
  }

  lemma FollowableAppend(content: bool, h: History, e: Event)
    ensures AllFollowable(content, h + [e]) <==> AllFollowable(content, h) && Followable(content, h, e)
  {
    hide Followable;
    var more := h + [e];
    assert more[..|h|] == h && more[|h|] == e;
    assert forall k | 0 <= k < |h| :: more[..k] == h[..k] && more[k] == h[k];
    assert AllFollowable(content, more) ==> forall k | 0 <= k < |h| :: Followable(content, more[..k], more[k]);
  }

  /** While the messages arrive: nothing is marked incomplete exactly as long as everything could be followed. */
  lemma {:induction false} MessageRunFollows(content: bool, h: History)
    ensures var s := MessageRun(content, h);
      && Inv(s) && !s.snapshot.final && s.content == content
      && s.clientStream == s.agentStream == EMPTY_STREAM
      && (s.snapshot.incomplete <==> !AllFollowable(content, h))
      && (!s.snapshot.incomplete ==> Follows(s, h))
  {
    if h == [] {
      InitialFollows(content);
      return;
    }
    hide Inv, Follows, OnMessage, Followable, AllFollowable;
    var before, e := h[..|h| - 1], h[|h| - 1];
    assert before + [e] == h;
    MessageRunFollows(content, before);
    var s := MessageRun(content, before);
    MessageKeepsInv(s, e.client, e.m);
    MessageEvolves(s, e.client, e.m);
    FollowableAppend(content, before, e);
    if !s.snapshot.incomplete { MessageStep(s, before, e); }
  }

  /** Nothing is left open exactly when every tracked request was answered. */
  lemma FollowsAnswered(s: State, h: History)
    requires Inv(s) && Follows(s, h) && s.clientStream == s.agentStream == EMPTY_STREAM
    ensures Unfinished(s) <==> !AllAnswered(h)
    ensures AllAnswered(h) ==> forall i | 0 <= i < |s.snapshot.prompts| :: s.snapshot.prompts[i].state != Pending
  {
    hide Inv, SessionsOf, TextHeard, OpenTable, Openers, ExactPrompts, NoOverlap, TracksActive, NextAnswer,
      PromptIndices;
    forall i: nat | i < |s.snapshot.prompts| && s.snapshot.prompts[i].state == Pending ensures s.pending != map[] {
      PendingIsOpen(s, h, OpenTable(h), i);
    }
    if id :| id in s.pending { assert OpenEntry(h, id, OpenTable(h)[id], s.pending[id]); }
  }

  /** A final snapshot that says what the history says, in every field. */
  ghost predicate ExactSnapshot(content: bool, h: History, exitCode: int64, sn: Snapshot) {
    && ExactPrompts(content, h, sn.prompts) && sn.sessions == SessionsOf(h)
    && (forall i | 0 <= i < |sn.prompts| :: sn.prompts[i].sequence == i + 1)
    && Shown(sn) == StandingOf(content, h).(revision := StandingOf(content, h).revision + 1)
    && sn.final && !sn.incomplete && sn.exitCode == Some(exitCode)
  }

  /** The history and the exit code leave no choice. */
  lemma SnapshotDetermined(content: bool, h: History, exitCode: int64, a: Snapshot, b: Snapshot)
    requires ExactSnapshot(content, h, exitCode, a) && ExactSnapshot(content, h, exitCode, b)
    ensures a == b
  {
    hide ExactPrompt, SessionsOf, StandingOf, PromptIndices;
    forall i: nat | i < |a.prompts| ensures a.prompts[i] == b.prompts[i] {
      assert ExactAt(content, h, a.prompts, i) && ExactAt(content, h, b.prompts, i);
      PromptDetermined(content, h, PromptIndices(h)[i], a.prompts[i], b.prompts[i]);
    }
    assert a.prompts == b.prompts;
  }

  lemma PromptDetermined(content: bool, h: History, k: nat, p: Prompt, q: Prompt)
    requires ExactPrompt(content, h, k, p) && ExactPrompt(content, h, k, q) && p.sequence == q.sequence
    ensures p == q
  {
    hide BlocksText, ChunkText, CallCount, Outcome;
  }

  lemma Numbered(s: State)
    requires Inv(s)
    ensures forall i | 0 <= i < |s.snapshot.prompts| :: s.snapshot.prompts[i].sequence == i + 1
  {
  }

  /** Ending a run marks it incomplete exactly when it was, when the caller says so or when something is left open. */
  lemma FinishedIncomplete(s: State, exitCode: int64, incomplete: bool)
    requires !s.snapshot.final
    ensures Finished(s, exitCode, incomplete).snapshot.incomplete <==>
      s.snapshot.incomplete || incomplete || Unfinished(s)
  {
    hide Unfinished, Interrupt;
  }

  lemma NoneInterrupted(prompts: seq<Prompt>)
    requires forall i | 0 <= i < |prompts| :: prompts[i].state != Pending
    ensures Interrupt(prompts) == prompts
  {
    assert forall i | 0 <= i < |prompts| :: Interrupt(prompts)[i] == prompts[i];
  }

  /** Ending a run that left nothing open only seals and publishes. */
  lemma FinishedSeals(s: State, exitCode: int64)
    requires !s.snapshot.final && !s.snapshot.incomplete && !Unfinished(s)
    ensures Finished(s, exitCode, false).snapshot ==
      s.snapshot.(exitCode := Some(exitCode), final := true, revision := s.snapshot.revision + 1)
  {
    hide Interrupt;
    NoneInterrupted(s.snapshot.prompts);
  }

  lemma SealedExact(s: State, h: History, exitCode: int64)
    requires Inv(s) && Follows(s, h) && !s.snapshot.incomplete
    ensures ExactSnapshot(s.content, h, exitCode,
      s.snapshot.(exitCode := Some(exitCode), final := true, revision := s.snapshot.revision + 1))
  {
    hide Inv, ExactPrompts, NoOverlap, SessionsOf, Openers, TracksRequests, TracksActive, OpenTable, TextHeard,
      StandingOf;
    Numbered(s);
  }

  lemma FollowsNoOverlap(s: State, h: History)
    requires Follows(s, h)
    ensures NoOverlap(h)
  {
    hide ExactPrompts, NoOverlap, SessionsOf, Openers, TracksRequests, TracksActive, OpenTable, TextHeard, StandingOf;
  }

  /** The observation of a whole history is incomplete exactly when the caller says so, something could not be
      followed, or a tracked request stayed unanswered; a complete one is exact. */
  lemma CompleteHistoryIsExact(content: bool, h: History, exitCode: int64, incomplete: bool)
    ensures var t := Finished(MessageRun(content, h), exitCode, incomplete);
      && (t.snapshot.incomplete <==> incomplete || !AllFollowable(content, h) || !AllAnswered(h))
      && (!t.snapshot.incomplete ==> ExactSnapshot(content, h, exitCode, t.snapshot) && NoOverlap(h))
  {
    hide Inv, MessageRun, Follows, NoOverlap, AllAnswered, AllFollowable, Finished, Unfinished, ExactSnapshot;
    MessageRunFollows(content, h);
    var s := MessageRun(content, h);
    FinishedIncomplete(s, exitCode, incomplete);
    if !s.snapshot.incomplete {
      FollowsAnswered(s, h);
      FollowsNoOverlap(s, h);
      SealedExact(s, h, exitCode);
      if !incomplete && AllAnswered(h) { FinishedSeals(s, exitCode); }
    }
  }
}
