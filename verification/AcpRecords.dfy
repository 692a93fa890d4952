/** Every prompt record in every run, complete or not, in terms of the message history alone. */
module AcpRecords {
  import opened Wrappers
  import opened Utf8
  import opened AcpSnapshot
  import opened AcpMessages
  import opened AcpInvariant
  import opened AcpExact

  // ---------- The requests that a history has taken ----------

  predicate Followed(rpc: Method) {
    || rpc == Initialize || rpc == Authenticate || rpc == SessionNew || rpc == SessionLoad || rpc == SessionResume
    || rpc == SessionFork || rpc == SessionPrompt
  }

  /** How a session came about. */
  function OperationName(rpc: Method): Option<Operation> {
    if rpc == SessionNew then Some(New)
    else if rpc == SessionLoad then Some(Load)
    else if rpc == SessionResume then Some(Resume)
    else if rpc == SessionFork then Some(Fork)
    else None
  }

  predicate Knows(sessions: seq<Session>, id: Bytes) {
    exists i | 0 <= i < |sessions| :: sessions[i].id == id
  }

  /** The open requests by id and the taken prompts, as indices into the history, and the sessions. */
  datatype Ledger = Ledger(open: map<Bytes, nat>, taken: seq<nat>, sessions: seq<Session>)

  /** A request is taken when it has an id of its own, there is room for it, its parameters are readable and of
      admissible size, and a prompt is for a known session. */
  predicate Takes(l: Ledger, m: Message) {
    && m.id != [] && |l.open| < 256 && m.id !in l.open
    && (m.rpc == Authenticate ||
        (&& m.params.Some? && |m.params.value.sessionId| <= 512 && |m.params.value.cwd| <= 4096
         && (m.rpc == SessionPrompt ==>
               Knows(l.sessions, m.params.value.sessionId) && |l.taken| < 256)))
  }

  /** The sessions after a reply: a successful one opens the session it names or, for load and resume, the requested
      one, if that is new and there is room. */
  function Joined(sessions: seq<Session>, request: Message, reply: Message): seq<Session> {
    if OperationName(request.rpc).None? || request.params.None? || reply.error.Error? || reply.result.None?
    then sessions
    else
      var named := reply.result.value.sessionId;
      var id := if named == [] && (request.rpc == SessionLoad || request.rpc == SessionResume)
                then request.params.value.sessionId else named;
      if id == [] || |id| > 512 || Knows(sessions, id) || |sessions| >= 64 then sessions
      else sessions + [Session(id, request.params.value.cwd, OperationName(request.rpc).value)]
  }

  predicate Requests(e: Event) {
    e.client && Followed(e.m.rpc)
  }

  function NextLedger(l: Ledger, h: History, e: Event): Ledger {
    if Requests(e) then
      if Takes(l, e.m) then
        l.(open := l.open[e.m.id := |h|], taken := if e.m.rpc == SessionPrompt then l.taken + [|h|] else l.taken)
      else l
    else if Replies(e) && e.m.id in l.open then
      l.(open := l.open - {e.m.id},
         sessions := if l.open[e.m.id] < |h| then Joined(l.sessions, h[l.open[e.m.id]].m, e.m) else l.sessions)
    else l
  }

  const NO_LEDGER := Ledger(map[], [], [])

  function LedgerOf(h: History): Ledger {
    if h == [] then NO_LEDGER else NextLedger(LedgerOf(h[..|h| - 1]), h[..|h| - 1], h[|h| - 1])
  }

  predicate IsPromptFor(m: Message, session: Bytes) {
    m.rpc == SessionPrompt && m.params.Some? && m.params.value.sessionId == session
  }

  /** The reply to an open prompt of the session. */
  predicate RepliesFor(l: Ledger, h: History, e: Event, session: Bytes) {
    && Replies(e) && e.m.id in l.open && l.open[e.m.id] < |h| && IsPromptFor(h[l.open[e.m.id]].m, session)
  }

  /** The numbers of the session's prompts that were taken since the last reply to one of them. */
  function Waiting(h: History, session: Bytes): seq<nat> {
    if h == [] then []
    else
      var before, e := h[..|h| - 1], h[|h| - 1];
      var l := LedgerOf(before);
      if e.client && IsPromptFor(e.m, session) && Takes(l, e.m) then Waiting(before, session) + [|l.taken|]
      else if RepliesFor(l, before, e, session) then []
      else Waiting(before, session)
  }

  // ---------- Texts ----------

  /** What is kept of a text: the longest well-formed prefix that fits what is left of the budget. */
  ghost function Fit(text: Text, kept: nat): (p: Text)
    requires kept <= 131_072
    ensures LongestValidPrefix(p, text, 131_072 - kept)
  {
    var fits := Bounded(text, 131_072 - kept);
    assert LongestValidPrefix(fits, text, 131_072 - kept);
    var p: Text :| LongestValidPrefix(p, text, 131_072 - kept);
    p
  }

  lemma NotLonger(p: Bytes, q: Bytes, value: Bytes, limit: nat)
    requires LongestValidPrefix(p, value, limit) && LongestValidPrefix(q, value, limit)
    ensures |q| <= |p|
  {
    hide Valid;
    assert value[..|q|] == q;
  }

  lemma PrefixUnique(p: Bytes, q: Bytes, value: Bytes, limit: nat)
    requires LongestValidPrefix(p, value, limit) && LongestValidPrefix(q, value, limit)
    ensures p == q
  {
    hide Valid;
    NotLonger(p, q, value, limit);
    NotLonger(q, p, value, limit);
    assert p == value[..|p|] && q == value[..|q|];
  }

  /** The text blocks of a prompt, each fitted behind those before it. */
  ghost function FitBlocks(blocks: seq<Block>, kept: nat): (t: Bytes)
    requires kept <= 131_072
    ensures kept + |t| <= 131_072
  {
    if blocks == [] then []
    else
      var before, last := FitBlocks(blocks[..|blocks| - 1], kept), blocks[|blocks| - 1];
      before + if last.isText then Fit(last.text, kept + |before|) else []
  }

  /** The text that an event says to the prompt that hears it. */
  predicate Speaks(e: Event) {
    && !e.client && e.m.rpc == SessionUpdate && e.m.update.Some?
    && e.m.update.value.kind == AgentMessageChunk && e.m.update.value.isText
  }

  predicate Calls(e: Event) {
    !e.client && e.m.rpc == SessionUpdate && e.m.update.Some? && e.m.update.value.kind == ToolCall
  }

  /** An update is heard by the one prompt that its session waits for; after an overlap by none. */
  predicate HeardBy(h: History, e: Event, i: nat) {
    e.m.update.Some? && Waiting(h, e.m.update.value.sessionId) == [i]
  }

  predicate Heard(h: History, e: Event) {
    e.m.update.Some? && |Waiting(h, e.m.update.value.sessionId)| == 1
  }

  /** All bytes kept so far. */
  ghost function KeptBytes(content: bool, h: History): (n: nat)
    ensures n <= 131_072
  {
    if h == [] || !content then 0
    else
      var before, e := h[..|h| - 1], h[|h| - 1];
      var kept := KeptBytes(content, before);
      if Requests(e) && e.m.rpc == SessionPrompt && Takes(LedgerOf(before), e.m) then
        kept + |FitBlocks(e.m.params.value.blocks, kept)|
      else if Speaks(e) && Heard(before, e) then kept + |Fit(e.m.update.value.text, kept)|
      else kept
  }

  /** What the prompt number i heard, each text fitted behind everything kept before it. */
  ghost function AgentHeard(content: bool, h: History, i: nat): Bytes {
    if h == [] then []
    else
      var before, e := h[..|h| - 1], h[|h| - 1];
      AgentHeard(content, before, i) +
      if content && Speaks(e) && HeardBy(before, e, i)
      then Fit(e.m.update.value.text, KeptBytes(content, before)) else []
  }

  function CallsHeard(h: History, i: nat): nat {
    if h == [] then 0
    else CallsHeard(h[..|h| - 1], i) + if Calls(h[|h| - 1]) && HeardBy(h[..|h| - 1], h[|h| - 1], i) then 1 else 0
  }

  /** The reply to the prompt requested at k. */
  function ReplyTo(h: History, k: nat): Option<Message> {
    if h == [] then None
    else
      var before, e := h[..|h| - 1], h[|h| - 1];
      if Replies(e) && e.m.id in LedgerOf(before).open && LedgerOf(before).open[e.m.id] == k then Some(e.m)
      else ReplyTo(before, k)
  }

  ghost function UserKept(content: bool, h: History, k: nat): Bytes
    requires k < |h|
  {
    if content && h[k].m.params.Some? then FitBlocks(h[k].m.params.value.blocks, KeptBytes(content, h[..k])) else []
  }

  /** The record of prompt number i, which the history took at k. */
  ghost predicate IsRecord(content: bool, h: History, i: nat, k: nat, p: Prompt) {
    && k < |h| && h[k].m.params.Some? && p.sequence == i + 1 && p.sessionId == h[k].m.params.value.sessionId
    && p.userText == UserKept(content, h, k) && p.agentText == AgentHeard(content, h, i)
    && p.toolCalls == CallsHeard(h, i)
    && (p.state, p.stopReason) ==
         if ReplyTo(h, k).Some? then Outcome(ReplyTo(h, k).value) else (Pending, NoReason)
  }

  ghost predicate AreRecords(content: bool, h: History, prompts: seq<Prompt>) {
    && |prompts| == |LedgerOf(h).taken|
    && forall i | 0 <= i < |prompts| :: IsRecord(content, h, i, LedgerOf(h).taken[i], prompts[i])
  }

  // ---------- One more event ----------

  lemma LedgerAppend(h: History, e: Event)
    ensures LedgerOf(h + [e]) == NextLedger(LedgerOf(h), h, e)
  {
    hide NextLedger;
    assert (h + [e])[..|h|] == h;
  }

  lemma WaitingAppend(h: History, e: Event, session: Bytes)
    ensures Waiting(h + [e], session) ==
      if e.client && IsPromptFor(e.m, session) && Takes(LedgerOf(h), e.m)
      then Waiting(h, session) + [|LedgerOf(h).taken|]
      else if RepliesFor(LedgerOf(h), h, e, session) then [] else Waiting(h, session)
  {
    hide LedgerOf, Takes, RepliesFor, IsPromptFor;
    assert (h + [e])[..|h|] == h;
  }

  lemma KeptAppend(content: bool, h: History, e: Event)
    ensures KeptBytes(content, h + [e]) ==
      if !content then 0
      else if Requests(e) && e.m.rpc == SessionPrompt && Takes(LedgerOf(h), e.m) then
        KeptBytes(content, h) + |FitBlocks(e.m.params.value.blocks, KeptBytes(content, h))|
      else if Speaks(e) && Heard(h, e) then KeptBytes(content, h) + |Fit(e.m.update.value.text, KeptBytes(content, h))|
      else KeptBytes(content, h)
  {
    hide LedgerOf, Takes, Heard, Speaks, Fit, FitBlocks, Requests;
    assert (h + [e])[..|h|] == h;
    assert (h + [e])[|h|] == e;
  }

  lemma HeardAppend(content: bool, h: History, e: Event, i: nat)
    ensures AgentHeard(content, h + [e], i) == AgentHeard(content, h, i) +
      if content && Speaks(e) && HeardBy(h, e, i) then Fit(e.m.update.value.text, KeptBytes(content, h)) else []
    ensures CallsHeard(h + [e], i) == CallsHeard(h, i) + if Calls(e) && HeardBy(h, e, i) then 1 else 0
  {
    hide HeardBy, KeptBytes, Fit;
    assert (h + [e])[..|h|] == h;
  }

  lemma ReplyAppend(h: History, e: Event, k: nat)
    ensures ReplyTo(h + [e], k) ==
      if Replies(e) && e.m.id in LedgerOf(h).open && LedgerOf(h).open[e.m.id] == k then Some(e.m) else ReplyTo(h, k)
  {
    hide LedgerOf;
    assert (h + [e])[..|h|] == h;
  }

  lemma UserAppend(content: bool, h: History, e: Event, k: nat)
    requires k < |h|
    ensures UserKept(content, h + [e], k) == UserKept(content, h, k)
  {
    hide KeptBytes, FitBlocks;
    assert (h + [e])[..k] == h[..k] && (h + [e])[k] == h[k];
  }

  // ---------- What holds of every ledger ----------

  predicate TakenAt(h: History, k: nat) {
    k < |h| && h[k].client && h[k].m.rpc == SessionPrompt && h[k].m.params.Some?
  }

  predicate OpenAt(h: History, id: Bytes, k: nat) {
    && k < |h| && h[k].client && Followed(h[k].m.rpc) && h[k].m.id == id
    && (h[k].m.rpc == Authenticate || h[k].m.params.Some?)
  }

  ghost predicate Sound(l: Ledger, h: History) {
    && (forall i, j | 0 <= i < j < |l.taken| :: l.taken[i] < l.taken[j])
    && (forall i | 0 <= i < |l.taken| :: TakenAt(h, l.taken[i]))
    && (forall id | id in l.open :: OpenAt(h, id, l.open[id]) && ReplyTo(h, l.open[id]).None?)
    && forall k | k >= |h| :: ReplyTo(h, k).None?
  }

  lemma {:induction false} LedgerSound(h: History)
    ensures Sound(LedgerOf(h), h)
  {
    if h != [] {
      var n := |h| - 1;
      LedgerSound(h[..n]);
      assert h[..n] + [h[n]] == h;
      SoundStep(h[..n], h[n]);
    } else {
      NoLedger();
    }
  }

  lemma NoLedger()
    ensures Sound(LedgerOf([]), [])
  {
  }

  lemma SoundStep(h: History, e: Event)
    requires Sound(LedgerOf(h), h)
    ensures Sound(LedgerOf(h + [e]), h + [e])
  {
    hide LedgerOf, Joined, ReplyTo, Followed, Takes;
    var l, l', h' := LedgerOf(h), LedgerOf(h + [e]), h + [e];
    LedgerAppend(h, e);
    TakesParams(l, e.m);
    forall i | 0 <= i < |l'.taken| ensures TakenAt(h', l'.taken[i]) {
      if i < |l.taken| { assert TakenAt(h, l.taken[i]); }
    }
    forall k: nat ensures ReplyTo(h', k) ==
      if Replies(e) && e.m.id in l.open && l.open[e.m.id] == k then Some(e.m) else ReplyTo(h, k)
    {
      ReplyAppend(h, e, k);
    }
    forall id | id in l'.open ensures OpenAt(h', id, l'.open[id]) && ReplyTo(h', l'.open[id]).None? {
      if id in l.open { assert OpenAt(h, id, l.open[id]); }
      if Replies(e) && e.m.id in l.open { assert OpenAt(h, e.m.id, l.open[e.m.id]); }
    }
  }

  lemma TakesParams(l: Ledger, m: Message)
    ensures Takes(l, m) ==> m.id != [] && m.id !in l.open && (m.rpc == Authenticate || m.params.Some?)
  {
  }

  ghost predicate WaitsFor(h: History, session: Bytes, i: nat) {
    && i < |LedgerOf(h).taken| && LedgerOf(h).taken[i] < |h|
    && IsPromptFor(h[LedgerOf(h).taken[i]].m, session)
  }

  lemma {:induction false} WaitingSound(h: History, session: Bytes)
    ensures forall x | x in Waiting(h, session) :: WaitsFor(h, session, x)
  {
    hide IsPromptFor;
    if h != [] {
      var n := |h| - 1;
      var before, e := h[..n], h[n];
      WaitingSound(before, session);
      assert before + [e] == h;
      WaitingStep(before, e, session);
    }
  }

  lemma WaitingStep(h: History, e: Event, session: Bytes)
    requires forall x | x in Waiting(h, session) :: WaitsFor(h, session, x)
    ensures forall x | x in Waiting(h + [e], session) :: WaitsFor(h + [e], session, x)
  {
    hide LedgerOf, Takes, Waiting, Joined, IsPromptFor, RepliesFor;
    LedgerAppend(h, e);
    WaitingAppend(h, e, session);
    assert IsPromptFor(e.m, session) ==> e.m.rpc == SessionPrompt by { PromptRpc(e.m, session); }
    forall x | x in Waiting(h + [e], session) ensures WaitsFor(h + [e], session, x) {
      if x in Waiting(h, session) { assert WaitsFor(h, session, x); }
    }
  }

  lemma PromptRpc(m: Message, session: Bytes)
    ensures IsPromptFor(m, session) ==> m.rpc == SessionPrompt
  {
  }

  // ---------- The observer mirrors the history ----------

  ghost predicate EntryMirrors(l: Ledger, h: History, id: Bytes, r: Request) {
    && id in l.open && l.open[id] < |h|
    && var m := h[l.open[id]].m;
    && r.rpc == m.rpc
    && (m.rpc != Authenticate ==>
          m.params.Some? && r.session == m.params.value.sessionId && r.cwd == m.params.value.cwd)
    && (if m.rpc == SessionPrompt then 0 <= r.prompt < |l.taken| && l.taken[r.prompt] == l.open[id] else r.prompt == -1)
  }

  predicate ActiveMirrors(active: map<Bytes, int>, session: Bytes, waiting: seq<nat>) {
    && (session in active <==> waiting != [])
    && (|waiting| == 1 ==> active[session] == waiting[0])
    && (|waiting| > 1 ==> active[session] == -1)
  }

  ghost predicate TablesMirror(s: State, h: History) {
    && s.pending.Keys == LedgerOf(h).open.Keys
    && (forall id | id in s.pending :: EntryMirrors(LedgerOf(h), h, id, s.pending[id]))
    && forall session :: ActiveMirrors(s.active, session, Waiting(h, session))
  }

  ghost predicate Mirrors(s: State, h: History) {
    && TablesMirror(s, h) && AreRecords(s.content, h, s.snapshot.prompts)
    && s.snapshot.sessions == LedgerOf(h).sessions && s.textBytes == KeptBytes(s.content, h)
  }

  // ---------- Records under one more event ----------

  /** What one more event does to a record. */
  ghost function RecordAfter(content: bool, h: History, e: Event, i: nat, k: nat, p: Prompt): Prompt {
    var q := p.(
      agentText := p.agentText +
        if content && Speaks(e) && HeardBy(h, e, i) then Fit(e.m.update.value.text, KeptBytes(content, h)) else [],
      toolCalls := p.toolCalls + if Calls(e) && HeardBy(h, e, i) then 1 else 0);
    if Replies(e) && e.m.id in LedgerOf(h).open && LedgerOf(h).open[e.m.id] == k
    then q.(state := Outcome(e.m).0, stopReason := Outcome(e.m).1) else q
  }

  lemma RecordStep(content: bool, h: History, e: Event, i: nat, k: nat, p: Prompt)
    requires IsRecord(content, h, i, k, p)
    ensures IsRecord(content, h + [e], i, k, RecordAfter(content, h, e, i, k, p))
  {
    hide LedgerOf, AgentHeard, CallsHeard, UserKept, KeptBytes, ReplyTo, HeardBy, Speaks, Calls, Outcome, Fit;
    UserAppend(content, h, e, k);
    HeardAppend(content, h, e, i);
    ReplyAppend(h, e, k);
    assert (h + [e])[k] == h[k];
  }

  /** Nothing was heard by a prompt before it was taken. */
  lemma {:induction false} Unborn(content: bool, h: History, i: nat)
    requires i >= |LedgerOf(h).taken|
    ensures AgentHeard(content, h, i) == [] && CallsHeard(h, i) == 0
  {
    hide LedgerOf, Waiting, KeptBytes, Fit, HeardBy, NextLedger;
    if h != [] {
      var n := |h| - 1;
      var before, e := h[..n], h[n];
      assert before + [e] == h;
      LedgerAppend(before, e);
      TakenGrows(LedgerOf(before), before, e);
      Unborn(content, before, i);
      Unheard(before, e, i);
    }
  }

  lemma Unheard(h: History, e: Event, i: nat)
    ensures HeardBy(h, e, i) ==> i < |LedgerOf(h).taken|
  {
    hide LedgerOf, Waiting;
    if e.m.update.Some? {
      var session := e.m.update.value.sessionId;
      WaitingSound(h, session);
      assert Waiting(h, session) == [i] ==> i in Waiting(h, session);
    }
  }

  lemma TakenGrows(l: Ledger, h: History, e: Event)
    ensures l.taken <= NextLedger(l, h, e).taken
    ensures NextLedger(l, h, e).taken ==
      if Requests(e) && e.m.rpc == SessionPrompt && Takes(l, e.m) then l.taken + [|h|] else l.taken
  {
    hide Takes, Joined, Followed;
  }

  ghost predicate StepsTo(content: bool, h: History, e: Event, ps: seq<Prompt>, qs: seq<Prompt>, i: nat) {
    && i < |ps| && i < |qs| && i < |LedgerOf(h).taken|
    && qs[i] == RecordAfter(content, h, e, i, LedgerOf(h).taken[i], ps[i])
  }

  lemma RecordsStep(content: bool, h: History, e: Event, ps: seq<Prompt>, qs: seq<Prompt>)
    requires AreRecords(content, h, ps) && |qs| == |LedgerOf(h + [e]).taken|
    requires forall i: nat | i < |ps| :: StepsTo(content, h, e, ps, qs, i)
    requires |qs| > |ps| ==> IsRecord(content, h + [e], |ps|, |h|, qs[|ps|])
    ensures AreRecords(content, h + [e], qs)
  {
    hide LedgerOf, IsRecord, NextLedger, RecordAfter, StepsTo;
    LedgerAppend(h, e);
    TakenGrows(LedgerOf(h), h, e);
    var taken, taken' := LedgerOf(h).taken, LedgerOf(h + [e]).taken;
    forall i: nat | i < |qs| ensures IsRecord(content, h + [e], i, taken'[i], qs[i]) {
      if i < |ps| { OneStep(content, h, e, ps, qs, i); }
    }
  }

  lemma OneStep(content: bool, h: History, e: Event, ps: seq<Prompt>, qs: seq<Prompt>, i: nat)
    requires AreRecords(content, h, ps) && StepsTo(content, h, e, ps, qs, i)
    ensures IsRecord(content, h + [e], i, LedgerOf(h).taken[i], qs[i])
  {
    hide LedgerOf, IsRecord, RecordAfter;
    RecordStep(content, h, e, i, LedgerOf(h).taken[i], ps[i]);
  }

  /** An event that no prompt hears and that answers none leaves every record alone. */
  lemma QuietRecords(content: bool, h: History, e: Event, ps: seq<Prompt>)
    requires AreRecords(content, h, ps) && LedgerOf(h + [e]).taken == LedgerOf(h).taken
    requires forall i: nat | i < |ps| ::
      RecordAfter(content, h, e, i, LedgerOf(h).taken[i], ps[i]) == ps[i]
    ensures AreRecords(content, h + [e], ps)
  {
    hide LedgerOf, RecordAfter, IsRecord;
    forall i: nat | i < |ps| ensures StepsTo(content, h, e, ps, ps, i) {}
    RecordsStep(content, h, e, ps, ps);
  }

  // ---------- The observer's steps ----------

  lemma FollowedTracked(e: Event)
    ensures Requests(e) <==> IsTracked(e)
  {
  }

  /** The observer takes what the history takes, and flags every other request. */
  lemma TakesExactly(s: State, h: History, m: Message)
    requires Mirrors(s, h) && Tracked(m.rpc)
    ensures
      if !Takes(LedgerOf(h), m) then OnRequest(s, m) == Flag(s)
      else if m.rpc == Authenticate then
        OnRequest(s, m) == s.(pending := s.pending[m.id := Request(Authenticate, [], [], -1)])
      else
        && m.params.Some?
        && OnRequest(s, m) == if m.rpc == SessionPrompt then OpenPrompt(s, m) else
             Publish(s.(pending := s.pending[m.id := Request(m.rpc, m.params.value.sessionId, m.params.value.cwd, -1)]))
  {
    hide LedgerOf, OpenPrompt, IsRecord, EntryMirrors, Waiting, KeptBytes;
    assert |s.pending| == |s.pending.Keys| && |LedgerOf(h).open| == |LedgerOf(h).open.Keys|;
    if m.params.Some? { SameSessions(s.snapshot.sessions, m.params.value.sessionId); }
  }

  lemma SameSessions(sessions: seq<Session>, id: Bytes)
    ensures HasSession(sessions, id) <==> Knows(sessions, id)
  {
  }

  /** The open requests survive an event that does not answer them. */
  lemma EntryStays(l: Ledger, l': Ledger, h: History, e: Event, id: Bytes, r: Request)
    requires EntryMirrors(l, h, id, r) && id in l'.open && l'.open[id] == l.open[id] && l.taken <= l'.taken
    ensures EntryMirrors(l', h + [e], id, r)
  {
  }

  lemma FreshEntry(l: Ledger, h: History, e: Event, r: Request)
    requires e.m.id in l.open && l.open[e.m.id] == |h| && r.rpc == e.m.rpc
    requires e.m.rpc != Authenticate ==>
      e.m.params.Some? && r.session == e.m.params.value.sessionId && r.cwd == e.m.params.value.cwd
    requires if e.m.rpc == SessionPrompt then 0 <= r.prompt < |l.taken| && l.taken[r.prompt] == |h| else r.prompt == -1
    ensures EntryMirrors(l, h + [e], e.m.id, r)
  {
  }

  /** A refused request changes nothing that the history determines. */
  lemma QuietStep(s: State, t: State, h: History, e: Event)
    requires Mirrors(s, h) && LedgerOf(h + [e]) == LedgerOf(h)
    requires t.content == s.content && t.pending == s.pending && t.active == s.active && t.textBytes == s.textBytes
    requires t.snapshot.prompts == s.snapshot.prompts && t.snapshot.sessions == s.snapshot.sessions
    requires !Requests(e) || !Takes(LedgerOf(h), e.m)
    requires !Replies(e) || e.m.id !in LedgerOf(h).open
    requires (Speaks(e) && s.content) || Calls(e) ==> e.m.update.Some? && |Waiting(h, e.m.update.value.sessionId)| != 1
    ensures Mirrors(t, h + [e])
  {
    hide LedgerOf, IsRecord, EntryMirrors, Waiting, KeptBytes, ActiveMirrors, Takes, RepliesFor, IsPromptFor, Fit,
      FitBlocks;
    forall id | id in s.pending ensures EntryMirrors(LedgerOf(h + [e]), h + [e], id, t.pending[id]) {
      EntryStays(LedgerOf(h), LedgerOf(h + [e]), h, e, id, s.pending[id]);
    }
    forall session ensures ActiveMirrors(t.active, session, Waiting(h + [e], session)) {
      QuietWaiting(h, e, session);
      assert ActiveMirrors(s.active, session, Waiting(h, session));
    }
    QuietKept(s.content, h, e);
    forall i: nat | i < |s.snapshot.prompts|
      ensures RecordAfter(s.content, h, e, i, LedgerOf(h).taken[i], s.snapshot.prompts[i]) == s.snapshot.prompts[i]
    {
      QuietRecord(s.content, h, e, i, LedgerOf(h).taken[i], s.snapshot.prompts[i]);
    }
    QuietRecords(s.content, h, e, s.snapshot.prompts);
  }

  lemma QuietWaiting(h: History, e: Event, session: Bytes)
    requires !Requests(e) || !Takes(LedgerOf(h), e.m)
    requires !Replies(e) || e.m.id !in LedgerOf(h).open
    ensures Waiting(h + [e], session) == Waiting(h, session)
  {
    hide LedgerOf, Waiting, Takes;
    WaitingAppend(h, e, session);
  }

  lemma QuietKept(content: bool, h: History, e: Event)
    requires !Requests(e) || !Takes(LedgerOf(h), e.m)
    requires content && Speaks(e) ==> !Heard(h, e)
    ensures KeptBytes(content, h + [e]) == KeptBytes(content, h)
  {
    hide LedgerOf, Takes, Heard, Speaks, Fit, FitBlocks;
    KeptAppend(content, h, e);
    NoContent(content, h);
  }

  lemma NoContent(content: bool, h: History)
    ensures !content ==> KeptBytes(content, h) == 0
  {
  }

  lemma QuietRecord(content: bool, h: History, e: Event, i: nat, k: nat, p: Prompt)
    requires !Replies(e) || e.m.id !in LedgerOf(h).open || LedgerOf(h).open[e.m.id] != k
    requires (Speaks(e) && content) || Calls(e) ==> !HeardBy(h, e, i)
    ensures RecordAfter(content, h, e, i, k, p) == p
  {
    hide LedgerOf, KeptBytes, HeardBy, Speaks, Calls, Outcome, Fit;
    assert p.agentText + [] == p.agentText;
  }

  lemma TakenLedger(h: History, e: Event)
    requires Requests(e) && Takes(LedgerOf(h), e.m)
    ensures
      var l, l' := LedgerOf(h), LedgerOf(h + [e]);
      && l'.open == l.open[e.m.id := |h|] && l'.sessions == l.sessions && e.m.id !in l.open
      && l'.taken == if e.m.rpc == SessionPrompt then l.taken + [|h|] else l.taken
  {
    hide LedgerOf, Takes, Joined, Followed;
    LedgerAppend(h, e);
    TakesParams(LedgerOf(h), e.m);
  }

  lemma TakenEntries(s: State, t: State, h: History, e: Event, r: Request)
    requires TablesMirror(s, h) && Requests(e) && Takes(LedgerOf(h), e.m) && t.pending == s.pending[e.m.id := r]
    requires EntryMirrors(LedgerOf(h + [e]), h + [e], e.m.id, r)
    ensures t.pending.Keys == LedgerOf(h + [e]).open.Keys
    ensures forall id | id in t.pending :: EntryMirrors(LedgerOf(h + [e]), h + [e], id, t.pending[id])
  {
    hide LedgerOf, EntryMirrors, Waiting, ActiveMirrors, Takes, Requests;
    TakenLedger(h, e);
    forall id | id in s.pending && id != e.m.id ensures EntryMirrors(LedgerOf(h + [e]), h + [e], id, t.pending[id]) {
      EntryStays(LedgerOf(h), LedgerOf(h + [e]), h, e, id, s.pending[id]);
    }
  }

  /** A taken request other than a prompt. */
  lemma PlainStep(s: State, t: State, h: History, e: Event, r: Request)
    requires Mirrors(s, h) && Requests(e) && Takes(LedgerOf(h), e.m) && e.m.rpc != SessionPrompt
    requires t.content == s.content && t.active == s.active && t.textBytes == s.textBytes
    requires t.snapshot.prompts == s.snapshot.prompts && t.snapshot.sessions == s.snapshot.sessions
    requires t.pending == s.pending[e.m.id := r] && r.rpc == e.m.rpc && r.prompt == -1
    requires e.m.rpc != Authenticate ==>
      e.m.params.Some? && r.session == e.m.params.value.sessionId && r.cwd == e.m.params.value.cwd
    ensures Mirrors(t, h + [e])
  {
    hide LedgerOf, IsRecord, EntryMirrors, Waiting, KeptBytes, ActiveMirrors, Takes, Fit, FitBlocks;
    TakenLedger(h, e);
    FreshEntry(LedgerOf(h + [e]), h, e, r);
    TakenEntries(s, t, h, e, r);
    forall session ensures ActiveMirrors(t.active, session, Waiting(h + [e], session)) {
      WaitingAppend(h, e, session);
      PromptRpc(e.m, session);
      assert ActiveMirrors(s.active, session, Waiting(h, session));
    }
    KeptAppend(s.content, h, e);
    NoContent(s.content, h);
    forall i: nat | i < |s.snapshot.prompts|
      ensures RecordAfter(s.content, h, e, i, LedgerOf(h).taken[i], s.snapshot.prompts[i]) == s.snapshot.prompts[i]
    {
      QuietRecord(s.content, h, e, i, LedgerOf(h).taken[i], s.snapshot.prompts[i]);
    }
    QuietRecords(s.content, h, e, s.snapshot.prompts);
  }

  lemma {:induction false} RetainFits(text: Text, kept: nat)
    requires kept <= 131_072
    ensures Retain(text, kept).text == Fit(text, kept) && Retain(text, kept).total == kept + |Fit(text, kept)|
  {
    PrefixUnique(Retain(text, kept).text, Fit(text, kept), text, 131_072 - kept);
  }

  lemma RetainLast(blocks: seq<Block>, kept: nat)
    requires blocks != [] && kept <= 131_072
    ensures
      var before, last := RetainBlocks(blocks[..|blocks| - 1], kept), blocks[|blocks| - 1];
      var added := if last.isText then Retain(last.text, before.total).text else [];
      && RetainBlocks(blocks, kept).text == before.text + added
      && RetainBlocks(blocks, kept).total == before.total + |added|
  {
    hide Retain;
    var before := RetainBlocks(blocks[..|blocks| - 1], kept);
    assert before.text + [] == before.text;
  }

  lemma {:induction false} RetainBlocksFits(blocks: seq<Block>, kept: nat)
    requires kept <= 131_072
    ensures RetainBlocks(blocks, kept).text == FitBlocks(blocks, kept)
    ensures RetainBlocks(blocks, kept).total == kept + |FitBlocks(blocks, kept)|
  {
    hide Retain, Fit, RetainBlocks;
    if blocks == [] {
      NothingRetained(kept);
    } else {
      var n := |blocks| - 1;
      RetainBlocksFits(blocks[..n], kept);
      RetainLast(blocks, kept);
      if blocks[n].isText { RetainFits(blocks[n].text, kept + |FitBlocks(blocks[..n], kept)|); }
    }
  }

  lemma NothingRetained(kept: nat)
    ensures RetainBlocks([], kept) == Kept([], kept, false)
  {
  }

  lemma OpenPromptParts(s: State, m: Message)
    requires m.params.Some? && s.textBytes <= 131_072 && (!s.content ==> s.textBytes == 0)
    ensures
      var t, session, n := OpenPrompt(s, m), m.params.value.sessionId, |s.snapshot.prompts|;
      var text := if s.content then FitBlocks(m.params.value.blocks, s.textBytes) else [];
      && t.content == s.content && t.snapshot.sessions == s.snapshot.sessions
      && t.active == s.active[session := if session in s.active then -1 else n]
      && t.pending == s.pending[m.id := Request(SessionPrompt, session, m.params.value.cwd, n)]
      && |t.snapshot.prompts| == n + 1 && t.snapshot.prompts[..n] == s.snapshot.prompts
      && t.snapshot.prompts[n] == Prompt(n + 1, session, Pending, NoReason, text, [], 0)
      && t.textBytes == s.textBytes + |text|
  {
    hide RetainBlocks, FitBlocks;
    if s.content { RetainBlocksFits(m.params.value.blocks, s.textBytes); }
  }

  /** The record of a prompt that was just taken. */
  lemma NewRecord(content: bool, h: History, e: Event, p: Prompt)
    requires Requests(e) && e.m.rpc == SessionPrompt && Takes(LedgerOf(h), e.m) && e.m.params.Some?
    requires p == Prompt(|LedgerOf(h).taken| + 1, e.m.params.value.sessionId, Pending, NoReason,
      if content then FitBlocks(e.m.params.value.blocks, KeptBytes(content, h)) else [], [], 0)
    ensures IsRecord(content, h + [e], |LedgerOf(h).taken|, |h|, p)
  {
    hide LedgerOf, KeptBytes, AgentHeard, CallsHeard, ReplyTo, FitBlocks, HeardBy, Takes, Fit;
    var i := |LedgerOf(h).taken|;
    assert (h + [e])[..|h|] == h && (h + [e])[|h|] == e;
    Unborn(content, h, i);
    HeardAppend(content, h, e, i);
    LedgerSound(h);
    NotAnswered(h, |h|);
    ReplyAppend(h, e, |h|);
  }

  lemma NotAnswered(h: History, k: nat)
    requires Sound(LedgerOf(h), h) && k >= |h|
    ensures ReplyTo(h, k).None?
  {
    hide LedgerOf, ReplyTo;
  }

  lemma PromptTables(s: State, t: State, h: History, e: Event)
    requires Mirrors(s, h) && Requests(e) && Takes(LedgerOf(h), e.m) && e.m.rpc == SessionPrompt && e.m.params.Some?
    requires t.pending ==
      s.pending[e.m.id :=
        Request(SessionPrompt, e.m.params.value.sessionId, e.m.params.value.cwd, |s.snapshot.prompts|)]
    requires var session := e.m.params.value.sessionId;
      t.active == s.active[session := if session in s.active then -1 else |s.snapshot.prompts|]
    ensures TablesMirror(t, h + [e])
  {
    hide LedgerOf, IsRecord, EntryMirrors, Waiting, KeptBytes, Takes, Fit, FitBlocks;
    TakenLedger(h, e);
    FreshEntry(LedgerOf(h + [e]), h, e, t.pending[e.m.id]);
    TakenEntries(s, t, h, e, t.pending[e.m.id]);
    forall session ensures ActiveMirrors(t.active, session, Waiting(h + [e], session)) {
      WaitingAppend(h, e, session);
      assert ActiveMirrors(s.active, session, Waiting(h, session));
    }
  }

  lemma PromptRecords(content: bool, h: History, e: Event, ps: seq<Prompt>, qs: seq<Prompt>)
    requires AreRecords(content, h, ps) && |qs| == |ps| + 1 && qs[..|ps|] == ps
    requires Requests(e) && Takes(LedgerOf(h), e.m) && e.m.rpc == SessionPrompt && e.m.params.Some?
    requires qs[|ps|] == Prompt(|ps| + 1, e.m.params.value.sessionId, Pending, NoReason,
      if content then FitBlocks(e.m.params.value.blocks, KeptBytes(content, h)) else [], [], 0)
    ensures AreRecords(content, h + [e], qs)
  {
    hide LedgerOf, IsRecord, KeptBytes, Takes, FitBlocks, RecordAfter;
    TakenLedger(h, e);
    NewRecord(content, h, e, qs[|ps|]);
    forall i: nat | i < |ps| ensures StepsTo(content, h, e, ps, qs, i) {
      QuietRecord(content, h, e, i, LedgerOf(h).taken[i], ps[i]);
      assert qs[i] == qs[..|ps|][i];
    }
    RecordsStep(content, h, e, ps, qs);
  }

  lemma PromptStep(s: State, h: History, e: Event)
    requires Inv(s) && Mirrors(s, h) && Requests(e) && Takes(LedgerOf(h), e.m) && e.m.rpc == SessionPrompt
    requires e.m.params.Some?
    ensures Mirrors(OpenPrompt(s, e.m), h + [e])
  {
    hide Inv, OpenPrompt, LedgerOf, AreRecords, TablesMirror, KeptBytes, Takes, Fit, FitBlocks;
    InvTexts(s);
    MirroredLength(s, h);
    var t := OpenPrompt(s, e.m);
    OpenPromptParts(s, e.m);
    PromptTables(s, t, h, e);
    TakenLedger(h, e);
    KeptAppend(s.content, h, e);
    PromptRecords(s.content, h, e, s.snapshot.prompts, t.snapshot.prompts);
  }

  lemma MirroredLength(s: State, h: History)
    requires AreRecords(s.content, h, s.snapshot.prompts)
    ensures |s.snapshot.prompts| == |LedgerOf(h).taken|
  {
  }

  lemma InvTexts(s: State)
    requires Inv(s)
    ensures s.textBytes <= 131_072 && (!s.content ==> s.textBytes == 0)
  {
  }

  lemma RequestStep(s: State, h: History, e: Event)
    requires Inv(s) && Mirrors(s, h) && Requests(e)
    ensures Mirrors(OnRequest(s, e.m), h + [e])
  {
    hide Inv, Mirrors, OnRequest, OpenPrompt, LedgerOf, Takes, Waiting;
    FollowedTracked(e);
    TakesExactly(s, h, e.m);
    if !Takes(LedgerOf(h), e.m) {
      LedgerAppend(h, e);
      QuietStep(s, Flag(s), h, e);
    } else if e.m.rpc == SessionPrompt {
      PromptStep(s, h, e);
    } else {
      PlainStep(s, OnRequest(s, e.m), h, e, OnRequest(s, e.m).pending[e.m.id]);
    }
  }

  // ---------- Replies ----------

  lemma ReplyLedger(h: History, e: Event)
    requires Replies(e) && e.m.id in LedgerOf(h).open && LedgerOf(h).open[e.m.id] < |h|
    ensures
      var l, l' := LedgerOf(h), LedgerOf(h + [e]);
      && l'.open == l.open - {e.m.id} && l'.taken == l.taken
      && l'.sessions == Joined(l.sessions, h[l.open[e.m.id]].m, e.m)
  {
    hide LedgerOf, Joined;
    LedgerAppend(h, e);
  }

  /** A reply opens the session that the history says. */
  lemma JoinedExactly(s: State, r: Request, request: Message, reply: Message)
    requires r.rpc == request.rpc
    requires r.rpc != Authenticate ==>
      request.params.Some? && r.session == request.params.value.sessionId && r.cwd == request.params.value.cwd
    ensures Settle(s, r, reply).snapshot.sessions == Joined(s.snapshot.sessions, request, reply)
  {
    hide Bounded, ClosePrompt, OpenSession;
    PromptSessions(s, r, reply);
    if OpensSession(r.rpc) && reply.error.NoError? && reply.result.Some? { OpenedExactly(s, r, request, reply); }
  }

  /** The session id that a reply leads to. */
  function Named(request: Message, reply: Message): Bytes
    requires request.params.Some? && reply.result.Some?
  {
    var named := reply.result.value.sessionId;
    if named == [] && (request.rpc == SessionLoad || request.rpc == SessionResume)
    then request.params.value.sessionId else named
  }

  lemma JoinedNamed(sessions: seq<Session>, request: Message, reply: Message)
    requires OperationName(request.rpc).Some? && request.params.Some? && reply.error.NoError? && reply.result.Some?
    ensures Joined(sessions, request, reply) ==
      var id := Named(request, reply);
      if id == [] || |id| > 512 || Knows(sessions, id) || |sessions| >= 64 then sessions
      else sessions + [Session(id, request.params.value.cwd, OperationName(request.rpc).value)]
  {
    hide Knows, OperationName;
  }

  lemma OpenedNamed(s: State, r: Request, request: Message, reply: Message)
    requires OpensSession(r.rpc) && r.rpc == request.rpc && reply.result.Some?
    requires request.params.Some? && r.session == request.params.value.sessionId && r.cwd == request.params.value.cwd
    ensures OpenSession(s, r, reply.result.value).snapshot.sessions ==
      var id, sessions := Named(request, reply), s.snapshot.sessions;
      if id == [] || |id| > 512 || HasSession(sessions, id) || |sessions| >= 64 then sessions
      else sessions + [Session(id, request.params.value.cwd, OperationOf(request.rpc))]
  {
    hide HasSession, OperationOf;
  }

  lemma OpenedExactly(s: State, r: Request, request: Message, reply: Message)
    requires OpensSession(r.rpc) && r.rpc == request.rpc && reply.error.NoError? && reply.result.Some?
    requires request.params.Some? && r.session == request.params.value.sessionId && r.cwd == request.params.value.cwd
    ensures OpenSession(s, r, reply.result.value).snapshot.sessions == Joined(s.snapshot.sessions, request, reply)
  {
    hide HasSession, Knows, Joined, OpenSession, Named;
    JoinedNamed(s.snapshot.sessions, request, reply);
    OpenedNamed(s, r, request, reply);
    SameSessions(s.snapshot.sessions, Named(request, reply));
  }

  lemma PromptSessions(s: State, r: Request, reply: Message)
    ensures ClosePrompt(s, r, reply).snapshot.sessions == s.snapshot.sessions
  {
    hide Settled;
  }

  /** What settling touches besides the sessions. */
  lemma SettleParts(s: State, r: Request, reply: Message)
    requires r.rpc == SessionPrompt ==> 0 <= r.prompt < |s.snapshot.prompts|
    ensures
      var t := Settle(s, r, reply);
      && t.content == s.content && t.pending == s.pending && t.textBytes == s.textBytes
      && t.active == (if r.rpc == SessionPrompt then s.active - {r.session} else s.active)
      && t.snapshot.prompts ==
           if r.rpc == SessionPrompt
           then s.snapshot.prompts[r.prompt := Settled(s.snapshot.prompts[r.prompt], reply)] else s.snapshot.prompts
  {
    hide Bounded, Settled, HasSession;
  }

  lemma ResponseParts(s: State, h: History, e: Event)
    requires Mirrors(s, h) && Replies(e) && e.m.id in s.pending
    ensures
      var t, r, l := OnResponse(s, e.m), s.pending[e.m.id], LedgerOf(h);
      && e.m.id in l.open && l.open[e.m.id] < |h| && r.rpc == h[l.open[e.m.id]].m.rpc
      && (r.rpc == SessionPrompt ==>
            && 0 <= r.prompt < |s.snapshot.prompts| && r.prompt < |l.taken| && l.taken[r.prompt] == l.open[e.m.id]
            && IsPromptFor(h[l.open[e.m.id]].m, r.session))
      && t.content == s.content && t.pending == s.pending - {e.m.id} && t.textBytes == s.textBytes
      && t.active == (if r.rpc == SessionPrompt then s.active - {r.session} else s.active)
      && t.snapshot.sessions == Joined(s.snapshot.sessions, h[l.open[e.m.id]].m, e.m)
      && t.snapshot.prompts ==
           if r.rpc == SessionPrompt
           then s.snapshot.prompts[r.prompt := Settled(s.snapshot.prompts[r.prompt], e.m)] else s.snapshot.prompts
  {
    hide LedgerOf, Settle, Settled, Joined, IsRecord, Waiting, KeptBytes;
    var r := s.pending[e.m.id];
    assert EntryMirrors(LedgerOf(h), h, e.m.id, r);
    SettleParts(Answer(s, e.m), r, e.m);
    JoinedExactly(Answer(s, e.m), r, h[LedgerOf(h).open[e.m.id]].m, e.m);
  }

  lemma ReplyEntries(s: State, t: State, h: History, e: Event)
    requires TablesMirror(s, h) && Replies(e) && e.m.id in s.pending && t.pending == s.pending - {e.m.id}
    requires LedgerOf(h).open[e.m.id] < |h|
    ensures t.pending.Keys == LedgerOf(h + [e]).open.Keys
    ensures forall id | id in t.pending :: EntryMirrors(LedgerOf(h + [e]), h + [e], id, t.pending[id])
  {
    hide LedgerOf, EntryMirrors, Waiting, ActiveMirrors, Joined;
    ReplyLedger(h, e);
    forall id | id in t.pending ensures EntryMirrors(LedgerOf(h + [e]), h + [e], id, t.pending[id]) {
      EntryStays(LedgerOf(h), LedgerOf(h + [e]), h, e, id, s.pending[id]);
    }
  }

  /** After the reply to a prompt its session waits for none. */
  lemma ReplyActive(active: map<Bytes, int>, h: History, e: Event, r: Request, session: Bytes)
    requires Replies(e) && e.m.id in LedgerOf(h).open && LedgerOf(h).open[e.m.id] < |h|
    requires r.rpc == h[LedgerOf(h).open[e.m.id]].m.rpc
    requires r.rpc == SessionPrompt ==> IsPromptFor(h[LedgerOf(h).open[e.m.id]].m, r.session)
    requires ActiveMirrors(active, session, Waiting(h, session))
    ensures
      ActiveMirrors(if r.rpc == SessionPrompt then active - {r.session} else active, session, Waiting(h + [e], session))
  {
    hide LedgerOf, Waiting, Takes;
    WaitingAppend(h, e, session);
  }

  lemma ReplyTables(s: State, h: History, e: Event)
    requires Mirrors(s, h) && Replies(e) && e.m.id in s.pending
    ensures TablesMirror(OnResponse(s, e.m), h + [e])
  {
    hide OnResponse, LedgerOf, EntryMirrors, Waiting, AreRecords, KeptBytes, Joined, Settled, ActiveMirrors,
      IsPromptFor;
    ResponseParts(s, h, e);
    ReplyEntries(s, OnResponse(s, e.m), h, e);
    forall session
      ensures ActiveMirrors(OnResponse(s, e.m).active, session, Waiting(h + [e], session))
    {
      ReplyActive(s.active, h, e, s.pending[e.m.id], session);
    }
  }

  /** A reply settles the record of its prompt and no other. */
  lemma ReplyRecord(content: bool, h: History, e: Event, r: Request, ps: seq<Prompt>, qs: seq<Prompt>, i: nat)
    requires Sound(LedgerOf(h), h) && AreRecords(content, h, ps) && i < |ps|
    requires Replies(e) && e.m.id in LedgerOf(h).open && LedgerOf(h).open[e.m.id] < |h|
    requires r.rpc == h[LedgerOf(h).open[e.m.id]].m.rpc
    requires r.rpc == SessionPrompt ==> 0 <= r.prompt < |ps| && LedgerOf(h).taken[r.prompt] == LedgerOf(h).open[e.m.id]
    requires qs == if r.rpc == SessionPrompt then ps[r.prompt := Settled(ps[r.prompt], e.m)] else ps
    ensures StepsTo(content, h, e, ps, qs, i)
  {
    hide LedgerOf, IsRecord, KeptBytes, Settled, RecordAfter, ReplyTo, OpenAt;
    var l := LedgerOf(h);
    assert TakenAt(h, l.taken[i]);
    if l.taken[i] == l.open[e.m.id] {
      SettledRecord(content, h, e, i, l.taken[i], ps[i]);
    } else {
      QuietRecord(content, h, e, i, l.taken[i], ps[i]);
    }
  }

  lemma ReplyRecords(s: State, h: History, e: Event)
    requires Mirrors(s, h) && Replies(e) && e.m.id in s.pending
    ensures AreRecords(s.content, h + [e], OnResponse(s, e.m).snapshot.prompts)
  {
    hide OnResponse, LedgerOf, IsRecord, TablesMirror, KeptBytes, Joined, Settled, StepsTo, Sound;
    ResponseParts(s, h, e);
    LedgerSound(h);
    ReplyLedger(h, e);
    var ps, qs := s.snapshot.prompts, OnResponse(s, e.m).snapshot.prompts;
    forall i: nat | i < |ps| ensures StepsTo(s.content, h, e, ps, qs, i) {
      ReplyRecord(s.content, h, e, s.pending[e.m.id], ps, qs, i);
    }
    RecordsStep(s.content, h, e, ps, qs);
  }

  lemma SettledRecord(content: bool, h: History, e: Event, i: nat, k: nat, p: Prompt)
    requires IsRecord(content, h, i, k, p) && ReplyTo(h, k).None?
    requires Replies(e) && e.m.id in LedgerOf(h).open && LedgerOf(h).open[e.m.id] == k
    ensures RecordAfter(content, h, e, i, k, p) == Settled(p, e.m)
  {
    hide LedgerOf, AgentHeard, CallsHeard, UserKept, KeptBytes, HeardBy, Fit;
    assert p.agentText + [] == p.agentText;
    SettledOutcome(p, e.m);
    SettledFacts(p, e.m);
  }

  lemma ReplyStep(s: State, h: History, e: Event)
    requires Mirrors(s, h) && Replies(e)
    ensures Mirrors(OnResponse(s, e.m), h + [e])
  {
    hide OnResponse, LedgerOf, IsRecord, EntryMirrors, Waiting, KeptBytes, Takes, Joined, Settled, ActiveMirrors;
    if e.m.id in s.pending {
      ResponseParts(s, h, e);
      ReplyLedger(h, e);
      ReplyTables(s, h, e);
      ReplyRecords(s, h, e);
      QuietKept(s.content, h, e);
    } else {
      UnknownReply(s, e.m);
      LedgerAppend(h, e);
      QuietStep(s, s, h, e);
    }
  }

  // ---------- Updates and everything else ----------

  /** A prompt that hears an update. */
  ghost function Hearing(content: bool, e: Event, kept: nat, p: Prompt): Prompt
    requires kept <= 131_072 && e.m.update.Some?
  {
    p.(agentText := p.agentText + if content && Speaks(e) then Fit(e.m.update.value.text, kept) else [],
       toolCalls := p.toolCalls + if Calls(e) then 1 else 0)
  }

  ghost predicate IsUpdateEvent(e: Event) {
    !e.client && e.m.rpc == SessionUpdate && e.m.update.Some?
  }

  /** An update reaches the prompt that the active table names. */
  lemma UpdateReaches(s: State, e: Event, i: nat)
    requires IsUpdateEvent(e) && s.textBytes <= 131_072 && i < |s.snapshot.prompts|
    requires e.m.update.value.sessionId in s.active && s.active[e.m.update.value.sessionId] == i
    ensures
      var t := OnUpdate(s, e.m);
      && t.content == s.content && t.pending == s.pending && t.active == s.active
      && t.snapshot.sessions == s.snapshot.sessions
      && t.snapshot.prompts == s.snapshot.prompts[i := Hearing(s.content, e, s.textBytes, s.snapshot.prompts[i])]
      && t.textBytes == s.textBytes + if s.content && Speaks(e) then |Fit(e.m.update.value.text, s.textBytes)| else 0
  {
    hide Retain, Fit;
    RetainFits(e.m.update.value.text, s.textBytes);
    var p := s.snapshot.prompts[i];
    assert p.agentText + [] == p.agentText;
    assert s.snapshot.prompts[i := p] == s.snapshot.prompts;
  }

  lemma UpdateMisses(s: State, e: Event)
    requires IsUpdateEvent(e)
    requires e.m.update.value.sessionId in s.active ==> s.active[e.m.update.value.sessionId] == -1
    ensures OnUpdate(s, e.m) == s
  {
  }

  /** The active table in terms of what a session waits for. */
  lemma ActiveHears(s: State, h: History, session: Bytes)
    requires Mirrors(s, h)
    ensures
      var w := Waiting(h, session);
      if |w| == 1 then
        session in s.active && s.active[session] == w[0] && w[0] < |s.snapshot.prompts| && w == [w[0]]
      else session in s.active ==> s.active[session] == -1
  {
    hide LedgerOf, IsRecord, EntryMirrors, Waiting, KeptBytes;
    assert ActiveMirrors(s.active, session, Waiting(h, session));
    WaitingSound(h, session);
    if |Waiting(h, session)| == 1 { assert WaitsFor(h, session, Waiting(h, session)[0]); }
  }

  lemma UpdateStep(s: State, h: History, e: Event)
    requires Inv(s) && Mirrors(s, h) && !e.client && e.m.rpc == SessionUpdate
    ensures Mirrors(OnUpdate(s, e.m), h + [e])
  {
    hide Inv, Mirrors, OnUpdate, LedgerOf, Waiting, Takes, Hearing;
    LedgerAppend(h, e);
    if e.m.update.None? {
      UndecodedParts(s, e.m);
      QuietStep(s, OnUpdate(s, e.m), h, e);
    } else {
      var session := e.m.update.value.sessionId;
      ActiveHears(s, h, session);
      InvTexts(s);
      if |Waiting(h, session)| == 1 {
        UpdateReaches(s, e, Waiting(h, session)[0]);
        HeardStep(s, OnUpdate(s, e.m), h, e, Waiting(h, session)[0]);
      } else {
        UpdateMisses(s, e);
        QuietStep(s, s, h, e);
      }
    }
  }

  lemma UndecodedParts(s: State, m: Message)
    requires m.update.None?
    ensures OnUpdate(s, m) == Flag(s)
  {
  }

  lemma HeardTables(s: State, t: State, h: History, e: Event)
    requires TablesMirror(s, h) && IsUpdateEvent(e) && t.pending == s.pending && t.active == s.active
    ensures TablesMirror(t, h + [e])
  {
    hide LedgerOf, EntryMirrors, Waiting, ActiveMirrors, Takes;
    LedgerAppend(h, e);
    forall id | id in s.pending ensures EntryMirrors(LedgerOf(h + [e]), h + [e], id, t.pending[id]) {
      EntryStays(LedgerOf(h), LedgerOf(h + [e]), h, e, id, s.pending[id]);
    }
    forall session ensures ActiveMirrors(t.active, session, Waiting(h + [e], session)) {
      QuietWaiting(h, e, session);
      assert ActiveMirrors(s.active, session, Waiting(h, session));
    }
  }

  lemma HeardKept(content: bool, h: History, e: Event)
    requires IsUpdateEvent(e) && |Waiting(h, e.m.update.value.sessionId)| == 1
    ensures KeptBytes(content, h + [e]) == KeptBytes(content, h) +
      if content && Speaks(e) then |Fit(e.m.update.value.text, KeptBytes(content, h))| else 0
  {
    hide LedgerOf, Waiting, KeptBytes, Fit, FitBlocks, Takes;
    KeptAppend(content, h, e);
    NoContent(content, h);
  }

  /** An update that the prompt number i hears changes its record and no other. */
  lemma HeardStep(s: State, t: State, h: History, e: Event, i: nat)
    requires Mirrors(s, h) && IsUpdateEvent(e) && Waiting(h, e.m.update.value.sessionId) == [i]
    requires s.textBytes <= 131_072 && i < |s.snapshot.prompts|
    requires t.content == s.content && t.pending == s.pending && t.active == s.active
    requires t.snapshot.sessions == s.snapshot.sessions
    requires t.snapshot.prompts == s.snapshot.prompts[i := Hearing(s.content, e, s.textBytes, s.snapshot.prompts[i])]
    requires t.textBytes ==
      s.textBytes + if s.content && Speaks(e) then |Fit(e.m.update.value.text, s.textBytes)| else 0
    ensures Mirrors(t, h + [e])
  {
    hide TablesMirror, LedgerOf, Waiting, Takes, IsRecord, KeptBytes, Fit, Hearing, StepsTo;
    LedgerAppend(h, e);
    HeardTables(s, t, h, e);
    HeardKept(s.content, h, e);
    forall j: nat | j < |s.snapshot.prompts|
      ensures StepsTo(s.content, h, e, s.snapshot.prompts, t.snapshot.prompts, j)
    {
      HeardRecord(s.content, h, e, i, j, s.snapshot.prompts, t.snapshot.prompts);
    }
    RecordsStep(s.content, h, e, s.snapshot.prompts, t.snapshot.prompts);
  }

  lemma HeardRecord(content: bool, h: History, e: Event, i: nat, j: nat, ps: seq<Prompt>, qs: seq<Prompt>)
    requires IsUpdateEvent(e) && Waiting(h, e.m.update.value.sessionId) == [i] && i < |ps| && j < |ps|
    requires |ps| == |LedgerOf(h).taken| && qs == ps[i := Hearing(content, e, KeptBytes(content, h), ps[i])]
    ensures StepsTo(content, h, e, ps, qs, j)
  {
    hide LedgerOf, Waiting, KeptBytes, Fit, Speaks, Calls;
    assert ps[j].agentText + [] == ps[j].agentText;
    assert HeardBy(h, e, j) <==> i == j by { assert [i] == [j] <==> [i][0] == [j][0]; }
  }

  lemma OtherStep(s: State, h: History, e: Event)
    requires Mirrors(s, h) && !Requests(e) && !Replies(e) && (e.client || e.m.rpc != SessionUpdate)
    ensures Mirrors(OnMessage(s, e.client, e.m), h + [e])
  {
    hide OnRequest, OnResponse, OnUpdate, LedgerOf, EntryMirrors, Waiting, Takes, IsRecord, KeptBytes, ActiveMirrors;
    FollowedTracked(e);
    LedgerAppend(h, e);
    QuietStep(s, OnMessage(s, e.client, e.m), h, e);
  }

  lemma MessageStep(s: State, h: History, e: Event)
    requires Inv(s) && Mirrors(s, h)
    ensures Mirrors(OnMessage(s, e.client, e.m), h + [e])
  {
    hide Inv, Mirrors, OnRequest, OnResponse, OnUpdate, AuthStatus;
    FollowedTracked(e);
    if Requests(e) {
      RequestStep(s, h, e);
    } else if Replies(e) {
      ReplyStep(s, h, e);
    } else if !e.client && e.m.rpc == SessionUpdate {
      UpdateStep(s, h, e);
    } else {
      OtherStep(s, h, e);
    }
  }

  /** After every history, complete or not: the sessions and the open requests are those that the history took, and
      each prompt record has the session, the texts, the calls and the outcome that the history says. */
  lemma {:induction false} EveryRunMirrors(content: bool, h: History)
    ensures
      var s := MessageRun(content, h);
      Inv(s) && s.content == content && !s.snapshot.final && Mirrors(s, h)
  {
    if h == [] {
      NothingMirrored(content);
    } else {
      hide Inv, Mirrors, OnMessage;
      var before, e := h[..|h| - 1], h[|h| - 1];
      assert before + [e] == h;
      EveryRunMirrors(content, before);
      var s := MessageRun(content, before);
      MessageKeepsInv(s, e.client, e.m);
      MessageStep(s, before, e);
      SameFrameFacts(s, OnMessage(s, e.client, e.m));
    }
  }

  lemma SameFrameFacts(s: State, t: State)
    ensures SameFrame(s, t) ==> t.content == s.content && t.snapshot.final == s.snapshot.final
  {
  }

  lemma NothingMirrored(content: bool)
    ensures Inv(Initial(content)) && Mirrors(Initial(content), [])
  {
    InitialInv(content);
  }

  // ---------- After an overlap ----------

  /** While no prompt of the session is answered, its waiting prompts only grow. */
  lemma {:induction false} WaitingGrows(h: History, more: History, session: Bytes)
    requires forall k | 0 <= k < |more| :: !RepliesFor(LedgerOf(h + more[..k]), h + more[..k], more[k], session)
    ensures |Waiting(h, session)| <= |Waiting(h + more, session)|
  {
    hide LedgerOf, Waiting, RepliesFor, Takes, IsPromptFor;
    if more == [] {
      assert h + more == h;
    } else {
      var n := |more| - 1;
      assert forall k | 0 <= k < n :: more[..n][..k] == more[..k];
      WaitingGrows(h, more[..n], session);
      assert (h + more[..n]) + [more[n]] == h + more;
      WaitingAppend(h + more[..n], more[n], session);
    }
  }

  /** Once two prompts of a session overlap, none of them hears anything until one of them is answered. */
  lemma OverlapSilences(content: bool, h: History, more: History, e: Event, session: Bytes)
    requires |Waiting(h, session)| >= 2
    requires forall k | 0 <= k < |more| :: !RepliesFor(LedgerOf(h + more[..k]), h + more[..k], more[k], session)
    requires IsUpdateEvent(e) && e.m.update.value.sessionId == session
    ensures MessageRun(content, h + more + [e]).snapshot.prompts == MessageRun(content, h + more).snapshot.prompts
  {
    hide LedgerOf, Waiting, RepliesFor, Mirrors, OnUpdate, OnMessage, MessageRun, Inv;
    WaitingGrows(h, more, session);
    EveryRunMirrors(content, h + more);
    var s := MessageRun(content, h + more);
    ActiveHears(s, h + more, session);
    UpdateMisses(s, e);
    MessageRunAppend(content, h + more, e);
    UpdateMessage(s, e);
  }

  lemma UpdateMessage(s: State, e: Event)
    requires IsUpdateEvent(e)
    ensures OnMessage(s, e.client, e.m) == OnUpdate(s, e.m)
  {
    hide OnUpdate;
  }
}
