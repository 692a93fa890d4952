/** A complete observation is exact: what the projection says is what the message history says. */
module AcpExact {
  import opened Utf8
  import opened AcpSnapshot
  import opened AcpMessages
  import opened AcpInvariant

  /** A message as it was received, with its sender. */
  datatype Event = Event(client: bool, m: Message)

  type History = seq<Event>

  // ---------- What a history says, without reference to the observer ----------

  predicate IsPrompt(e: Event) {
    e.client && e.m.rpc == SessionPrompt
  }

  predicate IsTracked(e: Event) {
    e.client && Tracked(e.m.rpc)
  }

  predicate Answers(e: Event, id: Bytes) {
    !e.client && e.m.rpc == NoMethod && e.m.id == id
  }

  /** Index of the first response to id at or after `from`; the length of h when there is none. */
  function NextAnswer(h: History, id: Bytes, from: nat): (a: nat)
    requires from <= |h|
    ensures from <= a <= |h|
    ensures a < |h| ==> Answers(h[a], id)
    ensures forall j | from <= j < a :: !Answers(h[j], id)
    decreases |h| - from
  {
    if from == |h| || Answers(h[from], id) then from else NextAnswer(h, id, from + 1)
  }

  function AnswerIndex(h: History, k: nat): (a: nat)
    requires k < |h|
    ensures k < a <= |h|
  {
    NextAnswer(h, h[k].m.id, k + 1)
  }

  /** Indices of the client's session/prompt requests, in order. */
  function PromptIndices(h: History): (ks: seq<nat>)
    ensures forall i | 0 <= i < |ks| :: ks[i] < |h|
    ensures forall i | 0 <= i < |ks| :: IsPrompt(h[ks[i]])
  {
    if h == [] then []
    else
      var n := |h| - 1;
      PromptIndices(h[..n]) + if IsPrompt(h[n]) then [n] else []
  }

  /** The agent text an event contributes to a session. */
  function ChunkOf(e: Event, session: Bytes): Bytes {
    if !e.client && e.m.rpc == SessionUpdate && e.m.update.Some? && e.m.update.value.sessionId == session &&
       e.m.update.value.kind == AgentMessageChunk && e.m.update.value.isText
    then e.m.update.value.text else []
  }

  function CallOf(e: Event, session: Bytes): nat {
    if !e.client && e.m.rpc == SessionUpdate && e.m.update.Some? && e.m.update.value.sessionId == session &&
       e.m.update.value.kind == ToolCall
    then 1 else 0
  }

  function ChunkText(h: History, lo: nat, hi: nat, session: Bytes): Bytes
    requires lo <= hi <= |h|
  {
    if lo == hi then [] else ChunkText(h, lo, hi - 1, session) + ChunkOf(h[hi - 1], session)
  }

  function CallCount(h: History, lo: nat, hi: nat, session: Bytes): nat
    requires lo <= hi <= |h|
  {
    if lo == hi then 0 else CallCount(h, lo, hi - 1, session) + CallOf(h[hi - 1], session)
  }

  function BlocksText(blocks: seq<Block>): Bytes {
    if blocks == [] then []
    else
      var last := blocks[|blocks| - 1];
      BlocksText(blocks[..|blocks| - 1]) + if last.isText then last.text else []
  }

  /** State and stop reason that a reply reports. */
  function Outcome(m: Message): (PromptState, StopReason) {
    if m.error.Error? || m.result.None? then (Failed, NoReason)
    else match m.result.value.stopReason
      case StopCancelled => (Cancelled, StopCancelled)
      case EndTurn => (Completed, EndTurn)
      case MaxTokens => (Completed, MaxTokens)
      case MaxTurnRequests => (Completed, MaxTurnRequests)
      case Refusal => (Completed, Refusal)
      case _ => (Completed, OtherReason)
  }

  /** The record p says exactly what the history says about the prompt request at index k: its session, its
      whole user text, everything the agent said and called before replying, and the reply. */
  predicate ExactPrompt(content: bool, h: History, k: nat, p: Prompt) {
    && k < |h| && h[k].m.params.Some?
    && var session := h[k].m.params.value.sessionId;
    && var a := AnswerIndex(h, k);
    && p.sessionId == session
    && p.userText == (if content then BlocksText(h[k].m.params.value.blocks) else [])
    && p.agentText == (if content then ChunkText(h, k + 1, a, session) else [])
    && p.toolCalls == CallCount(h, k + 1, a, session)
    && (p.state, p.stopReason) == if a < |h| then Outcome(h[a].m) else (Pending, NoReason)
  }

  predicate ExactAt(content: bool, h: History, prompts: seq<Prompt>, i: nat) {
    i < |prompts| && i < |PromptIndices(h)| && ExactPrompt(content, h, PromptIndices(h)[i], prompts[i])
  }

  /** The prompt list is the client's session/prompt requests, one for one and in order. */
  predicate ExactPrompts(content: bool, h: History, prompts: seq<Prompt>) {
    && |prompts| == |PromptIndices(h)|
    && forall i: nat | i < |prompts| :: ExactAt(content, h, prompts, i)
  }

  predicate AllAnswered(h: History) {
    forall k | 0 <= k < |h| && IsTracked(h[k]) :: AnswerIndex(h, k) < |h|
  }

  /** No session has a second prompt requested before the first is answered. */
  predicate NoOverlap(h: History) {
    forall i, j | 0 <= i < j < |PromptIndices(h)| && SameSession(h, PromptIndices(h)[i], PromptIndices(h)[j]) ::
      AnswerIndex(h, PromptIndices(h)[i]) < PromptIndices(h)[j]
  }

  predicate SameSession(h: History, k: nat, l: nat) {
    && k < |h| && l < |h| && h[k].m.params.Some? && h[l].m.params.Some?
    && h[k].m.params.value.sessionId == h[l].m.params.value.sessionId
  }

  lemma {:induction false} PromptIndicesComplete(h: History)
    ensures forall i, j | 0 <= i < j < |PromptIndices(h)| :: PromptIndices(h)[i] < PromptIndices(h)[j]
    ensures forall k | 0 <= k < |h| && IsPrompt(h[k]) :: k in PromptIndices(h)
  {
    if h != [] {
      PromptIndicesComplete(h[..|h| - 1]);
    }
  }

  // ---------- Histories grow by one event ----------

  lemma {:induction false} NextAnswerExtend(h: History, e: Event, id: Bytes, from: nat)
    requires from <= |h|
    ensures var a := NextAnswer(h, id, from);
      NextAnswer(h + [e], id, from) == if a < |h| || Answers(e, id) then a else |h| + 1
    decreases |h| - from
  {
    if from < |h| && !Answers(h[from], id) {
      NextAnswerExtend(h, e, id, from + 1);
    }
  }

  lemma PromptIndicesExtend(h: History, e: Event)
    ensures PromptIndices(h + [e]) == PromptIndices(h) + if IsPrompt(e) then [|h|] else []
  {
    assert (h + [e])[..|h|] == h;
  }

  lemma {:induction false} SliceExtend(h: History, e: Event, lo: nat, hi: nat, session: Bytes)
    requires lo <= hi <= |h|
    ensures ChunkText(h + [e], lo, hi, session) == ChunkText(h, lo, hi, session)
    ensures CallCount(h + [e], lo, hi, session) == CallCount(h, lo, hi, session)
  {
    if lo < hi {
      SliceExtend(h, e, lo, hi - 1, session);
    }
  }

  /** What one more event does to the record of the prompt requested at k. */
  function NextRecord(content: bool, h: History, e: Event, k: nat, p: Prompt): Prompt
    requires k < |h|
  {
    if AnswerIndex(h, k) < |h| then p
    else if Answers(e, h[k].m.id) then Settled(p, e.m)
    else
      p.(agentText := p.agentText + if content then ChunkOf(e, p.sessionId) else [],
         toolCalls := p.toolCalls + CallOf(e, p.sessionId))
  }

  lemma SettledOutcome(p: Prompt, m: Message)
    requires p.stopReason == NoReason
    ensures (Settled(p, m).state, Settled(p, m).stopReason) == Outcome(m)
  {
  }

  lemma ExactPromptExtend(content: bool, h: History, e: Event, k: nat, p: Prompt)
    requires ExactPrompt(content, h, k, p)
    ensures ExactPrompt(content, h + [e], k, NextRecord(content, h, e, k, p))
  {
    hide ChunkText, CallCount, ChunkOf, CallOf, BlocksText, NextAnswer, Outcome;
    var a := AnswerIndex(h, k);
    var session := h[k].m.params.value.sessionId;
    assert (h + [e])[k] == h[k];
    NextAnswerExtend(h, e, h[k].m.id, k + 1);
    SliceExtend(h, e, k + 1, a, session);
    if a == |h| {
      if Answers(e, h[k].m.id) {
        SettledOutcome(p, e.m);
      } else {
        SliceLast(h, e, k + 1, session);
      }
    }
  }

  lemma SliceLast(h: History, e: Event, lo: nat, session: Bytes)
    requires lo <= |h|
    ensures ChunkText(h + [e], lo, |h| + 1, session) == ChunkText(h, lo, |h|, session) + ChunkOf(e, session)
    ensures CallCount(h + [e], lo, |h| + 1, session) == CallCount(h, lo, |h|, session) + CallOf(e, session)
  {
    SliceExtend(h, e, lo, |h|, session);
  }

  /** A freshly opened prompt. */
  lemma ExactPromptNew(content: bool, h: History, e: Event, p: Prompt)
    requires e.m.params.Some? && p.sessionId == e.m.params.value.sessionId
    requires p.userText == if content then BlocksText(e.m.params.value.blocks) else []
    requires p.agentText == [] && p.toolCalls == 0 && p.state == Pending && p.stopReason == NoReason
    ensures ExactPrompt(content, h + [e], |h|, p)
  {
  }

  lemma {:induction false} RetainedWhole(blocks: seq<Block>, total: nat)
    requires !RetainBlocks(blocks, total).lost
    ensures RetainBlocks(blocks, total).text == BlocksText(blocks)
  {
    if blocks != [] {
      RetainedWhole(blocks[..|blocks| - 1], total);
    }
  }

  // ---------- What the observer's tables mean while nothing has been missed ----------

  /** The open request r under id is the tracked, still unanswered request at index k. */
  predicate OpenEntry(h: History, id: Bytes, k: nat, r: Request) {
    && k < |h| && IsTracked(h[k]) && h[k].m.id == id && AnswerIndex(h, k) == |h| && r.rpc == h[k].m.rpc
    && (r.rpc == SessionPrompt ==>
          && 0 <= r.prompt < |PromptIndices(h)| && PromptIndices(h)[r.prompt] == k
          && h[k].m.params.Some? && h[k].m.params.value.sessionId == r.session)
  }

  /** The pending table lists exactly the unanswered tracked requests. */
  predicate TracksRequests(pending: map<Bytes, Request>, h: History, open: map<Bytes, nat>) {
    && open.Keys == pending.Keys
    && (forall id | id in pending :: OpenEntry(h, id, open[id], pending[id]))
    && (forall k | 0 <= k < |h| && IsTracked(h[k]) && AnswerIndex(h, k) == |h| ::
          h[k].m.id in open && open[h[k].m.id] == k)
  }

  predicate Replies(e: Event) {
    !e.client && e.m.rpc == NoMethod
  }

  /** The open requests once event number n has arrived. */
  function NextOpen(open: map<Bytes, nat>, e: Event, n: nat): map<Bytes, nat> {
    if IsTracked(e) then open[e.m.id := n] else if Replies(e) then open - {e.m.id} else open
  }

  /** The tracked requests that a history leaves unanswered, by id. */
  function OpenTable(h: History): (open: map<Bytes, nat>)
    ensures forall id | id in open :: open[id] < |h| && IsTracked(h[open[id]]) && h[open[id]].m.id == id
  {
    if h == [] then map[] else NextOpen(OpenTable(h[..|h| - 1]), h[|h| - 1], |h| - 1)
  }

  lemma OpenTableAppend(h: History, e: Event)
    ensures OpenTable(h + [e]) == NextOpen(OpenTable(h), e, |h|)
  {
    hide NextOpen;
    assert (h + [e])[..|h|] == h;
  }

  /** The active table lists exactly the pending prompts, by session. */
  predicate TracksActive(active: map<Bytes, int>, prompts: seq<Prompt>) {
    && (forall i | 0 <= i < |prompts| && prompts[i].state == Pending ::
          prompts[i].sessionId in active && active[prompts[i].sessionId] == i)
    && (forall session | session in active :: PendingAt(prompts, active[session], session))
  }

  ghost predicate Tracks(s: State, h: History, open: map<Bytes, nat>) {
    && TracksRequests(s.pending, h, open)
    && TracksActive(s.active, s.snapshot.prompts)
    && ExactPrompts(s.content, h, s.snapshot.prompts)
    && NoOverlap(h)
  }

  lemma OpenEntryExtend(h: History, e: Event, id: Bytes, k: nat, r: Request)
    requires OpenEntry(h, id, k, r) && !Answers(e, id)
    ensures OpenEntry(h + [e], id, k, r)
  {
    hide PromptIndices, NextAnswer;
    NextAnswerExtend(h, e, id, k + 1);
    PromptIndicesExtend(h, e);
  }

  lemma StillOpen(h: History, e: Event, k: nat)
    requires k < |h| && AnswerIndex(h + [e], k) == |h| + 1
    ensures AnswerIndex(h, k) == |h| && !Answers(e, h[k].m.id)
  {
    NextAnswerExtend(h, e, h[k].m.id, k + 1);
  }

  lemma TrackedClient(e: Event)
    ensures IsTracked(e) ==> e.client
  {
  }

  lemma RequestsQuiet(pending: map<Bytes, Request>, h: History, open: map<Bytes, nat>, e: Event)
    requires TracksRequests(pending, h, open)
    requires !IsTracked(e) && forall id | id in pending :: !Answers(e, id)
    ensures TracksRequests(pending, h + [e], open)
  {
    hide OpenEntry, AnswerIndex, IsTracked;
    var h' := h + [e];
    forall id | id in pending ensures OpenEntry(h', id, open[id], pending[id]) {
      OpenEntryExtend(h, e, id, open[id], pending[id]);
    }
    forall k | 0 <= k < |h'| && IsTracked(h'[k]) && AnswerIndex(h', k) == |h'|
      ensures h'[k].m.id in open && open[h'[k].m.id] == k
    {
      StillOpen(h, e, k);
    }
  }

  lemma NewEntry(h: History, e: Event, r: Request)
    requires IsTracked(e) && r.rpc == e.m.rpc
    requires r.rpc == SessionPrompt ==>
      r.prompt == |PromptIndices(h)| && e.m.params.Some? && e.m.params.value.sessionId == r.session
    ensures OpenEntry(h + [e], e.m.id, |h|, r)
  {
    PromptIndicesExtend(h, e);
  }

  lemma RequestsAdd(pending: map<Bytes, Request>, h: History, open: map<Bytes, nat>, e: Event, r: Request)
    requires TracksRequests(pending, h, open)
    requires IsTracked(e) && e.m.id !in pending && r.rpc == e.m.rpc
    requires r.rpc == SessionPrompt ==>
      r.prompt == |PromptIndices(h)| && e.m.params.Some? && e.m.params.value.sessionId == r.session
    ensures TracksRequests(pending[e.m.id := r], h + [e], open[e.m.id := |h|])
  {
    NewEntry(h, e, r);
    TrackedClient(e);
    hide OpenEntry, AnswerIndex, PromptIndices, IsTracked;
    var h', open' := h + [e], open[e.m.id := |h|];
    assert open'.Keys == pending[e.m.id := r].Keys;
    forall id | id in pending ensures OpenEntry(h', id, open[id], pending[id]) {
      OpenEntryExtend(h, e, id, open[id], pending[id]);
    }
    forall k | 0 <= k < |h'| && IsTracked(h'[k]) && AnswerIndex(h', k) == |h'|
      ensures h'[k].m.id in open' && open'[h'[k].m.id] == k
    {
      if k < |h| { StillOpen(h, e, k); }
    }
  }

  lemma RequestsRemove(pending: map<Bytes, Request>, h: History, open: map<Bytes, nat>, e: Event)
    requires TracksRequests(pending, h, open)
    requires !e.client && e.m.rpc == NoMethod && e.m.id in pending
    ensures TracksRequests(pending - {e.m.id}, h + [e], open - {e.m.id})
  {
    hide OpenEntry, AnswerIndex, IsTracked;
    var h', open' := h + [e], open - {e.m.id};
    TrackedClient(e);
    forall id | id in pending && id != e.m.id ensures OpenEntry(h', id, open[id], pending[id]) {
      OpenEntryExtend(h, e, id, open[id], pending[id]);
    }
    forall k | 0 <= k < |h'| && IsTracked(h'[k]) && AnswerIndex(h', k) == |h'|
      ensures h'[k].m.id in open' && open'[h'[k].m.id] == k
    {
      StillOpen(h, e, k);
    }
  }

  predicate StepAt(content: bool, h: History, e: Event, ps: seq<Prompt>, qs: seq<Prompt>, i: nat) {
    && i < |ps| && i < |qs| && i < |PromptIndices(h)|
    && qs[i] == NextRecord(content, h, e, PromptIndices(h)[i], ps[i])
  }

  lemma ExactPromptsExtend(content: bool, h: History, e: Event, ps: seq<Prompt>, qs: seq<Prompt>)
    requires ExactPrompts(content, h, ps)
    requires |qs| == |ps| + if IsPrompt(e) then 1 else 0
    requires forall i: nat | i < |ps| :: StepAt(content, h, e, ps, qs, i)
    requires IsPrompt(e) ==> ExactPrompt(content, h + [e], |h|, qs[|ps|])
    ensures ExactPrompts(content, h + [e], qs)
  {
    hide ExactPrompt, NextRecord, PromptIndices, StepAt;
    PromptIndicesExtend(h, e);
    forall i: nat | i < |ps| ensures ExactAt(content, h + [e], qs, i) {
      ExactStepAt(content, h, e, ps, qs, i);
    }
  }

  lemma ExactStepAt(content: bool, h: History, e: Event, ps: seq<Prompt>, qs: seq<Prompt>, i: nat)
    requires ExactAt(content, h, ps, i) && StepAt(content, h, e, ps, qs, i)
    ensures ExactAt(content, h + [e], qs, i)
  {
    hide ExactPrompt, NextRecord, PromptIndices;
    PromptIndicesExtend(h, e);
    ExactPromptExtend(content, h, e, PromptIndices(h)[i], ps[i]);
  }

  lemma NoOverlapExtend(h: History, e: Event)
    requires NoOverlap(h)
    requires IsPrompt(e) ==> forall i | 0 <= i < |PromptIndices(h)| ::
      SameSession(h + [e], PromptIndices(h)[i], |h|) ==> AnswerIndex(h, PromptIndices(h)[i]) < |h|
    ensures NoOverlap(h + [e])
  {
    hide PromptIndices, AnswerIndex, SameSession;
    var h' := h + [e];
    PromptIndicesExtend(h, e);
    var ks := PromptIndices(h');
    forall i, j | 0 <= i < j < |ks| && SameSession(h', ks[i], ks[j]) ensures AnswerIndex(h', ks[i]) < ks[j] {
      if j < |PromptIndices(h)| { SameBefore(h, e, ks[i], ks[j]); }
      AnswerKept(h, e, ks[i]);
    }
  }

  lemma SameBefore(h: History, e: Event, k: nat, l: nat)
    requires k < |h| && l < |h| && SameSession(h + [e], k, l)
    ensures SameSession(h, k, l)
  {
  }

  /** An answer that has arrived stays. */
  lemma AnswerKept(h: History, e: Event, k: nat)
    requires k < |h|
    ensures AnswerIndex(h, k) < |h| ==> AnswerIndex(h + [e], k) == AnswerIndex(h, k)
  {
    NextAnswerExtend(h, e, h[k].m.id, k + 1);
  }

  /** An exact record is pending exactly while its request is unanswered. */
  lemma ExactPending(content: bool, h: History, k: nat, p: Prompt)
    requires ExactPrompt(content, h, k, p)
    ensures p.state == Pending <==> AnswerIndex(h, k) == |h|
    ensures p.state == Pending ==> p.stopReason == NoReason
    ensures p.sessionId == h[k].m.params.value.sessionId
  {
    hide ChunkText, CallCount, BlocksText;
  }

  // ---------- One message of a history in which nothing has been missed ----------

  /** An event that neither answers the request at k nor speaks for its session leaves its record alone. */
  lemma QuietRecord(content: bool, h: History, e: Event, k: nat, p: Prompt)
    requires k < |h|
    requires AnswerIndex(h, k) == |h| ==>
      !Answers(e, h[k].m.id) && (content ==> ChunkOf(e, p.sessionId) == []) && CallOf(e, p.sessionId) == 0
    ensures NextRecord(content, h, e, k, p) == p
  {
  }

  /** The prompt list under an event that concerns no pending prompt. */
  lemma QuietPrompts(content: bool, h: History, e: Event, ps: seq<Prompt>)
    requires ExactPrompts(content, h, ps) && !IsPrompt(e)
    requires forall i: nat | i < |ps| && ps[i].state == Pending ::
      !Answers(e, h[PromptIndices(h)[i]].m.id) && (content ==> ChunkOf(e, ps[i].sessionId) == []) &&
        CallOf(e, ps[i].sessionId) == 0
    ensures ExactPrompts(content, h + [e], ps)
  {
    hide PromptIndices, ExactPrompt, NextRecord, Answers, ChunkOf, CallOf;
    forall i: nat | i < |ps| ensures StepAt(content, h, e, ps, ps, i) {
      assert ExactAt(content, h, ps, i);
      ExactPending(content, h, PromptIndices(h)[i], ps[i]);
      QuietRecord(content, h, e, PromptIndices(h)[i], ps[i]);
    }
    ExactPromptsExtend(content, h, e, ps, ps);
  }

  /** Tables and prompts unchanged by an event that is neither tracked nor an answer nor heard. */
  lemma TracksQuiet(s: State, t: State, h: History, open: map<Bytes, nat>, e: Event)
    requires Tracks(s, h, open) && !IsTracked(e)
    requires t.content == s.content && t.pending == s.pending && t.active == s.active &&
      t.snapshot.prompts == s.snapshot.prompts
    requires forall id | id in s.pending :: !Answers(e, id)
    requires forall i: nat | i < |s.snapshot.prompts| && s.snapshot.prompts[i].state == Pending ::
      && (s.content ==> ChunkOf(e, s.snapshot.prompts[i].sessionId) == [])
      && CallOf(e, s.snapshot.prompts[i].sessionId) == 0
    ensures Tracks(t, h + [e], open)
  {
    hide TracksRequests, TracksActive, NoOverlap, ExactPrompts, ChunkOf, CallOf, PromptIndices;
    RequestsQuiet(s.pending, h, open, e);
    NoOverlapExtend(h, e);
    forall i: nat | i < |s.snapshot.prompts| && s.snapshot.prompts[i].state == Pending
      ensures i < |PromptIndices(h)| && !Answers(e, h[PromptIndices(h)[i]].m.id)
    {
      PendingIsOpen(s, h, open, i);
    }
    assert |PromptIndices(h)| == |s.snapshot.prompts| by { ExactLength(s.content, h, s.snapshot.prompts); }
    QuietPrompts(s.content, h, e, s.snapshot.prompts);
  }

  lemma ExactLength(content: bool, h: History, ps: seq<Prompt>)
    requires ExactPrompts(content, h, ps)
    ensures |ps| == |PromptIndices(h)|
  {
  }

  /** A pending prompt's request is in the pending table under its own id. */
  lemma PendingIsOpen(s: State, h: History, open: map<Bytes, nat>, i: nat)
    requires TracksRequests(s.pending, h, open) && ExactPrompts(s.content, h, s.snapshot.prompts)
    requires i < |s.snapshot.prompts| && s.snapshot.prompts[i].state == Pending
    ensures i < |PromptIndices(h)|
    ensures var id := h[PromptIndices(h)[i]].m.id;
      id in s.pending && s.pending[id].rpc == SessionPrompt && s.pending[id].prompt == i
  {
    assert ExactAt(s.content, h, s.snapshot.prompts, i);
    var k := PromptIndices(h)[i];
    ExactPending(s.content, h, k, s.snapshot.prompts[i]);
    assert IsTracked(h[k]) && AnswerIndex(h, k) == |h|;
    assert OpenEntry(h, h[k].m.id, k, s.pending[h[k].m.id]);
    PromptIndicesComplete(h);
  }

  lemma TracksPlainRequest(s: State, t: State, h: History, open: map<Bytes, nat>, e: Event, r: Request)
    requires Tracks(s, h, open) && IsTracked(e) && !IsPrompt(e) && e.m.id !in s.pending && r.rpc == e.m.rpc
    requires t.content == s.content && t.active == s.active && t.snapshot.prompts == s.snapshot.prompts
    requires t.pending == s.pending[e.m.id := r]
    ensures Tracks(t, h + [e], open[e.m.id := |h|])
  {
    hide TracksRequests, TracksActive, NoOverlap, ExactPrompts, PromptIndices;
    RequestsAdd(s.pending, h, open, e, r);
    NoOverlapExtend(h, e);
    ExactLength(s.content, h, s.snapshot.prompts);
    QuietPrompts(s.content, h, e, s.snapshot.prompts);
  }

  lemma OpenedPromptExact(s: State, h: History, e: Event)
    requires ExactPrompts(s.content, h, s.snapshot.prompts) && IsPrompt(e) && e.m.params.Some?
    requires !OpenPrompt(s, e.m).snapshot.incomplete
    ensures ExactPrompts(s.content, h + [e], OpenPrompt(s, e.m).snapshot.prompts)
  {
    hide PromptIndices, ExactPrompt, NextRecord, RetainBlocks;
    var ps, qs := s.snapshot.prompts, OpenPrompt(s, e.m).snapshot.prompts;
    if s.content {
      RetainedWhole(e.m.params.value.blocks, s.textBytes);
    }
    ExactPromptNew(s.content, h, e, qs[|ps|]);
    forall i: nat | i < |ps| ensures StepAt(s.content, h, e, ps, qs, i) {
      assert ExactAt(s.content, h, ps, i);
      QuietRecord(s.content, h, e, PromptIndices(h)[i], ps[i]);
    }
    ExactPromptsExtend(s.content, h, e, ps, qs);
  }

  lemma OpenedPromptOverlap(s: State, h: History, e: Event)
    requires ExactPrompts(s.content, h, s.snapshot.prompts) && TracksActive(s.active, s.snapshot.prompts)
    requires NoOverlap(h) && IsPrompt(e) && e.m.params.Some? && e.m.params.value.sessionId !in s.active
    ensures NoOverlap(h + [e])
  {
    hide PromptIndices, ExactPrompt;
    forall i | 0 <= i < |PromptIndices(h)| && SameSession(h + [e], PromptIndices(h)[i], |h|)
      ensures AnswerIndex(h, PromptIndices(h)[i]) < |h|
    {
      assert ExactAt(s.content, h, s.snapshot.prompts, i);
      ExactPending(s.content, h, PromptIndices(h)[i], s.snapshot.prompts[i]);
    }
    hide NoOverlap, TracksActive;
    NoOverlapExtend(h, e);
  }

  /** What opening a prompt does to the tables when nothing is lost. */
  lemma OpenedTables(s: State, m: Message)
    requires m.params.Some? && !OpenPrompt(s, m).snapshot.incomplete
    ensures
      var t, session, n := OpenPrompt(s, m), m.params.value.sessionId, |s.snapshot.prompts|;
      && t.content == s.content && session !in s.active && t.active == s.active[session := n]
      && t.pending == s.pending[m.id := Request(SessionPrompt, session, m.params.value.cwd, n)]
      && |t.snapshot.prompts| == n + 1 && t.snapshot.prompts == s.snapshot.prompts + [t.snapshot.prompts[n]]
      && t.snapshot.prompts[n].state == Pending && t.snapshot.prompts[n].sessionId == session
  {
    hide RetainBlocks;
  }

  lemma OpenedActive(active: map<Bytes, int>, ps: seq<Prompt>, p: Prompt)
    requires TracksActive(active, ps) && p.state == Pending && p.sessionId !in active
    ensures TracksActive(active[p.sessionId := |ps|], ps + [p])
  {
  }

  lemma TracksOpenPrompt(s: State, h: History, open: map<Bytes, nat>, e: Event)
    requires Tracks(s, h, open) && IsPrompt(e) && e.m.params.Some? && e.m.id !in s.pending
    requires !OpenPrompt(s, e.m).snapshot.incomplete
    ensures Tracks(OpenPrompt(s, e.m), h + [e], open[e.m.id := |h|])
  {
    hide OpenPrompt, ExactPrompts, NoOverlap, TracksRequests, TracksActive, PromptIndices;
    var t := OpenPrompt(s, e.m);
    OpenedTables(s, e.m);
    OpenedPromptExact(s, h, e);
    OpenedPromptOverlap(s, h, e);
    ExactLength(s.content, h, s.snapshot.prompts);
    OpenedActive(s.active, s.snapshot.prompts, t.snapshot.prompts[|s.snapshot.prompts|]);
    RequestsAdd(s.pending, h, open, e, t.pending[e.m.id]);
  }

  /** The reply to an open prompt settles that prompt's record and no other. */
  lemma ClosedPromptExact(s: State, h: History, open: map<Bytes, nat>, e: Event)
    requires TracksRequests(s.pending, h, open) && ExactPrompts(s.content, h, s.snapshot.prompts)
    requires !e.client && e.m.rpc == NoMethod && e.m.id in s.pending && s.pending[e.m.id].rpc == SessionPrompt
    ensures 0 <= s.pending[e.m.id].prompt < |s.snapshot.prompts|
    ensures var i := s.pending[e.m.id].prompt;
      ExactPrompts(s.content, h + [e], s.snapshot.prompts[i := Settled(s.snapshot.prompts[i], e.m)])
  {
    assert OpenEntry(h, e.m.id, open[e.m.id], s.pending[e.m.id]);
    var ps, i := s.snapshot.prompts, s.pending[e.m.id].prompt;
    var qs := ps[i := Settled(ps[i], e.m)];
    hide PromptIndices, ExactPrompt, Settled, ChunkOf, CallOf;
    forall j: nat | j < |ps| ensures StepAt(s.content, h, e, ps, qs, j) {
      assert ExactAt(s.content, h, ps, j);
      var k := PromptIndices(h)[j];
      if j != i {
        ExactPending(s.content, h, k, ps[j]);
        if ps[j].state == Pending { PendingIsOpen(s, h, open, j); }
        SilentReply(e, ps[j].sessionId);
        QuietRecord(s.content, h, e, k, ps[j]);
      }
    }
    ExactPromptsExtend(s.content, h, e, ps, qs);
  }

  lemma SilentReply(e: Event, session: Bytes)
    requires e.client || e.m.rpc != SessionUpdate
    ensures ChunkOf(e, session) == [] && CallOf(e, session) == 0
  {
  }

  lemma SettledActive(active: map<Bytes, int>, ps: seq<Prompt>, i: nat, q: Prompt)
    requires TracksActive(active, ps)
    requires i < |ps| && ps[i].state == Pending && q.state != Pending
    ensures TracksActive(active - {ps[i].sessionId}, ps[i := q])
  {
  }

  lemma TracksClosePrompt(s: State, h: History, open: map<Bytes, nat>, e: Event)
    requires Inv(s) && Tracks(s, h, open)
    requires !e.client && e.m.rpc == NoMethod && e.m.id in s.pending && s.pending[e.m.id].rpc == SessionPrompt
    ensures Tracks(OnResponse(s, e.m), h + [e], open - {e.m.id})
  {
    var r := s.pending[e.m.id];
    assert RequestInv(s.snapshot.prompts, r);
    hide Inv, OnResponse, Settled, TracksRequests, TracksActive, NoOverlap, ExactPrompts, PromptIndices;
    var p := s.snapshot.prompts[r.prompt];
    CloseTables(s, e.m);
    SettledFacts(p, e.m);
    ClosedPromptExact(s, h, open, e);
    SettledActive(s.active, s.snapshot.prompts, r.prompt, Settled(p, e.m));
    RequestsRemove(s.pending, h, open, e);
    NoOverlapExtend(h, e);
  }

  lemma PlainSettleTables(s: State, r: Request, m: Message)
    requires r.rpc != SessionPrompt
    ensures var t := Settle(s, r, m);
      && t.content == s.content && t.pending == s.pending && t.active == s.active
      && t.snapshot.prompts == s.snapshot.prompts
  {
    hide Bounded, HasSession;
  }

  lemma TracksPlainAnswer(s: State, h: History, open: map<Bytes, nat>, e: Event)
    requires Tracks(s, h, open)
    requires !e.client && e.m.rpc == NoMethod && e.m.id in s.pending && s.pending[e.m.id].rpc != SessionPrompt
    ensures Tracks(OnResponse(s, e.m), h + [e], open - {e.m.id})
  {
    hide Settle, TracksRequests, TracksActive, NoOverlap, ExactPrompts, PromptIndices, ChunkOf, CallOf;
    PlainSettleTables(Answer(s, e.m), s.pending[e.m.id], e.m);
    RequestsRemove(s.pending, h, open, e);
    NoOverlapExtend(h, e);
    ExactLength(s.content, h, s.snapshot.prompts);
    forall i: nat | i < |s.snapshot.prompts| && s.snapshot.prompts[i].state == Pending
      ensures !Answers(e, h[PromptIndices(h)[i]].m.id)
      ensures ChunkOf(e, s.snapshot.prompts[i].sessionId) == [] && CallOf(e, s.snapshot.prompts[i].sessionId) == 0
    {
      PendingIsOpen(s, h, open, i);
      SilentReply(e, s.snapshot.prompts[i].sessionId);
    }
    QuietPrompts(s.content, h, e, s.snapshot.prompts);
  }

  /** An update heard by the active prompt of its session extends that prompt's record and no other. */
  lemma HeardPromptExact(s: State, h: History, e: Event, i: nat, q: Prompt)
    requires TracksActive(s.active, s.snapshot.prompts) && ExactPrompts(s.content, h, s.snapshot.prompts)
    requires !e.client && e.m.rpc == SessionUpdate && e.m.update.Some?
    requires e.m.update.value.sessionId in s.active && s.active[e.m.update.value.sessionId] == i
    requires i < |s.snapshot.prompts|
    requires var p := s.snapshot.prompts[i];
      q == p.(agentText := p.agentText + if s.content then ChunkOf(e, p.sessionId) else [],
              toolCalls := p.toolCalls + CallOf(e, p.sessionId))
    ensures ExactPrompts(s.content, h + [e], s.snapshot.prompts[i := q])
  {
    var ps, qs := s.snapshot.prompts, s.snapshot.prompts[i := q];
    hide PromptIndices, ExactPrompt;
    forall j: nat | j < |ps| ensures StepAt(s.content, h, e, ps, qs, j) {
      assert ExactAt(s.content, h, ps, j);
      var k := PromptIndices(h)[j];
      ExactPending(s.content, h, k, ps[j]);
      if j == i {
        assert PendingAt(ps, i, e.m.update.value.sessionId);
      } else {
        QuietRecord(s.content, h, e, k, ps[j]);
      }
    }
    hide StepAt, TracksActive;
    ExactPromptsExtend(s.content, h, e, ps, qs);
  }

  lemma RewriteActive(active: map<Bytes, int>, ps: seq<Prompt>, i: nat, q: Prompt)
    requires TracksActive(active, ps) && i < |ps| && q.state == ps[i].state && q.sessionId == ps[i].sessionId
    ensures TracksActive(active, ps[i := q])
  {
  }

  lemma HeardUpdate(s: State, e: Event, i: nat)
    requires !e.client && e.m.rpc == SessionUpdate && e.m.update.Some?
    requires e.m.update.value.sessionId in s.active && s.active[e.m.update.value.sessionId] == i
    requires i < |s.snapshot.prompts| && s.snapshot.prompts[i].sessionId == e.m.update.value.sessionId
    requires !OnUpdate(s, e.m).snapshot.incomplete
    ensures var p := s.snapshot.prompts[i];
      var q := p.(agentText := p.agentText + if s.content then ChunkOf(e, p.sessionId) else [],
                  toolCalls := p.toolCalls + CallOf(e, p.sessionId));
      var t := OnUpdate(s, e.m);
      && t.snapshot.prompts == s.snapshot.prompts[i := q]
      && t.content == s.content && t.pending == s.pending && t.active == s.active
  {
    var p := s.snapshot.prompts[i];
    assert s.snapshot.prompts[i := p] == s.snapshot.prompts;
    assert p.agentText + [] == p.agentText;
  }

  lemma TracksUpdate(s: State, h: History, open: map<Bytes, nat>, e: Event)
    requires Tracks(s, h, open)
    requires !e.client && e.m.rpc == SessionUpdate && !OnUpdate(s, e.m).snapshot.incomplete
    ensures Tracks(OnUpdate(s, e.m), h + [e], open)
  {
    if e.m.update.value.sessionId in s.active {
      var i := s.active[e.m.update.value.sessionId];
      assert PendingAt(s.snapshot.prompts, i, e.m.update.value.sessionId);
      hide OnUpdate, TracksRequests, TracksActive, NoOverlap, ExactPrompts, PromptIndices, ChunkOf, CallOf;
      HeardUpdate(s, e, i);
      var q := OnUpdate(s, e.m).snapshot.prompts[i];
      HeardPromptExact(s, h, e, i, q);
      RewriteActive(s.active, s.snapshot.prompts, i, q);
      RequestsQuiet(s.pending, h, open, e);
      NoOverlapExtend(h, e);
    } else {
      hide TracksRequests, NoOverlap, ExactPrompts, PromptIndices;
      TracksQuiet(s, s, h, open, e);
    }
  }

  lemma TracksRequest(s: State, h: History, open: map<Bytes, nat>, e: Event)
    requires Tracks(s, h, open) && IsTracked(e) && !OnRequest(s, e.m).snapshot.incomplete
    ensures Tracks(OnRequest(s, e.m), h + [e], open[e.m.id := |h|])
  {
    hide Tracks, OpenPrompt, HasSession;
    if IsPrompt(e) {
      TracksOpenPrompt(s, h, open, e);
    } else {
      TracksPlainRequest(s, OnRequest(s, e.m), h, open, e, OnRequest(s, e.m).pending[e.m.id]);
    }
  }

  lemma TracksKeys(s: State, h: History, open: map<Bytes, nat>)
    requires Tracks(s, h, open)
    ensures open.Keys == s.pending.Keys
  {
    hide ExactPrompts, NoOverlap, TracksActive, OpenEntry;
  }

  lemma TracksReply(s: State, h: History, open: map<Bytes, nat>, e: Event)
    requires Inv(s) && Tracks(s, h, open) && Replies(e)
    ensures Tracks(OnResponse(s, e.m), h + [e], open - {e.m.id})
  {
    hide Tracks, Inv, OnResponse;
    TracksKeys(s, h, open);
    if e.m.id !in s.pending {
      UnknownReply(s, e.m);
      assert open - {e.m.id} == open;
      TracksQuiet(s, s, h, open, e);
    } else if s.pending[e.m.id].rpc == SessionPrompt {
      TracksClosePrompt(s, h, open, e);
    } else {
      TracksPlainAnswer(s, h, open, e);
    }
  }

  lemma TracksMessage(s: State, h: History, open: map<Bytes, nat>, e: Event)
    requires Inv(s) && Tracks(s, h, open)
    requires !OnMessage(s, e.client, e.m).snapshot.incomplete
    ensures Tracks(OnMessage(s, e.client, e.m), h + [e], NextOpen(open, e, |h|))
  {
    hide Tracks, Inv, OnResponse, OnUpdate, OnRequest;
    if IsTracked(e) {
      TracksRequest(s, h, open, e);
    } else if Replies(e) {
      TracksReply(s, h, open, e);
    } else if !e.client && e.m.rpc == SessionUpdate {
      TracksUpdate(s, h, open, e);
    } else {
      TracksQuiet(s, OnMessage(s, e.client, e.m), h, open, e);
    }
  }

  lemma UnknownReply(s: State, m: Message)
    requires m.id !in s.pending
    ensures OnResponse(s, m) == s
  {
  }

  // ---------- Whole histories ----------

  /** The observer after a history of messages. */
  function MessageRun(content: bool, h: History): State {
    if h == [] then Initial(content)
    else OnMessage(MessageRun(content, h[..|h| - 1]), h[|h| - 1].client, h[|h| - 1].m)
  }

  lemma MessageRunAppend(content: bool, h: History, e: Event)
    ensures MessageRun(content, h + [e]) == OnMessage(MessageRun(content, h), e.client, e.m)
  {
    hide OnMessage;
    assert (h + [e])[..|h|] == h;
  }
}
