/** Snapshots of the ACP observation: their legality, their JSON size, and the trimming that bounds it. */
module AcpSnapshot {
  import opened Wrappers
  import opened Utf8

  const MAX_FRAME_BYTES := 0x10_0000
  const MAX_SESSIONS := 64
  const MAX_PROMPTS := 256
  const MAX_TEXT_BYTES := 0x2_0000
  const MAX_SNAPSHOT_BYTES := 0xC_0000
  const MAX_INT64 := 0x7FFF_FFFF_FFFF_FFFF
  const MAX_SESSION_ID := 512
  const MAX_CWD := 4096
  const MAX_AGENT_NAME := 256
  const MAX_AGENT_VERSION := 128

  type uint32 = x: int | 0 <= x < 0x1_0000_0000
  type int64 = x: int | -0x8000_0000_0000_0000 <= x < 0x8000_0000_0000_0000


  datatype Agent = Agent(name: Bytes, version: Bytes)

  datatype Operation = New | Load | Resume | Fork | UnknownOperation(name: Bytes)

  datatype Session = Session(id: Bytes, cwd: Bytes, operation: Operation)

  datatype PromptState = Pending | Completed | Cancelled | Failed | Interrupted | UnknownState(name: Bytes)

  datatype StopReason =
    | NoReason | EndTurn | MaxTokens | MaxTurnRequests | Refusal | StopCancelled | OtherReason
    | UnknownReason(name: Bytes)

  datatype Prompt = Prompt(
    sequence: nat, sessionId: Bytes, state: PromptState, stopReason: StopReason,
    userText: Bytes, agentText: Bytes, toolCalls: nat)

  datatype Snapshot = Snapshot(
    revision: nat, protocolVersion: uint32, agent: Agent, needsAuthentication: bool,
    sessions: seq<Session>, prompts: seq<Prompt>, incomplete: bool, final: bool, exitCode: Option<int64>)

  // ---------- Legality ----------

  predicate TextValid(value: Bytes, limit: nat) {
    |value| <= limit && Valid(value)
  }

  function TextTotal(prompts: seq<Prompt>): nat {
    if prompts == [] then 0
    else TextTotal(prompts[..|prompts| - 1]) +
         |prompts[|prompts| - 1].userText| + |prompts[|prompts| - 1].agentText|
  }

  predicate HasSession(sessions: seq<Session>, id: Bytes) {
    exists i | 0 <= i < |sessions| :: sessions[i].id == id
  }

  predicate LegalSession(session: Session) {
    && session.id != [] && TextValid(session.id, MAX_SESSION_ID) && TextValid(session.cwd, MAX_CWD)
    && !session.operation.UnknownOperation?
  }

  predicate LegalSessions(sessions: seq<Session>) {
    && (forall i | 0 <= i < |sessions| :: LegalSession(sessions[i]))
    && (forall i, j | 0 <= i < j < |sessions| :: sessions[i].id != sessions[j].id)
  }

  predicate LegalPrompt(sessions: seq<Session>, final: bool, prompt: Prompt) {
    && HasSession(sessions, prompt.sessionId)
    && TextValid(prompt.userText, MAX_TEXT_BYTES) && TextValid(prompt.agentText, MAX_TEXT_BYTES)
    && !prompt.state.UnknownState? && !prompt.stopReason.UnknownReason?
    && !(final && prompt.state.Pending?)
  }

  predicate LegalPrompts(sessions: seq<Session>, final: bool, prompts: seq<Prompt>) {
    && (forall i | 0 <= i < |prompts| :: LegalPrompt(sessions, final, prompts[i]) && prompts[i].sequence > 0)
    && (forall i, j | 0 <= i < j < |prompts| :: prompts[i].sequence < prompts[j].sequence)
  }

  predicate LegalHeader(s: Snapshot) {
    && 1 <= s.revision <= MAX_INT64
    && |s.sessions| <= MAX_SESSIONS && |s.prompts| <= MAX_PROMPTS
    && TextValid(s.agent.name, MAX_AGENT_NAME) && TextValid(s.agent.version, MAX_AGENT_VERSION)
    && s.final == s.exitCode.Some?
    && (s.exitCode.Some? ==> 0 <= s.exitCode.value <= 255)
  }

  /** What a stored snapshot must satisfy under a content mode. */
  predicate Legal(s: Snapshot, content: bool) {
    && LegalHeader(s)
    && LegalSessions(s.sessions)
    && LegalPrompts(s.sessions, s.final, s.prompts)
    && TextTotal(s.prompts) <= MAX_TEXT_BYTES
    && (!content ==> TextTotal(s.prompts) == 0)
  }

  method FindSession(sessions: seq<Session>, id: Bytes) returns (found: bool)
    ensures found <==> HasSession(sessions, id)
  {
    for i := 0 to |sessions|
      invariant forall j | 0 <= j < i :: sessions[j].id != id
    {
      if sessions[i].id == id { return true; }
    }
    return false;
  }

  method ValidateSessions(sessions: seq<Session>) returns (ok: bool)
    ensures ok <==> LegalSessions(sessions)
  {
    for i := 0 to |sessions|
      invariant LegalSessions(sessions[..i])
    {
      if !LegalSession(sessions[i]) { return false; }
      for j := 0 to i
        invariant forall k | 0 <= k < j :: sessions[k].id != sessions[i].id
      {
        if sessions[j].id == sessions[i].id { return false; }
      }
    }
    assert sessions[..|sessions|] == sessions;
    return true;
  }

  method ValidatePrompt(sessions: seq<Session>, final: bool, prompt: Prompt) returns (ok: bool)
    ensures ok <==> LegalPrompt(sessions, final, prompt)
  {
    var found := FindSession(sessions, prompt.sessionId);
    if !found || !TextValid(prompt.userText, MAX_TEXT_BYTES) || !TextValid(prompt.agentText, MAX_TEXT_BYTES) {
      return false;
    }
    return !prompt.state.UnknownState? && !(final && prompt.state.Pending?) && !prompt.stopReason.UnknownReason?;
  }

  method ValidatePrompts(sessions: seq<Session>, final: bool, prompts: seq<Prompt>) returns (ok: bool, total: nat)
    ensures ok <==> LegalPrompts(sessions, final, prompts)
    ensures ok ==> total == TextTotal(prompts)
  {
    hide LegalPrompt;
    total := 0;
    var previous := 0;
    for i := 0 to |prompts|
      invariant LegalPrompts(sessions, final, prompts[..i])
      invariant total == TextTotal(prompts[..i])
      invariant previous == if i == 0 then 0 else prompts[i - 1].sequence
    {
      var legal := ValidatePrompt(sessions, final, prompts[i]);
      if prompts[i].sequence <= previous || !legal {
        return false, total;
      }
      previous := prompts[i].sequence;
      total := total + |prompts[i].userText| + |prompts[i].agentText|;
      assert prompts[..i + 1][..i] == prompts[..i];
    }
    assert prompts[..|prompts|] == prompts;
    return true, total;
  }

  /** The validator a snapshot passes before it is stored. */
  method Validate(s: Snapshot, content: bool) returns (ok: bool)
    ensures ok <==> Legal(s, content)
  {
    if !LegalHeader(s) { return false; }
    ok := ValidateSessions(s.sessions);
    if !ok { return; }
    var total;
    ok, total := ValidatePrompts(s.sessions, s.final, s.prompts);
    if ok && (total > MAX_TEXT_BYTES || (!content && total != 0)) { return false; }
  }

  lemma {:induction false} TextTotalAppend(prompts: seq<Prompt>, p: Prompt)
    ensures TextTotal(prompts + [p]) == TextTotal(prompts) + |p.userText| + |p.agentText|
  {
    assert (prompts + [p])[..|prompts|] == prompts;
  }

  lemma {:induction false} TextTotalUpdate(prompts: seq<Prompt>, i: nat, p: Prompt)
    requires i < |prompts|
    ensures TextTotal(prompts[i := p]) ==
            TextTotal(prompts) + |p.userText| + |p.agentText| - |prompts[i].userText| - |prompts[i].agentText|
  {
    var n := |prompts| - 1;
    if i == n {
      assert prompts[i := p][..n] == prompts[..n];
    } else {
      assert prompts[i := p][..n] == prompts[..n][i := p];
      TextTotalUpdate(prompts[..n], i, p);
    }
  }

  lemma {:induction false} TextTotalMember(prompts: seq<Prompt>, i: nat)
    requires i < |prompts|
    ensures |prompts[i].userText| + |prompts[i].agentText| <= TextTotal(prompts)
  {
    if i < |prompts| - 1 {
      TextTotalMember(prompts[..|prompts| - 1], i);
    }
  }

  // ---------- JSON size ----------

  /** Bytes between the quotes of an encoded JSON string (RFC 8259 section 7, Go's HTML-safe escaping). */
  function EscapedLength(s: Bytes): (n: nat)
    ensures n <= 6 * |s|
  {
    if s == [] then 0
    else if s[0] in {0x08, 0x09, 0x0A, 0x0C, 0x0D, 0x22, 0x5C} then 2 + EscapedLength(s[1..])
    else if s[0] < 0x20 || s[0] in {0x26, 0x3C, 0x3E} then 6 + EscapedLength(s[1..])
    else if InRange(s, 0, 0xE2, 0xE2) && InRange(s, 1, 0x80, 0x80) && InRange(s, 2, 0xA8, 0xA9) then
      6 + EscapedLength(s[3..])
    else if CharLength(s) == 0 then 6 + EscapedLength(s[1..])
    else CharLength(s) + EscapedLength(s[CharLength(s)..])
  }

  function QuotedLength(s: Bytes): nat {
    EscapedLength(s) + 2
  }

  function DecimalLength(n: nat): (k: nat)
    ensures k >= 1
  {
    if n < 10 then 1 else 1 + DecimalLength(n / 10)
  }

  function IntLength(n: int): nat {
    if n < 0 then 1 + DecimalLength(-n) else DecimalLength(n)
  }

  function BoolLength(b: bool): nat {
    if b then 4 else 5  // true  false
  }

  function OperationLength(operation: Operation): nat {
    match operation
    case New => 3  // new
    case Load => 4  // load
    case Resume => 6  // resume
    case Fork => 4  // fork
    case UnknownOperation(name) => EscapedLength(name)
  }

  function StateLength(state: PromptState): nat {
    match state
    case Pending => 7  // pending
    case Completed => 9  // completed
    case Cancelled => 9  // cancelled
    case Failed => 6  // failed
    case Interrupted => 11  // interrupted
    case UnknownState(name) => EscapedLength(name)
  }

  function ReasonLength(reason: StopReason): nat {
    match reason
    case NoReason => 0
    case EndTurn => 8  // end_turn
    case MaxTokens => 10  // max_tokens
    case MaxTurnRequests => 17  // max_turn_requests
    case Refusal => 7  // refusal
    case StopCancelled => 9  // cancelled
    case OtherReason => 5  // other
    case UnknownReason(name) => EscapedLength(name)
  }

  function AgentLength(agent: Agent): nat {
    20 + QuotedLength(agent.name) + QuotedLength(agent.version)  // {"name":,"version":}
  }

  function SessionLength(session: Session): nat {
    29 +  // {"id":,"cwd":,"operation":""}
    QuotedLength(session.id) + QuotedLength(session.cwd) + OperationLength(session.operation)
  }

  /** An omitempty string member with its leading comma. */
  function OptionalTextLength(key: nat, value: Bytes): nat {
    if value == [] then 0 else key + QuotedLength(value)
  }

  function PromptLength(p: Prompt): nat {
    50 +  // {"sequence":,"sessionId":,"state":"","toolCalls":}
    DecimalLength(p.sequence) + QuotedLength(p.sessionId) + StateLength(p.state) + DecimalLength(p.toolCalls) +
    (if p.stopReason == NoReason then 0 else 16 + ReasonLength(p.stopReason)) +  // ,"stopReason":""
    OptionalTextLength(12, p.userText) + OptionalTextLength(13, p.agentText)  // ,"userText":  ,"agentText":
  }

  /** Comma-separated sessions without the brackets. */
  function SessionsLength(sessions: seq<Session>): nat {
    if sessions == [] then 0
    else SessionsLength(sessions[..|sessions| - 1]) + SessionLength(sessions[|sessions| - 1]) +
         (if |sessions| > 1 then 1 else 0)
  }

  function PromptsLength(prompts: seq<Prompt>): nat {
    if prompts == [] then 0
    else PromptsLength(prompts[..|prompts| - 1]) + PromptLength(prompts[|prompts| - 1]) +
         (if |prompts| > 1 then 1 else 0)
  }

  function HeaderLength(s: Snapshot): nat {
    91 +  // {"revision":,"protocolVersion":,"agent":,"sessions":[],"prompts":[],"incomplete":,"final":}
    DecimalLength(s.revision) + DecimalLength(s.protocolVersion) + AgentLength(s.agent) +
    BoolLength(s.incomplete) + BoolLength(s.final) +
    (if s.needsAuthentication then 27 else 0) +  // ,"needsAuthentication":true
    (if s.exitCode.Some? then 12 + IntLength(s.exitCode.value) else 0)  // ,"exitCode":
  }

  /** Length of the snapshot's JSON encoding. */
  function EncodedLength(s: Snapshot): nat {
    HeaderLength(s) + SessionsLength(s.sessions) + PromptsLength(s.prompts)
  }

  // ---------- Trimming ----------

  function ClearText(value: Bytes, size: int): (r: (Bytes, int)) {
    if size >= MAX_SNAPSHOT_BYTES && value != [] then ([], size - EscapedLength(value)) else (value, size)
  }

  function ClearPrompt(p: Prompt, size: int): (r: (Prompt, int)) {
    var agentText := ClearText(p.agentText, size);
    var userText := ClearText(p.userText, agentText.1);
    (p.(agentText := agentText.0, userText := userText.0), userText.1)
  }

  /** Clears prompt texts from the newest prompt down while the running size is too large. */
  function ClearPrompts(prompts: seq<Prompt>, size: int): (r: (seq<Prompt>, int))
    ensures |r.0| == |prompts|
  {
    if prompts == [] then ([], size)
    else
      var last := ClearPrompt(prompts[|prompts| - 1], size);
      var rest := ClearPrompts(prompts[..|prompts| - 1], last.1);
      (rest.0 + [last.0], rest.1)
  }

  function ClearSession(session: Session, size: int): (r: (Session, int)) {
    var cwd := ClearText(session.cwd, size);
    (session.(cwd := cwd.0), cwd.1)
  }

  function ClearSessions(sessions: seq<Session>, size: int): (r: (seq<Session>, int))
    ensures |r.0| == |sessions|
  {
    if sessions == [] then ([], size)
    else
      var last := ClearSession(sessions[|sessions| - 1], size);
      var rest := ClearSessions(sessions[..|sessions| - 1], last.1);
      (rest.0 + [last.0], rest.1)
  }

  function DropPrompts(prompts: seq<Prompt>, size: int): (r: (seq<Prompt>, int))
    ensures r.0 <= prompts
    ensures r.1 < MAX_SNAPSHOT_BYTES || r.0 == []
    ensures r.1 <= size
    ensures size < MAX_SNAPSHOT_BYTES ==> r == (prompts, size)
  {
    if size >= MAX_SNAPSHOT_BYTES && prompts != [] then
      DropPrompts(prompts[..|prompts| - 1], size - PromptLength(prompts[|prompts| - 1]))
    else (prompts, size)
  }

  /** The snapshot an observer publishes for its internal one. */
  function Trimmed(s: Snapshot): Snapshot {
    if EncodedLength(s) < MAX_SNAPSHOT_BYTES then s else Cut(s, EncodedLength(s))
  }

  function Cut(s: Snapshot, size: int): Snapshot {
    var texts := ClearPrompts(s.prompts, size);
    var cwds := ClearSessions(s.sessions, texts.1);
    var kept := DropPrompts(texts.0, cwds.1);
    s.(incomplete := true, sessions := cwds.0, prompts := kept.0)
  }

  /** The three trimming loops, each from the newest element down. */
  method TrimTexts(prompts: seq<Prompt>, size: int) returns (kept: seq<Prompt>, left: int)
    ensures (kept, left) == ClearPrompts(prompts, size)
  {
    hide ClearPrompt;
    kept, left := prompts, size;
    ghost var goal := ClearPrompts(prompts, size);
    assert prompts[..|prompts|] == prompts;
    for index := |prompts| downto 0
      invariant |kept| == |prompts| && kept[..index] == prompts[..index]
      invariant var r := ClearPrompts(prompts[..index], left);
        r.0 + kept[index..] == goal.0 && r.1 == goal.1
    {
      assert prompts[..index + 1][..index] == prompts[..index];
      var cleared := ClearPrompt(kept[index], left);
      kept, left := kept[index := cleared.0], cleared.1;
    }
    assert kept[0..] == kept && [] + kept == kept;
  }

  method TrimWorkspaces(sessions: seq<Session>, size: int) returns (kept: seq<Session>, left: int)
    ensures (kept, left) == ClearSessions(sessions, size)
  {
    hide ClearSession;
    kept, left := sessions, size;
    ghost var goal := ClearSessions(sessions, size);
    assert sessions[..|sessions|] == sessions;
    for index := |sessions| downto 0
      invariant |kept| == |sessions| && kept[..index] == sessions[..index]
      invariant var r := ClearSessions(sessions[..index], left);
        r.0 + kept[index..] == goal.0 && r.1 == goal.1
    {
      assert sessions[..index + 1][..index] == sessions[..index];
      var cleared := ClearSession(kept[index], left);
      kept, left := kept[index := cleared.0], cleared.1;
    }
    assert kept[0..] == kept && [] + kept == kept;
  }

  method TrimPrompts(prompts: seq<Prompt>, size: int) returns (kept: seq<Prompt>, left: int)
    ensures (kept, left) == DropPrompts(prompts, size)
  {
    hide PromptLength;
    kept, left := prompts, size;
    while left >= MAX_SNAPSHOT_BYTES && |kept| > 0
      invariant DropPrompts(kept, left) == DropPrompts(prompts, size)
      decreases |kept|
    {
      var last := |kept| - 1;
      left := left - PromptLength(kept[last]);
      kept := kept[..last];
    }
  }

  method Trim(s: Snapshot) returns (t: Snapshot)
    ensures t == Trimmed(s)
  {
    hide EncodedLength, ClearPrompts, ClearSessions, DropPrompts;
    t := s;
    var size: int := EncodedLength(s);
    if size >= MAX_SNAPSHOT_BYTES {
      var prompts, sessions;
      prompts, size := TrimTexts(s.prompts, size);
      sessions, size := TrimWorkspaces(s.sessions, size);
      prompts, size := TrimPrompts(prompts, size);
      t := s.(incomplete := true, prompts := prompts, sessions := sessions);
    }
  }

  predicate KeptOrCleared(before: Bytes, after: Bytes) {
    after == before || after == []
  }

  predicate PromptTrimmed(before: Prompt, after: Prompt) {
    && after.(userText := before.userText, agentText := before.agentText) == before
    && KeptOrCleared(before.userText, after.userText) && KeptOrCleared(before.agentText, after.agentText)
  }

  predicate SessionTrimmed(before: Session, after: Session) {
    after.(cwd := before.cwd) == before && KeptOrCleared(before.cwd, after.cwd)
  }

  lemma {:induction false} PromptsLengthAppend(prompts: seq<Prompt>, p: Prompt)
    ensures PromptsLength(prompts + [p]) ==
            PromptsLength(prompts) + PromptLength(p) + (if |prompts| > 0 then 1 else 0)
  {
    assert (prompts + [p])[..|prompts|] == prompts;
  }

  lemma ClearPromptFacts(p: Prompt, size: int)
    ensures var r := ClearPrompt(p, size);
      && PromptTrimmed(p, r.0)
      && 0 <= size - r.1 <= PromptLength(p) - PromptLength(r.0)
      && (r.1 >= MAX_SNAPSHOT_BYTES ==> r.0.userText == r.0.agentText == [])
      && |r.0.userText| + |r.0.agentText| <= |p.userText| + |p.agentText|
  {
  }

  lemma {:induction false} ClearPromptsShape(prompts: seq<Prompt>, size: int)
    ensures var r := ClearPrompts(prompts, size);
      && (forall i | 0 <= i < |prompts| :: PromptTrimmed(prompts[i], r.0[i]))
      && r.1 <= size
      && (r.1 >= MAX_SNAPSHOT_BYTES ==> forall i | 0 <= i < |prompts| :: r.0[i].userText == r.0[i].agentText == [])
  {
    hide ClearPrompt, PromptTrimmed;
    if prompts != [] {
      var n := |prompts| - 1;
      ClearPromptFacts(prompts[n], size);
      ClearPromptsShape(prompts[..n], ClearPrompt(prompts[n], size).1);
    }
  }

  /** The running size never falls below the true size, and no text is gained. */
  lemma {:induction false} ClearPromptsSize(prompts: seq<Prompt>, size: int)
    ensures var r := ClearPrompts(prompts, size);
      && size - r.1 <= PromptsLength(prompts) - PromptsLength(r.0)
      && TextTotal(r.0) <= TextTotal(prompts)
  {
    hide ClearPrompt, PromptLength;
    if prompts != [] {
      var n := |prompts| - 1;
      var last := ClearPrompt(prompts[n], size);
      ClearPromptFacts(prompts[n], size);
      ClearPromptsSize(prompts[..n], last.1);
      var rest := ClearPrompts(prompts[..n], last.1);
      PromptsLengthAppend(rest.0, last.0);
      TextTotalAppend(rest.0, last.0);
    }
  }

  lemma ClearSessionFacts(session: Session, size: int)
    ensures var r := ClearSession(session, size);
      && SessionTrimmed(session, r.0)
      && 0 <= size - r.1 == SessionLength(session) - SessionLength(r.0)
      && (r.1 >= MAX_SNAPSHOT_BYTES ==> r.0.cwd == [])
  {
  }

  lemma {:induction false} ClearSessionsShape(sessions: seq<Session>, size: int)
    ensures var r := ClearSessions(sessions, size);
      && (forall i | 0 <= i < |sessions| :: SessionTrimmed(sessions[i], r.0[i]))
      && r.1 <= size
      && (r.1 >= MAX_SNAPSHOT_BYTES ==> forall i | 0 <= i < |sessions| :: r.0[i].cwd == [])
  {
    hide ClearSession, SessionTrimmed;
    if sessions != [] {
      var n := |sessions| - 1;
      ClearSessionFacts(sessions[n], size);
      ClearSessionsShape(sessions[..n], ClearSession(sessions[n], size).1);
    }
  }

  lemma {:induction false} ClearSessionsSize(sessions: seq<Session>, size: int)
    ensures var r := ClearSessions(sessions, size);
      size - r.1 == SessionsLength(sessions) - SessionsLength(r.0)
  {
    hide ClearSession, SessionLength;
    if sessions != [] {
      var n := |sessions| - 1;
      var last := ClearSession(sessions[n], size);
      ClearSessionFacts(sessions[n], size);
      ClearSessionsSize(sessions[..n], last.1);
      SessionsLengthAppend(ClearSessions(sessions[..n], last.1).0, last.0);
    }
  }

  lemma {:induction false} SessionsLengthAppend(sessions: seq<Session>, session: Session)
    ensures SessionsLength(sessions + [session]) ==
            SessionsLength(sessions) + SessionLength(session) + (if |sessions| > 0 then 1 else 0)
  {
    assert (sessions + [session])[..|sessions|] == sessions;
  }

  lemma {:induction false} ClearSessionsIdle(sessions: seq<Session>, size: int)
    requires size < MAX_SNAPSHOT_BYTES
    ensures ClearSessions(sessions, size) == (sessions, size)
  {
    hide ClearSession;
    if sessions != [] {
      var n := |sessions| - 1;
      ClearSessionIdle(sessions[n], size);
      ClearSessionsIdle(sessions[..n], size);
      assert sessions[..n] + [sessions[n]] == sessions;
    }
  }

  lemma ClearSessionIdle(session: Session, size: int)
    requires size < MAX_SNAPSHOT_BYTES
    ensures ClearSession(session, size) == (session, size)
  {
  }

  lemma {:induction false} DropPromptsSize(prompts: seq<Prompt>, size: int)
    ensures var r := DropPrompts(prompts, size);
      size - r.1 <= PromptsLength(prompts) - PromptsLength(r.0)
  {
    if size >= MAX_SNAPSHOT_BYTES && prompts != [] {
      DropPromptsSize(prompts[..|prompts| - 1], size - PromptLength(prompts[|prompts| - 1]));
    }
  }

  lemma {:induction false} TextTotalPrefix(prompts: seq<Prompt>, n: nat)
    requires n <= |prompts|
    ensures TextTotal(prompts[..n]) <= TextTotal(prompts)
  {
    if n == |prompts| {
      assert prompts[..n] == prompts;
    } else {
      assert prompts[..|prompts| - 1][..n] == prompts[..n];
      TextTotalPrefix(prompts[..|prompts| - 1], n);
    }
  }

  /** What trimming gives up, in order: prompt texts, then workspace paths, then the newest prompts; never an identity
      or an outcome. */
  lemma TrimmedPriorities(s: Snapshot)
    ensures var t := Trimmed(s);
      && t.(incomplete := s.incomplete, sessions := s.sessions, prompts := s.prompts) == s
      && (!t.incomplete ==> t == s) && (s.incomplete ==> t.incomplete)
      && |t.sessions| == |s.sessions| && |t.prompts| <= |s.prompts|
      && (forall i | 0 <= i < |s.sessions| :: SessionTrimmed(s.sessions[i], t.sessions[i]))
      && (forall i | 0 <= i < |t.prompts| :: PromptTrimmed(s.prompts[i], t.prompts[i]))
      && (t.sessions != s.sessions ==>
        forall i | 0 <= i < |t.prompts| :: t.prompts[i].userText == t.prompts[i].agentText == [])
      && (|t.prompts| < |s.prompts| ==>
            && (forall i | 0 <= i < |t.sessions| :: t.sessions[i].cwd == [])
            && (forall i | 0 <= i < |t.prompts| :: t.prompts[i].userText == t.prompts[i].agentText == []))
  {
    hide EncodedLength, Cut, PromptTrimmed, SessionTrimmed;
    if EncodedLength(s) < MAX_SNAPSHOT_BYTES {
      NothingTrimmed(s);
    } else {
      CutSessions(s, EncodedLength(s));
      CutPrompts(s, EncodedLength(s));
      CutOrder(s, EncodedLength(s));
    }
  }

  lemma NothingTrimmed(s: Snapshot)
    ensures forall i | 0 <= i < |s.sessions| :: SessionTrimmed(s.sessions[i], s.sessions[i])
    ensures forall i | 0 <= i < |s.prompts| :: PromptTrimmed(s.prompts[i], s.prompts[i])
  {
  }

  lemma CutSessions(s: Snapshot, size: int)
    ensures var t := Cut(s, size);
      && t.incomplete && t.(incomplete := s.incomplete, sessions := s.sessions, prompts := s.prompts) == s
      && |t.sessions| == |s.sessions| && forall i | 0 <= i < |s.sessions| ::
        SessionTrimmed(s.sessions[i], t.sessions[i])
  {
    hide ClearPrompts, ClearSessions, DropPrompts, SessionTrimmed;
    ClearSessionsShape(s.sessions, ClearPrompts(s.prompts, size).1);
  }

  lemma CutPrompts(s: Snapshot, size: int)
    ensures var t := Cut(s, size);
      |t.prompts| <= |s.prompts| && forall i | 0 <= i < |t.prompts| :: PromptTrimmed(s.prompts[i], t.prompts[i])
  {
    hide ClearPrompts, ClearSessions, DropPrompts, PromptTrimmed;
    ClearPromptsShape(s.prompts, size);
    var t, texts := Cut(s, size), ClearPrompts(s.prompts, size).0;
    assert forall i | 0 <= i < |t.prompts| :: t.prompts[i] == texts[i];
  }

  /** Workspaces go only when every text is gone, and prompts only when every workspace is. */
  lemma CutOrder(s: Snapshot, size: int)
    ensures var t := Cut(s, size);
      && (t.sessions != s.sessions || |t.prompts| < |s.prompts| ==>
            forall i | 0 <= i < |t.prompts| :: t.prompts[i].userText == t.prompts[i].agentText == [])
      && (|t.prompts| < |s.prompts| ==> forall i | 0 <= i < |t.sessions| :: t.sessions[i].cwd == [])
  {
    hide ClearPrompts, ClearSessions, DropPrompts, PromptTrimmed, SessionTrimmed;
    ClearPromptsShape(s.prompts, size);
    var t, texts := Cut(s, size), ClearPrompts(s.prompts, size);
    ClearSessionsShape(s.sessions, texts.1);
    assert forall i | 0 <= i < |t.prompts| :: t.prompts[i] == texts.0[i];
    if texts.1 < MAX_SNAPSHOT_BYTES { ClearSessionsIdle(s.sessions, texts.1); }
  }

  function Pow10(k: nat): nat {
    if k == 0 then 1 else 10 * Pow10(k - 1)
  }

  lemma {:induction false} DecimalLengthBound(n: nat, k: nat)
    requires k >= 1 && n < Pow10(k)
    ensures DecimalLength(n) <= k
    decreases k
  {
    if n >= 10 {
      assert k > 1;
      DecimalLengthBound(n / 10, k - 1);
    }
  }

  /** The size every identity-only snapshot stays within, at six output bytes per input byte. */
  ghost predicate BoundedIdentities(s: Snapshot) {
    && s.revision < 0x1_0000_0000_0000_0000
    && |s.agent.name| <= MAX_AGENT_NAME && |s.agent.version| <= MAX_AGENT_VERSION
    && |s.sessions| <= MAX_SESSIONS
    && forall i | 0 <= i < |s.sessions| ::
         |s.sessions[i].id| <= MAX_SESSION_ID && !s.sessions[i].operation.UnknownOperation?
  }

  lemma {:induction false} ResidualSessions(sessions: seq<Session>)
    requires forall i | 0 <= i < |sessions| ::
      |sessions[i].id| <= MAX_SESSION_ID && sessions[i].cwd == [] && !sessions[i].operation.UnknownOperation?
    ensures SessionsLength(sessions) <= 3200 * |sessions|
  {
    if sessions != [] {
      ResidualSessions(sessions[..|sessions| - 1]);
    }
  }

  lemma ResidualHeader(s: Snapshot)
    requires BoundedIdentities(s)
    ensures HeaderLength(s) <= 4000
  {
    assert Pow10(20) == 100_000_000_000_000_000_000;
    assert Pow10(10) == 10_000_000_000;
    DecimalLengthBound(s.revision, 20);
    DecimalLengthBound(s.protocolVersion, 10);
    if s.exitCode.Some? {
      var code := s.exitCode.value;
      DecimalLengthBound(if code < 0 then -(code as int) else code, 20);
    }
  }

  /** The size left by the three loops. */
  function CutSize(s: Snapshot, size: int): int {
    var texts := ClearPrompts(s.prompts, size);
    DropPrompts(texts.0, ClearSessions(s.sessions, texts.1).1).1
  }

  /** The running size stays an upper bound on the encoded length. */
  lemma CutBounded(s: Snapshot)
    ensures EncodedLength(Cut(s, EncodedLength(s))) <= CutSize(s, EncodedLength(s))
  {
    hide ClearPrompts, ClearSessions, DropPrompts, PromptsLength, SessionsLength;
    var size := EncodedLength(s);
    var texts := ClearPrompts(s.prompts, size);
    ClearPromptsSize(s.prompts, size);
    ClearSessionsSize(s.sessions, texts.1);
    DropPromptsSize(texts.0, ClearSessions(s.sessions, texts.1).1);
    assert HeaderLength(Cut(s, size)) <= HeaderLength(s);
  }

  /** If that size is still too large then only identities are left. */
  lemma CutResidue(s: Snapshot, size: int)
    requires BoundedIdentities(s) && CutSize(s, size) >= MAX_SNAPSHOT_BYTES
    ensures var t := Cut(s, size);
      && BoundedIdentities(t) && t.prompts == [] && |t.sessions| <= MAX_SESSIONS
      && forall i | 0 <= i < |t.sessions| :: t.sessions[i].cwd == []
  {
    hide ClearPrompts, ClearSessions, DropPrompts, SessionTrimmed;
    var t, texts := Cut(s, size), ClearPrompts(s.prompts, size);
    ClearSessionsShape(s.sessions, texts.1);
    forall i | 0 <= i < |t.sessions| ensures t.sessions[i].(cwd := s.sessions[i].cwd) == s.sessions[i] {
      assert SessionTrimmed(s.sessions[i], t.sessions[i]);
      SameIdentity(s.sessions[i], t.sessions[i]);
    }
  }

  lemma SameIdentity(before: Session, after: Session)
    requires SessionTrimmed(before, after)
    ensures after.(cwd := before.cwd) == before
  {
  }

  /** Every published snapshot encodes strictly below the storage bound. */
  lemma TrimmedFits(s: Snapshot)
    requires BoundedIdentities(s)
    ensures EncodedLength(Trimmed(s)) < MAX_SNAPSHOT_BYTES
  {
    hide Cut, CutSize, HeaderLength, SessionsLength, PromptsLength;
    var size := EncodedLength(s);
    if size >= MAX_SNAPSHOT_BYTES {
      CutBounded(s);
      if CutSize(s, size) >= MAX_SNAPSHOT_BYTES {
        var t := Cut(s, size);
        CutResidue(s, size);
        ResidualSessions(t.sessions);
        ResidualHeader(t);
        NoPromptsLength();
      }
    }
  }

  lemma NoPromptsLength()
    ensures PromptsLength([]) == 0
  {
  }

  lemma TrimmedLegalParts(s: Snapshot, t: Snapshot)
    requires LegalSessions(s.sessions) && LegalPrompts(s.sessions, s.final, s.prompts)
    requires t.final == s.final && |t.sessions| == |s.sessions| && |t.prompts| <= |s.prompts|
    requires forall i | 0 <= i < |s.sessions| :: SessionTrimmed(s.sessions[i], t.sessions[i])
    requires forall i | 0 <= i < |t.prompts| :: PromptTrimmed(s.prompts[i], t.prompts[i])
    ensures LegalSessions(t.sessions) && LegalPrompts(t.sessions, t.final, t.prompts)
  {
    forall i | 0 <= i < |t.sessions| ensures LegalSession(t.sessions[i]) && t.sessions[i].id == s.sessions[i].id {
      assert SessionTrimmed(s.sessions[i], t.sessions[i]) && LegalSession(s.sessions[i]);
    }
    forall i | 0 <= i < |t.prompts|
      ensures LegalPrompt(t.sessions, t.final, t.prompts[i]) && t.prompts[i].sequence == s.prompts[i].sequence
    {
      assert PromptTrimmed(s.prompts[i], t.prompts[i]) && LegalPrompt(s.sessions, s.final, s.prompts[i]);
      var j :| 0 <= j < |s.sessions| && s.sessions[j].id == s.prompts[i].sessionId;
      assert t.sessions[j].id == t.prompts[i].sessionId;
    }
  }

  lemma TrimmedTextTotal(s: Snapshot)
    ensures TextTotal(Trimmed(s).prompts) <= TextTotal(s.prompts)
  {
    if EncodedLength(s) >= MAX_SNAPSHOT_BYTES {
      hide EncodedLength, ClearPrompts, ClearSessions;
      var texts := ClearPrompts(s.prompts, EncodedLength(s));
      ClearPromptsSize(s.prompts, EncodedLength(s));
      TextTotalPrefix(texts.0, |Trimmed(s).prompts|);
      assert texts.0[..|Trimmed(s).prompts|] == Trimmed(s).prompts;
    }
  }

  /** A legal snapshot is published legally, trimmed or not. */
  lemma TrimmedLegal(s: Snapshot, content: bool)
    requires Legal(s, content)
    ensures Legal(Trimmed(s), content)
  {
    hide Trimmed, TextTotal, LegalPrompts, LegalSessions;
    TrimmedPriorities(s);
    TrimmedLegalParts(s, Trimmed(s));
    TrimmedTextTotal(s);
  }
}
