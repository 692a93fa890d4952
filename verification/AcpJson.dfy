/** The JSON text of a snapshot, as Go's encoder writes it: the sizes that trimming counts are those of this text, and
    its strings mean what they encode. */
module AcpJson {
  import opened Wrappers
  import opened Utf8
  import opened AcpSnapshot
  import opened AcpMessages
  import opened AcpRuns

  // ---------- Strings ----------

  function Ascii(s: string): (b: Bytes)
    ensures |b| == |s|
  {
    seq(|s|, i requires 0 <= i < |s| => if s[i] < '\U{80}' then s[i] as int as byte else 0x3F)
  }

  const BACKSLASH: byte := 0x5C
  const QUOTE: byte := 0x22

  function HexDigit(n: int): byte
    requires 0 <= n < 16
  {
    if n < 10 then (0x30 + n) as byte else (0x61 + n - 10) as byte
  }

  function HexValue(b: byte): Option<int> {
    if 0x30 <= b <= 0x39 then Some(b as int - 0x30)
    else if 0x61 <= b <= 0x66 then Some(b as int - 0x61 + 10)
    else None
  }

  /** A backslash, u and four hexadecimal digits. */
  function Unicode(code: int): (b: Bytes)
    requires 0 <= code < 0x1_0000
    ensures |b| == 6
  {
    [BACKSLASH, 0x75, HexDigit(code / 0x1000), HexDigit(code / 0x100 % 16), HexDigit(code / 16 % 16),
     HexDigit(code % 16)]
  }

  /** The letter that stands for a character behind a backslash. */
  function Letter(b: byte): Option<byte> {
    if b == 0x08 then Some(0x62)
    else if b == 0x09 then Some(0x74)
    else if b == 0x0A then Some(0x6E)
    else if b == 0x0C then Some(0x66)
    else if b == 0x0D then Some(0x72)
    else if b == QUOTE || b == BACKSLASH then Some(b)
    else None
  }

  /** Control characters and those that HTML treats specially. */
  predicate NeedsCode(b: byte) {
    b < 0x20 || b == 0x26 || b == 0x3C || b == 0x3E
  }

  predicate LineSeparator(s: Bytes) {
    |s| >= 3 && s[0] == 0xE2 && s[1] == 0x80 && (s[2] == 0xA8 || s[2] == 0xA9)
  }

  /** The encoder's loop over a string: a letter or a code where one is needed, else the character itself; a byte that
      is no character is replaced. */
  function Escape(s: Bytes): Bytes {
    if s == [] then []
    else if Letter(s[0]).Some? then [BACKSLASH, Letter(s[0]).value] + Escape(s[1..])
    else if NeedsCode(s[0]) then Unicode(s[0] as int) + Escape(s[1..])
    else if LineSeparator(s) then Unicode(if s[2] == 0xA8 then 0x2028 else 0x2029) + Escape(s[3..])
    else if CharLength(s) == 0 then Unicode(0xFFFD) + Escape(s[1..])
    else s[..CharLength(s)] + Escape(s[CharLength(s)..])
  }

  lemma {:induction false} EscapedSays(s: Bytes)
    ensures |Escape(s)| == EscapedLength(s)
    decreases |s|
  {
    hide CharLength;
    if s == [] {
    } else if Letter(s[0]).Some? || NeedsCode(s[0]) {
      EscapedSays(s[1..]);
    } else if LineSeparator(s) {
      EscapedSays(s[3..]);
    } else if CharLength(s) == 0 {
      EscapedSays(s[1..]);
    } else {
      EscapedSays(s[CharLength(s)..]);
    }
  }

  // ---------- Reading a string back ----------

  /** The UTF-8 form of a code of the basic plane. */
  function Character(code: int): Bytes
    requires 0 <= code < 0x1_0000
  {
    if code < 0x80 then [code as byte]
    else if code < 0x800 then [(0xC0 + code / 0x40) as byte, (0x80 + code % 0x40) as byte]
    else [(0xE0 + code / 0x1000) as byte, (0x80 + code / 0x40 % 0x40) as byte, (0x80 + code % 0x40) as byte]
  }

  function CodeAt(s: Bytes): Option<int>
    requires |s| >= 4
  {
    var a, b, c, d := HexValue(s[0]), HexValue(s[1]), HexValue(s[2]), HexValue(s[3]);
    if a.None? || b.None? || c.None? || d.None? then None
    else Some(((a.value * 16 + b.value) * 16 + c.value) * 16 + d.value)
  }

  /** The character that a letter behind a backslash stands for (RFC 8259 section 7). */
  function Meant(letter: byte): Option<byte> {
    if letter == 0x62 then Some(0x08)
    else if letter == 0x66 then Some(0x0C)
    else if letter == 0x6E then Some(0x0A)
    else if letter == 0x72 then Some(0x0D)
    else if letter == 0x74 then Some(0x09)
    else if letter == 0x22 || letter == 0x2F || letter == 0x5C then Some(letter)
    else None
  }

  function After(head: Bytes, rest: Option<Bytes>): Option<Bytes> {
    if rest.Some? then Some(head + rest.value) else None
  }

  /** What a decoder makes of the text between two quotes; None for text that cannot stand there. */
  function Unescape(s: Bytes): Option<Bytes>
    decreases |s|
  {
    if s == [] then Some([])
    else if s[0] != BACKSLASH then
      if s[0] < 0x20 || s[0] == QUOTE then None else After([s[0]], Unescape(s[1..]))
    else if |s| >= 2 && Meant(s[1]).Some? then After([Meant(s[1]).value], Unescape(s[2..]))
    else if |s| >= 6 && s[1] == 0x75 && CodeAt(s[2..]).Some? then
      After(Character(CodeAt(s[2..]).value), Unescape(s[6..]))
    else None
  }

  lemma HexBack(n: int)
    requires 0 <= n < 16
    ensures HexValue(HexDigit(n)) == Some(n)
  {
  }

  lemma CodeBack(code: int, rest: Bytes)
    requires 0 <= code < 0x1_0000
    ensures Unescape(Unicode(code) + rest) == After(Character(code), Unescape(rest))
  {
    hide HexDigit, HexValue, Character;
    HexBack(code / 0x1000);
    HexBack(code / 0x100 % 16);
    HexBack(code / 16 % 16);
    HexBack(code % 16);
    var text := Unicode(code) + rest;
    assert text[6..] == rest;
    assert text[2..][0] == text[2] && text[2..][1] == text[3] && text[2..][2] == text[4] && text[2..][3] == text[5];
    assert CodeAt(text[2..]) == Some(code) by { Nibbles(code); }
  }

  lemma Nibbles(code: int)
    requires 0 <= code < 0x1_0000
    ensures ((code / 0x1000 * 16 + code / 0x100 % 16) * 16 + code / 16 % 16) * 16 + code % 16 == code
  {
  }

  lemma LetterBack(b: byte, rest: Bytes)
    requires Letter(b).Some?
    ensures Unescape([BACKSLASH, Letter(b).value] + rest) == After([b], Unescape(rest))
  {
    var text := [BACKSLASH, Letter(b).value] + rest;
    assert text[2..] == rest;
  }

  /** Characters that need no escape are read as they are. */
  lemma {:induction false} PlainBack(plain: Bytes, rest: Bytes)
    requires forall b | b in plain :: b >= 0x20 && b != QUOTE && b != BACKSLASH
    ensures Unescape(plain + rest) == After(plain, Unescape(rest))
  {
    if plain == [] {
      assert plain + rest == rest;
      assert forall t: Bytes :: plain + t == t;
    } else {
      assert forall b | b in plain[1..] :: b in plain;
      PlainBack(plain[1..], rest);
      var text := plain + rest;
      assert text[0] == plain[0] && text[1..] == plain[1..] + rest;
      assert plain[0] in plain;
      assert plain == [plain[0]] + plain[1..];
      AfterJoin([plain[0]], plain[1..], Unescape(rest));
    }
  }

  lemma AfterJoin(a: Bytes, b: Bytes, rest: Option<Bytes>)
    ensures After(a, After(b, rest)) == After(a + b, rest)
  {
    if rest.Some? { assert a + (b + rest.value) == (a + b) + rest.value; }
  }

  /** The bytes of a character that is not escaped. */
  lemma PlainCharacter(s: Bytes)
    requires s != [] && CharLength(s) > 0 && Letter(s[0]).None? && !NeedsCode(s[0])
    ensures forall b | b in s[..CharLength(s)] :: b >= 0x20 && b != QUOTE && b != BACKSLASH
  {
    var n := CharLength(s);
    forall b | b in s[..n] ensures b >= 0x20 && b != QUOTE && b != BACKSLASH {
      var i :| 0 <= i < n && s[i] == b;
      if i > 0 { assert b >= 0x80; }
    }
  }

  lemma SeparatorBack(s: Bytes)
    requires LineSeparator(s)
    ensures Character(if s[2] == 0xA8 then 0x2028 else 0x2029) == s[..3] && CharLength(s) == 3
  {
  }

  /** What is encoded from well-formed text is decoded to it. */
  lemma {:induction false} EscapeBack(s: Bytes)
    requires Valid(s)
    ensures Unescape(Escape(s)) == Some(s)
    decreases |s|
  {
    hide Unescape, Unicode, Character, CharLength, Letter, NeedsCode;
    if s == [] {
      NothingBack();
    } else if Letter(s[0]).Some? || NeedsCode(s[0]) {
      OneByte(s);
      EscapeBack(s[1..]);
      assert s == [s[0]] + s[1..];
      if Letter(s[0]).Some? {
        LetterBack(s[0], Escape(s[1..]));
      } else {
        CodeBack(s[0] as int, Escape(s[1..]));
        ByteCharacter(s[0]);
      }
    } else if LineSeparator(s) {
      SeparatorBack(s);
      EscapeBack(s[3..]);
      assert s == s[..3] + s[3..];
      CodeBack(if s[2] == 0xA8 then 0x2028 else 0x2029, Escape(s[3..]));
    } else {
      var n := CharLength(s);
      EscapeBack(s[n..]);
      assert s == s[..n] + s[n..];
      PlainCharacter(s);
      PlainBack(s[..n], Escape(s[n..]));
    }
  }

  lemma NothingBack()
    ensures Unescape(Escape([])) == Some([])
  {
  }

  lemma OneByte(s: Bytes)
    requires s != [] && (Letter(s[0]).Some? || NeedsCode(s[0]))
    ensures CharLength(s) == 1 && 0 <= s[0] < 0x80
  {
  }

  lemma ByteCharacter(b: byte)
    requires NeedsCode(b)
    ensures Character(b as int) == [b]
  {
  }

  // ---------- The document ----------

  function Decimal(n: nat): Bytes {
    if n < 10 then [(0x30 + n) as byte] else Decimal(n / 10) + [(0x30 + n % 10) as byte]
  }

  function Number(n: int): Bytes {
    if n < 0 then Ascii("-") + Decimal(-n) else Decimal(n)
  }

  function Truth(b: bool): Bytes {
    if b then Ascii("true") else Ascii("false")
  }

  function Quoted(s: Bytes): Bytes {
    [QUOTE] + Escape(s) + [QUOTE]
  }

  function OperationText(operation: Operation): Bytes {
    match operation
    case New => Ascii("new")
    case Load => Ascii("load")
    case Resume => Ascii("resume")
    case Fork => Ascii("fork")
    case UnknownOperation(name) => Escape(name)
  }

  function StateText(state: PromptState): Bytes {
    match state
    case Pending => Ascii("pending")
    case Completed => Ascii("completed")
    case Cancelled => Ascii("cancelled")
    case Failed => Ascii("failed")
    case Interrupted => Ascii("interrupted")
    case UnknownState(name) => Escape(name)
  }

  function ReasonText(reason: StopReason): Bytes {
    match reason
    case NoReason => []
    case EndTurn => Ascii("end_turn")
    case MaxTokens => Ascii("max_tokens")
    case MaxTurnRequests => Ascii("max_turn_requests")
    case Refusal => Ascii("refusal")
    case StopCancelled => Ascii("cancelled")
    case OtherReason => Ascii("other")
    case UnknownReason(name) => Escape(name)
  }

  function AgentJson(agent: Agent): Bytes {
    Ascii("{\"name\":") + Quoted(agent.name) + Ascii(",\"version\":") + Quoted(agent.version) + Ascii("}")
  }

  function SessionJson(session: Session): Bytes {
    Ascii("{\"id\":") + Quoted(session.id) + Ascii(",\"cwd\":") + Quoted(session.cwd) +
    Ascii(",\"operation\":\"") + OperationText(session.operation) + Ascii("\"}")
  }

  /** A member that is left out when it is empty. */
  function OptionalText(key: string, value: Bytes): Bytes {
    if value == [] then [] else Ascii(key) + Quoted(value)
  }

  function PromptJson(p: Prompt): Bytes {
    PromptHead(p) +
    (if p.stopReason == NoReason then []
     else Ascii(",\"stopReason\":\"") + ReasonText(p.stopReason) + Ascii("\"")) +
    OptionalText(",\"userText\":", p.userText) + OptionalText(",\"agentText\":", p.agentText) +
    Ascii(",\"toolCalls\":") + Decimal(p.toolCalls) + Ascii("}")
  }

  function PromptHead(p: Prompt): Bytes {
    Ascii("{\"sequence\":") + Decimal(p.sequence) + Ascii(",\"sessionId\":") + Quoted(p.sessionId) +
    Ascii(",\"state\":\"") + StateText(p.state) + Ascii("\"")
  }

  function Comma(items: int): Bytes {
    if items > 1 then Ascii(",") else []
  }

  function SessionsJson(sessions: seq<Session>): Bytes {
    if sessions == [] then []
    else
      SessionsJson(sessions[..|sessions| - 1]) + Comma(|sessions|) + SessionJson(sessions[|sessions| - 1])
  }

  function PromptsJson(prompts: seq<Prompt>): Bytes {
    if prompts == [] then []
    else PromptsJson(prompts[..|prompts| - 1]) + Comma(|prompts|) + PromptJson(prompts[|prompts| - 1])
  }

  function HeadJson(s: Snapshot): Bytes {
    Ascii("{\"revision\":") + Decimal(s.revision) + Ascii(",\"protocolVersion\":") + Decimal(s.protocolVersion) +
    Ascii(",\"agent\":") + AgentJson(s.agent) +
    (if s.needsAuthentication then Ascii(",\"needsAuthentication\":true") else [])
  }

  function TailJson(s: Snapshot): Bytes {
    Ascii(",\"incomplete\":") + Truth(s.incomplete) + Ascii(",\"final\":") + Truth(s.final) +
    (if s.exitCode.Some? then Ascii(",\"exitCode\":") + Number(s.exitCode.value) else []) + Ascii("}")
  }

  /** The snapshot's JSON text, in the order of its fields. */
  function SnapshotJson(s: Snapshot): Bytes {
    HeadJson(s) + Ascii(",\"sessions\":[") + SessionsJson(s.sessions) + Ascii("],\"prompts\":[") +
    PromptsJson(s.prompts) + Ascii("]") + TailJson(s)
  }

  // ---------- Its size ----------

  lemma {:induction false} DecimalSays(n: nat)
    ensures |Decimal(n)| == DecimalLength(n)
  {
    if n >= 10 { DecimalSays(n / 10); }
  }

  lemma NumberSays(n: int)
    ensures |Number(n)| == IntLength(n)
  {
    DecimalSays(if n < 0 then -n else n);
  }

  lemma QuotedSays(s: Bytes)
    ensures |Quoted(s)| == QuotedLength(s)
  {
    EscapedSays(s);
  }

  lemma OperationSays(operation: Operation)
    ensures |OperationText(operation)| == OperationLength(operation)
  {
    if operation.UnknownOperation? { EscapedSays(operation.name); }
  }

  lemma StateSays(state: PromptState)
    ensures |StateText(state)| == StateLength(state)
  {
    if state.UnknownState? { EscapedSays(state.name); }
  }

  lemma ReasonSays(reason: StopReason)
    ensures |ReasonText(reason)| == ReasonLength(reason)
  {
    if reason.UnknownReason? { EscapedSays(reason.name); }
  }

  lemma AgentSays(agent: Agent)
    ensures |AgentJson(agent)| == AgentLength(agent)
  {
    hide Quoted, QuotedLength;
    QuotedSays(agent.name);
    QuotedSays(agent.version);
  }

  lemma SessionSays(session: Session)
    ensures |SessionJson(session)| == SessionLength(session)
  {
    hide Quoted, QuotedLength, OperationText, OperationLength;
    QuotedSays(session.id);
    QuotedSays(session.cwd);
    OperationSays(session.operation);
  }

  lemma PromptHeadSays(p: Prompt)
    ensures |PromptHead(p)| == 36 + DecimalLength(p.sequence) + QuotedLength(p.sessionId) + StateLength(p.state)
  {
    hide Quoted, QuotedLength, StateText, StateLength, Decimal, DecimalLength;
    DecimalSays(p.sequence);
    QuotedSays(p.sessionId);
    StateSays(p.state);
  }

  lemma PromptSays(p: Prompt)
    ensures |PromptJson(p)| == PromptLength(p)
  {
    hide PromptHead, Quoted, QuotedLength, StateLength, ReasonText, ReasonLength, Decimal, DecimalLength;
    PromptHeadSays(p);
    ReasonSays(p.stopReason);
    QuotedSays(p.userText);
    QuotedSays(p.agentText);
    DecimalSays(p.toolCalls);
  }

  lemma {:induction false} SessionsSay(sessions: seq<Session>)
    ensures |SessionsJson(sessions)| == SessionsLength(sessions)
  {
    hide SessionJson, SessionLength;
    if sessions != [] {
      SessionsSay(sessions[..|sessions| - 1]);
      SessionSays(sessions[|sessions| - 1]);
    }
  }

  lemma {:induction false} PromptsSay(prompts: seq<Prompt>)
    ensures |PromptsJson(prompts)| == PromptsLength(prompts)
  {
    hide PromptJson, PromptLength;
    if prompts != [] {
      PromptsSay(prompts[..|prompts| - 1]);
      PromptSays(prompts[|prompts| - 1]);
    }
  }

  lemma HeadSays(s: Snapshot)
    ensures |HeadJson(s)| == 40 + DecimalLength(s.revision) + DecimalLength(s.protocolVersion) + AgentLength(s.agent) +
      if s.needsAuthentication then 27 else 0
  {
    hide Decimal, DecimalLength, AgentJson, AgentLength;
    DecimalSays(s.revision);
    DecimalSays(s.protocolVersion);
    AgentSays(s.agent);
  }

  lemma TailSays(s: Snapshot)
    ensures |TailJson(s)| == 24 + BoolLength(s.incomplete) + BoolLength(s.final) +
      if s.exitCode.Some? then 12 + IntLength(s.exitCode.value) else 0
  {
    hide Number, IntLength;
    if s.exitCode.Some? { NumberSays(s.exitCode.value); }
  }

  /** The size that trimming counts is the length of the JSON text. */
  lemma SizeSays(s: Snapshot)
    ensures |SnapshotJson(s)| == EncodedLength(s)
  {
    hide HeadJson, TailJson, SessionsJson, PromptsJson, SessionsLength, PromptsLength, AgentLength, DecimalLength,
      IntLength, BoolLength;
    HeadSays(s);
    TailSays(s);
    SessionsSay(s.sessions);
    PromptsSay(s.prompts);
  }

  /** Below 2^63 - 1 bytes and calls the JSON text that readers get is shorter than 768 KiB. */
  lemma PublishedTextFits(decode: Decoder, content: bool, calls: seq<Call>)
    requires Effort(calls) < MAX_INT64
    ensures |SnapshotJson(Published(Run(decode, content, calls)))| < 786_432
  {
    hide SnapshotJson, EncodedLength, Published, Run;
    SizeSays(Published(Run(decode, content, calls)));
    PublishedFits(decode, content, calls);
  }
}
