/** The guarantees of the ACP observer over every sequence of calls its owner can make. */
module AcpRuns {
  import opened Wrappers
  import opened Utf8
  import opened AcpSnapshot
  import opened AcpMessages
  import opened AcpInvariant
  import opened AcpExact
  import opened AcpComplete
  import AcpRecords
  import opened AcpFraming

  /** The state-changing calls on an observer. */
  datatype Call = Feed(client: bool, data: Bytes) | Finish(exitCode: int64, incomplete: bool)

  function Tagged(client: bool, data: Bytes): (w: Wire)
    ensures |w| == |data|
    ensures forall i | 0 <= i < |data| :: w[i] == WireByte(client, data[i])
  {
    seq(|data|, i requires 0 <= i < |data| => WireByte(client, data[i]))
  }

  function Apply(decode: Decoder, s: State, call: Call): State {
    match call
    case Feed(client, data) => OnWire(decode, s, Tagged(client, data))
    case Finish(exitCode, incomplete) => Finished(s, exitCode, incomplete)
  }

  function Run(decode: Decoder, content: bool, calls: seq<Call>): State {
    if calls == [] then Initial(content)
    else Apply(decode, Run(decode, content, calls[..|calls| - 1]), calls[|calls| - 1])
  }

  /** What a reader of the observer sees. */
  function Published(s: State): Snapshot {
    Trimmed(s.snapshot)
  }

  // ---------- Chunking ----------

  /** Feeding two chunks of one side is feeding their concatenation. */
  lemma ChunkingIrrelevant(decode: Decoder, s: State, client: bool, a: Bytes, b: Bytes)
    ensures Apply(decode, s, Feed(client, a + b)) == Apply(decode, Apply(decode, s, Feed(client, a)), Feed(client, b))
  {
    assert Tagged(client, a + b) == Tagged(client, a) + Tagged(client, b);
    OnWireConcat(decode, s, Tagged(client, a), Tagged(client, b));
  }

  // ---------- Every reachable state ----------

  lemma {:induction false} WireKeeps(decode: Decoder, s: State, w: Wire)
    requires Inv(s)
    ensures var t := OnWire(decode, s, w);
      Inv(t) && Evolves(s, t) && t.snapshot.final == s.snapshot.final
  {
    hide Inv, Evolves, OnByte;
    if w == [] {
      EvolvesReflexive(s);
    } else {
      var before, last := w[..|w| - 1], w[|w| - 1];
      WireKeeps(decode, s, before);
      var t := OnWire(decode, s, before);
      ByteKeepsInv(decode, t, last.client, last.b);
      ByteEvolves(decode, t, last.client, last.b);
      ByteKeepsFinal(decode, t, last.client, last.b);
      EvolvesTransitive(s, t, OnByte(decode, t, last.client, last.b));
    }
  }

  lemma EvolvesReflexive(s: State)
    ensures Evolves(s, s)
  {
  }

  lemma ByteKeepsFinal(decode: Decoder, s: State, client: bool, b: byte)
    requires Inv(s)
    ensures OnByte(decode, s, client, b).snapshot.final == s.snapshot.final
  {
    hide Inv, OnFrame, Blank;
    if !s.snapshot.final {
      FrameKeepsInv(decode, s, client, Stream(s, client).bytes);
    }
  }

  lemma ApplyKeeps(decode: Decoder, s: State, call: Call)
    requires Inv(s)
    ensures Inv(Apply(decode, s, call)) && Evolves(s, Apply(decode, s, call))
  {
    hide Inv, Evolves, OnWire, Finished;
    match call
    case Feed(client, data) => WireKeeps(decode, s, Tagged(client, data));
    case Finish(exitCode, incomplete) =>
      FinishKeepsInv(s, exitCode, incomplete);
      FinishEvolves(s, exitCode, incomplete);
  }

  /** The coupling of requests, prompts, sessions and budget holds after every sequence of calls. */
  lemma {:induction false} RunKeepsInv(decode: Decoder, content: bool, calls: seq<Call>)
    ensures Inv(Run(decode, content, calls)) && Run(decode, content, calls).content == content
  {
    if calls == [] {
      InitialInv(content);
    } else {
      hide Inv, Apply;
      var before := calls[..|calls| - 1];
      RunKeepsInv(decode, content, before);
      ApplyKeeps(decode, Run(decode, content, before), calls[|calls| - 1]);
    }
  }

  /** Any later moment of a run evolves from any earlier one: revisions never decrease, equal revisions mean
      equal snapshots, settled prompts are frozen, and a final observer no longer changes. */
  lemma {:induction false} RunEvolves(decode: Decoder, content: bool, calls: seq<Call>, n: nat)
    requires n <= |calls|
    ensures Evolves(Run(decode, content, calls[..n]), Run(decode, content, calls))
  {
    hide Inv, Evolves, Apply;
    if n == |calls| {
      assert calls[..n] == calls;
      EvolvesReflexive(Run(decode, content, calls));
    } else {
      var before := calls[..|calls| - 1];
      assert before[..n] == calls[..n];
      RunEvolves(decode, content, before, n);
      RunKeepsInv(decode, content, before);
      ApplyKeeps(decode, Run(decode, content, before), calls[|calls| - 1]);
      EvolvesTransitive(Run(decode, content, calls[..n]), Run(decode, content, before), Run(decode, content, calls));
    }
  }

  /** Equal revisions are idempotent: two reads at one revision see one snapshot. */
  lemma RevisionDeterminesSnapshot(decode: Decoder, content: bool, calls: seq<Call>, i: nat, j: nat)
    requires i <= j <= |calls|
    ensures var s, t := Run(decode, content, calls[..i]), Run(decode, content, calls[..j]);
      && Published(s).revision <= Published(t).revision
      && (Published(s).revision == Published(t).revision ==> Published(s) == Published(t))
  {
    hide Trimmed, Run;
    assert calls[..j][..i] == calls[..i];
    RunEvolves(decode, content, calls[..j], i);
    TrimmedPriorities(Run(decode, content, calls[..i]).snapshot);
    TrimmedPriorities(Run(decode, content, calls[..j]).snapshot);
  }

  // ---------- Legality and size of what is published ----------

  /** Every published snapshot passes the validator, but for the range of its revision and exit code. */
  lemma LegalInRange(decode: Decoder, content: bool, calls: seq<Call>)
    ensures var s := Run(decode, content, calls);
      Legal(Published(s), content) <==>
        s.snapshot.revision <= MAX_INT64 && (s.snapshot.exitCode.Some? ==> 0 <= s.snapshot.exitCode.value <= 255)
  {
    RunKeepsInv(decode, content, calls);
    var s := Run(decode, content, calls);
    InvLegal(s);
    TrimmedPriorities(s.snapshot);
    assert s.snapshot.final == s.snapshot.exitCode.Some?;
    hide Inv, Run, Trimmed, LegalSessions, LegalPrompts, TextTotal, SessionTrimmed, PromptTrimmed;
    if Legal(s.snapshot, content) {
      TrimmedLegal(s.snapshot, content);
    }
  }

  /** Bytes fed, plus one for every other call. */
  function Effort(calls: seq<Call>): nat {
    if calls == [] then 0
    else
      Effort(calls[..|calls| - 1]) +
      match calls[|calls| - 1] case Feed(_, data) => |data| case Finish(_, _) => 1
  }

  lemma ResponseRevision(s: State, m: Message)
    ensures s.snapshot.revision <= OnResponse(s, m).snapshot.revision <= s.snapshot.revision + 1
  {
    hide HasSession, Bounded, Settled;
  }

  lemma UpdateRevision(s: State, m: Message)
    ensures s.snapshot.revision <= OnUpdate(s, m).snapshot.revision <= s.snapshot.revision + 1
  {
    hide Retain, Chunked, Called;
  }

  lemma RequestRevision(s: State, m: Message)
    requires Tracked(m.rpc)
    ensures s.snapshot.revision <= OnRequest(s, m).snapshot.revision <= s.snapshot.revision + 1
  {
    hide RetainBlocks, HasSession;
  }

  lemma FrameRevision(decode: Decoder, s: State, client: bool, frame: Bytes)
    ensures s.snapshot.revision <= OnFrame(decode, s, client, frame).snapshot.revision <= s.snapshot.revision + 1
  {
    hide OnResponse, OnUpdate, OnRequest, Valid;
    if decode(frame).Some? {
      var m := decode(frame).value;
      if Tracked(m.rpc) { RequestRevision(s, m); }
      ResponseRevision(s, m);
      UpdateRevision(s, m);
    }
  }

  lemma {:induction false} WireRevision(decode: Decoder, s: State, w: Wire)
    ensures OnWire(decode, s, w).snapshot.revision <= s.snapshot.revision + |w|
  {
    hide OnFrame, Blank;
    if w != [] {
      var before, last := w[..|w| - 1], w[|w| - 1];
      WireRevision(decode, s, before);
      var t := OnWire(decode, s, before);
      FrameRevision(decode, t, last.client, Stream(t, last.client).bytes);
    }
  }

  /** The revision is at most one per byte fed. */
  lemma {:induction false} RunRevision(decode: Decoder, content: bool, calls: seq<Call>)
    ensures Run(decode, content, calls).snapshot.revision <= 1 + Effort(calls)
  {
    if calls != [] {
      var before, call := calls[..|calls| - 1], calls[|calls| - 1];
      RunRevision(decode, content, before);
      if call.Feed? {
        WireRevision(decode, Run(decode, content, before), Tagged(call.client, call.data));
      }
    }
  }

  /** Below 2^63 - 1 bytes and calls the encoded snapshot always fits its storage bound. */
  lemma PublishedFits(decode: Decoder, content: bool, calls: seq<Call>)
    requires Effort(calls) < MAX_INT64
    ensures EncodedLength(Published(Run(decode, content, calls))) < MAX_SNAPSHOT_BYTES
  {
    RunRevision(decode, content, calls);
    RunKeepsInv(decode, content, calls);
    var s := Run(decode, content, calls);
    assert forall i | 0 <= i < |s.snapshot.sessions| :: LegalSession(s.snapshot.sessions[i]);
    hide Run, Trimmed, EncodedLength;
    TrimmedFits(s.snapshot);
  }

  // ---------- Exactness ----------

  /** Number of calls before the first Finish. */
  function FirstFinish(calls: seq<Call>): (n: nat)
    ensures n <= |calls|
    ensures forall i | 0 <= i < n :: calls[i].Feed?
    ensures n < |calls| ==> calls[n].Finish?
  {
    if calls == [] then 0
    else
      var n := FirstFinish(calls[..|calls| - 1]);
      if n < |calls| - 1 || calls[|calls| - 1].Finish? then n else |calls|
  }

  /** The bytes of a sequence of feeds. */
  function WireOf(calls: seq<Call>): Wire {
    if calls == [] then []
    else
      WireOf(calls[..|calls| - 1]) +
      match calls[|calls| - 1] case Feed(client, data) => Tagged(client, data) case Finish(_, _) => []
  }

  lemma {:induction false} FeedsAreOneWire(decode: Decoder, content: bool, calls: seq<Call>)
    requires forall i | 0 <= i < |calls| :: calls[i].Feed?
    ensures Run(decode, content, calls) == OnWire(decode, Initial(content), WireOf(calls))
  {
    hide OnByte;
    if calls != [] {
      var before, call := calls[..|calls| - 1], calls[|calls| - 1];
      FeedsAreOneWire(decode, content, before);
      OnWireConcat(decode, Initial(content), WireOf(before), Tagged(call.client, call.data));
    }
  }

  lemma RunLast(decode: Decoder, content: bool, calls: seq<Call>)
    requires calls != []
    ensures Run(decode, content, calls) == Apply(decode, Run(decode, content, calls[..|calls| - 1]), calls[|calls| - 1])
  {
    hide Apply;
  }

  lemma FinalStays(s: State, t: State)
    requires Evolves(s, t) && s.snapshot.final
    ensures t == s
  {
  }

  /** A run that has a Finish is the wire before it, finished. */
  lemma RunIsFinishedWire(decode: Decoder, content: bool, calls: seq<Call>)
    requires FirstFinish(calls) < |calls|
    ensures var n := FirstFinish(calls);
      Run(decode, content, calls) ==
      Finished(OnWire(decode, Initial(content), WireOf(calls[..n])), calls[n].exitCode, calls[n].incomplete)
  {
    hide OnWire, Finished, Run, Inv, Evolves, WireOf;
    var n := FirstFinish(calls);
    var through := calls[..n + 1];
    assert through[..n] == calls[..n] && through[n] == calls[n];
    RunLast(decode, content, through);
    FeedsAreOneWire(decode, content, calls[..n]);
    RunKeepsInv(decode, content, calls[..n]);
    FinishKeepsInv(Run(decode, content, calls[..n]), calls[n].exitCode, calls[n].incomplete);
    RunEvolves(decode, content, calls, n + 1);
    FinalStays(Run(decode, content, through), Run(decode, content, calls));
  }

  /** What the wire was, for a complete observation: whole lines only, each blank or a decoded message of
      admissible size. */
  ghost predicate WhollyObserved(decode: Decoder, w: Wire) {
    && Tail(w, true) == [] && Tail(w, false) == []
    && forall i | 0 <= i < |Lines(w)| :: Decodes(decode, Lines(w)[i]) && !Oversized(Lines(w)[i].bytes)
  }

  lemma FinishedComplete(s: State, exitCode: int64, incomplete: bool)
    ensures var t := Finished(s, exitCode, incomplete);
      !s.snapshot.final && !t.snapshot.incomplete ==>
        !s.snapshot.incomplete && s.clientStream == s.agentStream == EMPTY_STREAM
  {
  }

  lemma OnlyWholeComplete(decode: Decoder, content: bool, w: Wire, exitCode: int64, incomplete: bool)
    requires !Finished(OnWire(decode, Initial(content), w), exitCode, incomplete).snapshot.incomplete
    ensures WhollyObserved(decode, w)
  {
    var s := OnWire(decode, Initial(content), w);
    var core := OnLines(decode, Initial(content), Lines(w));
    Framing(decode, content, w);
    OnLinesKeeps(decode, content, Lines(w));
    hide OnWire, OnLines, Inv, Finished, MessageRun, Lines, Tail, Decodes, Events, OversizedIn;
    FinishedComplete(s, exitCode, incomplete);
    assert OversizedIn(Lines(w)) == 0 && core == s;
    ObservedLines(decode, content, Lines(w));
  }

  lemma WholeWire(decode: Decoder, content: bool, w: Wire)
    requires WhollyObserved(decode, w)
    ensures OnWire(decode, Initial(content), w) == MessageRun(content, Events(decode, Lines(w)))
  {
    hide OnWire, OnLines, MessageRun, Lines, Tail, Decodes, Events, Inv, Follows, AllFollowable, OversizedIn;
    Framing(decode, content, w);
    DecodedLines(decode, content, Lines(w));
    MessageRunFollows(content, Events(decode, Lines(w)));
  }

  /** The messages of a wire. */
  function Heard(decode: Decoder, w: Wire): History {
    Events(decode, Lines(w))
  }

  /** The wire up to the first Finish. */
  function Observed(calls: seq<Call>): Wire {
    WireOf(calls[..FirstFinish(calls)])
  }

  /** Nothing was missed, in terms of the calls alone: both streams are whole decodable lines of admissible size,
      every message can be followed after those before it, and every tracked request is answered. */
  ghost predicate Observable(decode: Decoder, content: bool, w: Wire) {
    WhollyObserved(decode, w) && AllFollowable(content, Heard(decode, w)) && AllAnswered(Heard(decode, w))
  }

  /** A finished observer is incomplete exactly when its owner said so or something was missed. */
  lemma IncompleteExactly(decode: Decoder, content: bool, calls: seq<Call>)
    requires FirstFinish(calls) < |calls|
    ensures Run(decode, content, calls).snapshot.incomplete <==>
      calls[FirstFinish(calls)].incomplete || !Observable(decode, content, Observed(calls))
  {
    hide Run, OnWire, Finished, WhollyObserved, AllFollowable, AllAnswered, Heard;
    var n, w := FirstFinish(calls), Observed(calls);
    RunIsFinishedWire(decode, content, calls);
    if WhollyObserved(decode, w) {
      WholeWire(decode, content, w);
      assert Heard(decode, w) == Events(decode, Lines(w)) by { HeardIs(decode, w); }
      CompleteHistoryIsExact(content, Heard(decode, w), calls[n].exitCode, calls[n].incomplete);
    } else if !Run(decode, content, calls).snapshot.incomplete {
      OnlyWholeComplete(decode, content, w, calls[n].exitCode, calls[n].incomplete);
    }
  }

  lemma HeardIs(decode: Decoder, w: Wire)
    ensures Heard(decode, w) == Events(decode, Lines(w))
  {
  }

  /** Readers see an incomplete snapshot exactly when the observer is incomplete or its encoding had to be trimmed. */
  lemma PublishedIncomplete(s: State)
    ensures Published(s).incomplete <==> s.snapshot.incomplete || EncodedLength(s.snapshot) >= MAX_SNAPSHOT_BYTES
  {
    hide EncodedLength, ClearPrompts, ClearSessions, DropPrompts;
  }

  /** A final snapshot that is not marked incomplete is exact: nothing was missed, the prompts are the client's
      session/prompt requests one for one in order with their full texts, tool calls and outcomes, the sessions are
      those that successful replies opened, no session had two prompts open at once, and every other field is the one
      that the messages determine. */
  lemma CompleteObservationIsExact(decode: Decoder, content: bool, calls: seq<Call>)
    ensures var p := Published(Run(decode, content, calls));
      var w := Observed(calls);
      p.final && !p.incomplete ==>
        && FirstFinish(calls) < |calls| && Observable(decode, content, w) && NoOverlap(Heard(decode, w))
        && ExactSnapshot(content, Heard(decode, w), calls[FirstFinish(calls)].exitCode, p)
  {
    hide Run, OnWire, Finished, WhollyObserved, AllFollowable, AllAnswered, Heard, ExactSnapshot, NoOverlap, Trimmed,
      SessionTrimmed, PromptTrimmed;
    var s := Run(decode, content, calls);
    TrimmedPriorities(s.snapshot);
    FinalHasFinish(decode, content, calls);
    if s.snapshot.final && !Published(s).incomplete {
      var n, w := FirstFinish(calls), Observed(calls);
      IncompleteExactly(decode, content, calls);
      RunIsFinishedWire(decode, content, calls);
      WholeWire(decode, content, w);
      HeardIs(decode, w);
      CompleteHistoryIsExact(content, Heard(decode, w), calls[n].exitCode, calls[n].incomplete);
    }
  }

  /** Only Finish makes an observer final. */
  lemma FinalHasFinish(decode: Decoder, content: bool, calls: seq<Call>)
    ensures Run(decode, content, calls).snapshot.final <==> FirstFinish(calls) < |calls|
    ensures FirstFinish(calls) < |calls| ==>
      Run(decode, content, calls).snapshot.exitCode == Some(calls[FirstFinish(calls)].exitCode)
  {
    hide OnByte, Inv, Evolves, Run, OnWire;
    var n := FirstFinish(calls);
    FeedsAreOneWire(decode, content, calls[..n]);
    InitialInv(content);
    WireKeeps(decode, Initial(content), WireOf(calls[..n]));
    if n < |calls| {
      RunIsFinishedWire(decode, content, calls);
    } else {
      assert calls[..n] == calls;
    }
  }

  /** What readers get passes the validator, in runs of fewer than 2^63 - 1 bytes and calls, exactly when the first
      Finish has an 8-bit exit code. */
  lemma PublishedLegal(decode: Decoder, content: bool, calls: seq<Call>)
    requires Effort(calls) < MAX_INT64
    ensures Legal(Published(Run(decode, content, calls)), content) <==>
      (FirstFinish(calls) < |calls| ==> 0 <= calls[FirstFinish(calls)].exitCode <= 255)
  {
    hide Run, Trimmed, Legal;
    RunRevision(decode, content, calls);
    LegalInRange(decode, content, calls);
    FinalHasFinish(decode, content, calls);
    RunFinal(decode, content, calls);
  }

  lemma RunFinal(decode: Decoder, content: bool, calls: seq<Call>)
    ensures var sn := Run(decode, content, calls).snapshot; sn.final == sn.exitCode.Some?
  {
    RunKeepsInv(decode, content, calls);
  }

  // ---------- Every run ----------

  /** The messages that an observer can have seen up to the first Finish. */
  function Seen(decode: Decoder, calls: seq<Call>): History {
    Events(decode, Admitted(Lines(Observed(calls))))
  }

  lemma SeenWire(decode: Decoder, content: bool, w: Wire)
    ensures
      var t, s := OnWire(decode, Initial(content), w), MessageRun(content, Events(decode, Admitted(Lines(w))));
      t.snapshot.sessions == s.snapshot.sessions && t.snapshot.prompts == s.snapshot.prompts
  {
    hide OnWire, OnLines, MessageRun, Events, Admitted, Lines, Tail, OversizedLines, Undecoded;
    Framing(decode, content, w);
    LinesAreMessages(decode, content, Lines(w));
  }

  /** In every run, complete or not: the sessions are those that the messages opened, and the prompts are those that the
      messages took, each with the texts as far as they fitted, the calls and the outcome that the messages say; a
      finished run has interrupted what was pending. */
  lemma RecordsInEveryRun(decode: Decoder, content: bool, calls: seq<Call>)
    ensures
      var sn, h := Run(decode, content, calls).snapshot, Seen(decode, calls);
      && sn.sessions == AcpRecords.LedgerOf(h).sessions
      && exists prompts: seq<Prompt> :: AcpRecords.AreRecords(content, h, prompts) && |sn.prompts| == |prompts| &&
           forall i | 0 <= i < |prompts| :: sn.prompts[i] ==
             if sn.final && prompts[i].state == Pending then prompts[i].(state := Interrupted) else prompts[i]
  {
    hide Run, OnWire, MessageRun, Inv, AcpRecords.LedgerOf, AcpRecords.AreRecords, Events, Admitted, Lines;
    var n := FirstFinish(calls);
    var w := Observed(calls);
    SeenWire(decode, content, w);
    AcpRecords.EveryRunMirrors(content, Seen(decode, calls));
    FinalHasFinish(decode, content, calls);
    if n < |calls| {
      RunIsFinishedWire(decode, content, calls);
      WireNotFinal(decode, content, w);
      FinishedParts(OnWire(decode, Initial(content), w), calls[n].exitCode, calls[n].incomplete);
    } else {
      assert calls[..n] == calls;
      FeedsAreOneWire(decode, content, calls);
    }
  }

  lemma WireNotFinal(decode: Decoder, content: bool, w: Wire)
    ensures !OnWire(decode, Initial(content), w).snapshot.final
  {
    InitialInv(content);
    hide Inv, OnWire, Evolves;
    WireKeeps(decode, Initial(content), w);
  }

  lemma FinishedParts(s: State, exitCode: int64, incomplete: bool)
    requires !s.snapshot.final
    ensures var t := Finished(s, exitCode, incomplete);
      && t.snapshot.sessions == s.snapshot.sessions && t.snapshot.final
      && |t.snapshot.prompts| == |s.snapshot.prompts|
      && forall i | 0 <= i < |s.snapshot.prompts| :: t.snapshot.prompts[i] ==
           if s.snapshot.prompts[i].state == Pending then s.snapshot.prompts[i].(state := Interrupted)
           else s.snapshot.prompts[i]
  {
    hide Unfinished;
  }
}
