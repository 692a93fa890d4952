/** The byte-opaque ACP relay: two copying pumps and a coordinator, as atomic steps under any interleaving. */
module AcpRelay {
  import opened Wrappers

  type Error = nat

  const SHORT_WRITE: Error := 0
  const NEVER_STARTED: Error := 1

  datatype Direction = ClientToAgent | AgentToClient

  /** The errors the relay itself can return once it runs. */
  datatype Failure =
    | Cancelled
    | TransferFailed(direction: Direction, cause: Error)
    | CloseFailed(direction: Direction, cause: Error)
    | IncompleteTransfer(direction: Direction)

  /** What a Read reports besides its bytes. */
  datatype ReadEnd = More | Eof | ReadError(cause: Error)

  /** A pump is io.CopyBuffer: read a chunk, write all of it, stop at the first error or at EOF. */
  datatype Phase =
    | Reading
    | Writing(chunk: seq<int>, end: ReadEnd)
    | Finished(err: Option<Error>)
    | Joined(err: Option<Error>)

  /** source and sink are the bytes read from one stream and accepted by the other so far. */
  datatype Pump = Pump(phase: Phase, source: seq<int>, sink: seq<int>, eof: bool)

  /** A stream closed through a sync.Once: the number of real closes and the recorded outcome. */
  datatype Closer = Closer(calls: nat, err: Option<Error>)

  datatype Closers = Closers(clientInput: Closer, clientOutput: Closer, agentInput: Closer, agentOutput: Closer)

  /** What each stream's Close would report if it were called in this step. */
  datatype Outcomes = Outcomes(
    clientInput: Option<Error>, clientOutput: Option<Error>, agentInput: Option<Error>, agentOutput: Option<Error>)

  datatype State = State(
    client: Pump, agent: Pump, closers: Closers,
    contextDone: bool, watching: bool, remaining: nat, stopping: bool, terminal: Option<Failure>,
    clientToAgentBytes: nat, agentToClientBytes: nat, returned: bool)

  datatype Action =
    | CancelContext
    | Read(direction: Direction, data: seq<int>, end: ReadEnd)
    | Write(direction: Direction, accepted: nat, err: Option<Error>)
    | ObserveCancel(outcomes: Outcomes)
    | Receive(direction: Direction, outcomes: Outcomes)
    | Return(outcomes: Outcomes)

  // ---------- Steps ----------

  function Close(c: Closer, outcome: Option<Error>): Closer {
    if c.calls == 0 then Closer(1, outcome) else c
  }

  function CloseAll(c: Closers, o: Outcomes): Closers {
    Closers(Close(c.clientInput, o.clientInput), Close(c.clientOutput, o.clientOutput),
            Close(c.agentInput, o.agentInput), Close(c.agentOutput, o.agentOutput))
  }

  const FRESH := Closer(0, None)
  const IDLE := Pump(Reading, [], [], false)

  /** Relay after its arguments passed validation. */
  function Begin(contextDone: bool, outcomes: Outcomes): State {
    var open := Closers(FRESH, FRESH, FRESH, FRESH);
    if contextDone then
      var never := Pump(Joined(Some(NEVER_STARTED)), [], [], false);
      State(never, never, CloseAll(open, outcomes), true, false, 0, true, Some(Cancelled), 0, 0, true)
    else
      State(IDLE, IDLE, open, false, true, 2, false, None, 0, 0, false)
  }

  function GetPump(s: State, d: Direction): Pump {
    if d == ClientToAgent then s.client else s.agent
  }

  function SetPump(s: State, d: Direction, p: Pump): State {
    if d == ClientToAgent then s.(client := p) else s.(agent := p)
  }

  /** Where a pump goes after a chunk that was written in full. */
  function AfterChunk(end: ReadEnd): Phase {
    match end
    case More => Reading
    case Eof => Finished(None)
    case ReadError(cause) => Finished(Some(cause))
  }

  function ReadStep(p: Pump, data: seq<int>, end: ReadEnd): Pump {
    Pump(if data == [] then AfterChunk(end) else Writing(data, end), p.source + data, p.sink, p.eof || end == Eof)
  }

  function WriteStep(p: Pump, accepted: nat, err: Option<Error>): Pump
    requires p.phase.Writing? && accepted <= |p.phase.chunk|
  {
    p.(sink := p.sink + p.phase.chunk[..accepted],
       phase := if err.Some? then Finished(err)
                else if accepted < |p.phase.chunk| then Finished(Some(SHORT_WRITE))
                else AfterChunk(p.phase.end))
  }

  function Fail(s: State, failure: Failure, outcomes: Outcomes): State {
    s.(terminal := Some(failure), stopping := true, closers := CloseAll(s.closers, outcomes))
  }

  /** A failure met after the relay is already stopping: it counts only if nothing failed before. */
  function LateFailure(s: State, failure: Failure): State {
    if s.terminal.None? then s.(terminal := Some(failure)) else s
  }

  /** Takes a finished pump's result off the channel. */
  function Join(s: State, d: Direction): State {
    var p := GetPump(s, d);
    var joined := SetPump(s, d, p.(phase := Joined(if p.phase.Finished? then p.phase.err else None)));
    joined.(remaining := if s.remaining > 0 then s.remaining - 1 else 0,
            clientToAgentBytes := if d == ClientToAgent then |p.sink| else s.clientToAgentBytes,
            agentToClientBytes := if d == AgentToClient then |p.sink| else s.agentToClientBytes)
  }

  function OnReceive(s: State, d: Direction, o: Outcomes): State
    requires GetPump(s, d).phase.Finished?
  {
    var p := GetPump(s, d);
    var t := Join(s, d);
    if s.stopping then
      if |p.source| > |p.sink| then LateFailure(t, IncompleteTransfer(d)) else t
    else if s.contextDone then Fail(t, Cancelled, o)
    else if p.phase.err.Some? then Fail(t, TransferFailed(d, p.phase.err.value), o)
    else if d == ClientToAgent then
      var output := Close(s.closers.agentOutput, o.agentOutput);
      var t' := t.(closers := t.closers.(agentOutput := output));
      if output.err.Some? then Fail(t', CloseFailed(d, output.err.value), o) else t'
    else
      var output := Close(s.closers.clientOutput, o.clientOutput);
      var t' := t.(closers := t.closers.(clientOutput := output));
      if output.err.Some? then Fail(t', CloseFailed(d, output.err.value), o)
      else t'.(stopping := true, closers := CloseAll(t'.closers, o))
  }

  predicate Enabled(s: State, a: Action) {
    match a
    case CancelContext => !s.contextDone && !s.returned
    case Read(d, _, _) => GetPump(s, d).phase.Reading?
    case Write(d, accepted, _) => GetPump(s, d).phase.Writing? && accepted <= |GetPump(s, d).phase.chunk|
    case ObserveCancel(_) => s.contextDone && s.watching && s.remaining > 0
    case Receive(d, _) => GetPump(s, d).phase.Finished? && s.remaining > 0
    case Return(_) => s.remaining == 0 && !s.returned
  }

  function Apply(s: State, a: Action): State
    requires Enabled(s, a)
  {
    match a
    case CancelContext => s.(contextDone := true)
    case Read(d, data, end) => SetPump(s, d, ReadStep(GetPump(s, d), data, end))
    case Write(d, accepted, err) => SetPump(s, d, WriteStep(GetPump(s, d), accepted, err))
    case ObserveCancel(o) =>
      (if s.stopping then s else Fail(s, Cancelled, o)).(watching := false)
    case Receive(d, o) => OnReceive(s, d, o)
    case Return(o) => s.(returned := true, closers := CloseAll(s.closers, o))
  }

  /** actions is an execution from s to t. */
  predicate Runs(s: State, actions: seq<Action>, t: State)
    decreases |actions|
  {
    if actions == [] then s == t
    else Enabled(s, actions[0]) && Runs(Apply(s, actions[0]), actions[1..], t)
  }

  // ---------- The invariant ----------

  /** The sink is what was read, less at most the chunk in flight or lost to an error. */
  predicate PumpInv(p: Pump) {
    match p.phase
    case Reading => p.sink == p.source && !p.eof
    case Writing(chunk, end) => p.source == p.sink + chunk && (p.eof <==> end == Eof)
    case Finished(err) => p.sink <= p.source && (err.None? ==> p.sink == p.source && p.eof)
    case Joined(err) => p.sink <= p.source && (err.None? ==> p.sink == p.source && p.eof)
  }

  predicate AllClosed(c: Closers) {
    c.clientInput.calls == c.clientOutput.calls == c.agentInput.calls == c.agentOutput.calls == 1
  }

  /** While nothing stops the relay, only client EOF has closed anything: the agent's output half. */
  predicate RunningInv(s: State) {
    && s.watching && s.terminal.None? && !s.agent.phase.Joined?
    && s.closers.clientInput == s.closers.clientOutput == s.closers.agentInput == FRESH
    && s.closers.agentOutput == (if s.client.phase.Joined? then Closer(1, None) else FRESH)
    && (s.client.phase.Joined? ==> s.client.phase.err.None?)
  }

  predicate StoppingInv(s: State) {
    && AllClosed(s.closers)
    && (s.terminal.None? ==>
          && s.agent.phase == Joined(None) && s.closers.clientOutput.err.None?
          && (s.client.phase.Joined? ==> |s.client.source| == |s.client.sink|))
  }

  function Unjoined(p: Pump): nat {
    if p.phase.Joined? then 0 else 1
  }

  predicate Inv(s: State) {
    && PumpInv(s.client) && PumpInv(s.agent)
    && s.remaining == Unjoined(s.client) + Unjoined(s.agent)
    && (s.client.phase.Joined? ==> s.clientToAgentBytes == |s.client.sink|)
    && (s.agent.phase.Joined? ==> s.agentToClientBytes == |s.agent.sink|)
    && (if s.stopping then StoppingInv(s) else RunningInv(s))
    && (s.returned ==> s.remaining == 0)
  }

  lemma BeginInv(contextDone: bool, outcomes: Outcomes)
    ensures Inv(Begin(contextDone, outcomes))
  {
  }

  lemma ReadStepInv(p: Pump, data: seq<int>, end: ReadEnd)
    requires PumpInv(p) && p.phase.Reading?
    ensures PumpInv(ReadStep(p, data, end)) && !ReadStep(p, data, end).phase.Joined?
  {
  }

  lemma WriteStepInv(p: Pump, accepted: nat, err: Option<Error>)
    requires PumpInv(p) && p.phase.Writing? && accepted <= |p.phase.chunk|
    ensures PumpInv(WriteStep(p, accepted, err)) && !WriteStep(p, accepted, err).phase.Joined?
  {
    var chunk := p.phase.chunk;
    assert p.source == (p.sink + chunk[..accepted]) + chunk[accepted..];
    if accepted == |chunk| {
      assert chunk[..accepted] == chunk;
    }
  }

  lemma SetPumpInv(s: State, d: Direction, p: Pump)
    requires Inv(s) && !GetPump(s, d).phase.Joined? && PumpInv(p) && !p.phase.Joined?
    ensures Inv(SetPump(s, d, p))
  {
    hide PumpInv;
  }

  /** Joining a pump keeps everything but what its result means for the relay. */
  lemma JoinFacts(s: State, d: Direction)
    requires Inv(s) && GetPump(s, d).phase.Finished?
    ensures var t := Join(s, d);
      && PumpInv(t.client) && PumpInv(t.agent)
      && t.remaining == Unjoined(t.client) + Unjoined(t.agent)
      && (t.client.phase.Joined? ==> t.clientToAgentBytes == |t.client.sink|)
      && (t.agent.phase.Joined? ==> t.agentToClientBytes == |t.agent.sink|)
      && !s.returned
  {
  }

  lemma ReceiveStoppingInv(s: State, d: Direction, o: Outcomes)
    requires Inv(s) && GetPump(s, d).phase.Finished? && s.stopping
    ensures Inv(OnReceive(s, d, o))
  {
    JoinFacts(s, d);
    assert |GetPump(s, d).sink| <= |GetPump(s, d).source|;
    hide PumpInv;
  }

  lemma ReceiveRunningInv(s: State, d: Direction, o: Outcomes)
    requires Inv(s) && GetPump(s, d).phase.Finished? && !s.stopping
    ensures Inv(OnReceive(s, d, o))
  {
    JoinFacts(s, d);
    assert GetPump(s, d).phase.err.None? ==> GetPump(s, d).sink == GetPump(s, d).source;
    assert s.client.phase.Joined? ==> s.client.sink == s.client.source;
    hide PumpInv;
  }

  lemma StepInv(s: State, a: Action)
    requires Inv(s) && Enabled(s, a)
    ensures Inv(Apply(s, a))
  {
    match a
    case Read(d, data, end) =>
      ReadStepInv(GetPump(s, d), data, end);
      SetPumpInv(s, d, ReadStep(GetPump(s, d), data, end));
    case Write(d, accepted, err) =>
      WriteStepInv(GetPump(s, d), accepted, err);
      SetPumpInv(s, d, WriteStep(GetPump(s, d), accepted, err));
    case Receive(d, o) =>
      if s.stopping { ReceiveStoppingInv(s, d, o); } else { ReceiveRunningInv(s, d, o); }
    case _ =>
      hide PumpInv;
  }

  lemma {:induction false} RunInv(s: State, actions: seq<Action>, t: State)
    requires Inv(s) && Runs(s, actions, t)
    ensures Inv(t)
    decreases |actions|
  {
    if actions != [] {
      StepInv(s, actions[0]);
      RunInv(Apply(s, actions[0]), actions[1..], t);
    }
  }

  // ---------- What every run guarantees ----------

  /** Reachable from some start. */
  ghost predicate Reachable(t: State) {
    exists contextDone, outcomes, actions :: Runs(Begin(contextDone, outcomes), actions, t)
  }

  lemma ReachableInv(t: State)
    requires Reachable(t)
    ensures Inv(t)
  {
    var contextDone, outcomes, actions :| Runs(Begin(contextDone, outcomes), actions, t);
    BeginInv(contextDone, outcomes);
    RunInv(Begin(contextDone, outcomes), actions, t);
  }

  /** Every destination holds a prefix of its source; no stream is closed twice; and before the relay stops,
      client EOF alone has closed the agent's output half and nothing else. */
  lemma RelaySafety(t: State)
    requires Reachable(t)
    ensures t.client.sink <= t.client.source && t.agent.sink <= t.agent.source
    ensures t.closers.clientInput.calls <= 1 && t.closers.clientOutput.calls <= 1
    ensures t.closers.agentInput.calls <= 1 && t.closers.agentOutput.calls <= 1
    ensures !t.stopping ==>
      && t.closers.clientInput.calls == t.closers.clientOutput.calls == t.closers.agentInput.calls == 0
      && (t.closers.agentOutput.calls == 1 <==> t.client.phase.Joined?)
      && (t.client.phase.Joined? ==> t.client.eof && t.client.sink == t.client.source)
  {
    ReachableInv(t);
    PumpPrefix(t.client);
    PumpPrefix(t.agent);
  }

  lemma PumpPrefix(p: Pump)
    requires PumpInv(p)
    ensures p.sink <= p.source
  {
  }

  // ---------- Failures ----------

  /** The failure that a step meets, from what the pumps, the streams and the context say: a cancellation while the
      relay still runs, a pump that ends with an error or with undelivered bytes, or a half that does not close. */
  function Met(s: State, a: Action): Option<Failure> {
    match a
    case ObserveCancel(_) => if s.stopping then None else Some(Cancelled)
    case Receive(d, o) =>
      var p := GetPump(s, d);
      if s.stopping then (if |p.source| > |p.sink| then Some(IncompleteTransfer(d)) else None)
      else if s.contextDone then Some(Cancelled)
      else if p.phase.Finished? && p.phase.err.Some? then Some(TransferFailed(d, p.phase.err.value))
      else
        var output := if d == ClientToAgent then Close(s.closers.agentOutput, o.agentOutput)
          else Close(s.closers.clientOutput, o.clientOutput);
        if output.err.Some? then Some(CloseFailed(d, output.err.value)) else None
    case _ => None
  }

  function Earlier(first: Option<Failure>, second: Option<Failure>): Option<Failure> {
    if first.Some? then first else second
  }

  /** The first failure that an execution meets. */
  function FirstMet(s: State, actions: seq<Action>): Option<Failure>
    decreases |actions|
  {
    if actions == [] || !Enabled(s, actions[0]) then None
    else Earlier(Met(s, actions[0]), FirstMet(Apply(s, actions[0]), actions[1..]))
  }

  /** A recorded failure is never replaced, and a step records a failure exactly when it meets the first. */
  lemma FailureIsSticky(s: State, a: Action)
    requires Inv(s) && Enabled(s, a)
    ensures Apply(s, a).terminal == Earlier(s.terminal, Met(s, a))
  {
    hide CloseAll, PumpInv;
  }

  lemma {:induction false} RunFailure(s: State, actions: seq<Action>, t: State)
    requires Inv(s) && Runs(s, actions, t)
    ensures t.terminal == Earlier(s.terminal, FirstMet(s, actions))
    decreases |actions|
  {
    hide Inv, Met;
    if actions != [] {
      StepInv(s, actions[0]);
      FailureIsSticky(s, actions[0]);
      RunFailure(Apply(s, actions[0]), actions[1..], t);
    }
  }

  /** At return both pumps are joined, all four streams have been closed exactly once, the counts are the
      delivered lengths, and the error is the first failure that the execution met. */
  lemma ReturnedRelay(contextDone: bool, outcomes: Outcomes, actions: seq<Action>, t: State)
    requires Runs(Begin(contextDone, outcomes), actions, t) && t.returned
    ensures t.client.phase.Joined? && t.agent.phase.Joined?
    ensures AllClosed(t.closers)
    ensures t.clientToAgentBytes == |t.client.sink| && t.agentToClientBytes == |t.agent.sink|
    ensures t.terminal == if contextDone then Some(Cancelled) else FirstMet(Begin(contextDone, outcomes), actions)
  {
    BeginInv(contextDone, outcomes);
    RunInv(Begin(contextDone, outcomes), actions, t);
    RunFailure(Begin(contextDone, outcomes), actions, t);
    hide Runs, FirstMet;
  }

  /** No error means the agent's stream was delivered whole up to its EOF and its output closed cleanly, and
      every byte read from the client was accepted by the agent. */
  lemma SuccessfulRelay(t: State)
    requires Reachable(t) && t.returned && t.terminal.None?
    ensures t.agent.eof && t.agent.sink == t.agent.source && t.closers.clientOutput == Closer(1, None)
    ensures t.client.sink == t.client.source
    ensures t.agentToClientBytes == |t.agent.source| && t.clientToAgentBytes == |t.client.source|
  {
    ReachableInv(t);
    assert t.client.sink <= t.client.source;
    assert t.client.source[..|t.client.sink|] == t.client.source;
  }

  // ---------- Termination ----------

  function InputOf(s: State, d: Direction): Closer {
    if d == ClientToAgent then s.closers.clientInput else s.closers.agentInput
  }

  /** Closing a half unblocks its I/O: a read from a closed input ends without data. */
  predicate Unblocks(s: State, a: Action) {
    a.Read? && InputOf(s, a.direction).calls > 0 ==> a.data == [] && a.end != More
  }

  predicate FairRun(s: State, actions: seq<Action>)
    decreases |actions|
  {
    actions == [] ||
    (Enabled(s, actions[0]) && Unblocks(s, actions[0]) && FairRun(Apply(s, actions[0]), actions[1..]))
  }

  function PumpRank(p: Pump): nat {
    match p.phase case Reading => 2 case Writing(_, _) => 3 case Finished(_) => 1 case Joined(_) => 0
  }

  /** An upper bound on the steps left once the relay is stopping. */
  function Rank(s: State): nat {
    PumpRank(s.client) + PumpRank(s.agent) + (if s.watching then 1 else 0) +
    (if s.contextDone then 0 else 1) + (if s.returned then 0 else 1)
  }

  lemma StoppingStep(s: State, a: Action)
    requires Inv(s) && s.stopping && Enabled(s, a) && Unblocks(s, a)
    ensures Apply(s, a).stopping && Rank(Apply(s, a)) < Rank(s)
  {
    hide PumpInv, CloseAll;
    if a.Receive? {
      var t := OnReceive(s, a.direction, a.outcomes);
      assert t.client == Join(s, a.direction).client && t.agent == Join(s, a.direction).agent;
    }
  }

  /** Once stopping, every execution has fewer than ten steps left. */
  lemma {:induction false} StoppingTerminates(s: State, actions: seq<Action>)
    requires Inv(s) && s.stopping && FairRun(s, actions)
    ensures |actions| <= Rank(s) <= 9
    decreases |actions|
  {
    if actions != [] {
      StepInv(s, actions[0]);
      StoppingStep(s, actions[0]);
      StoppingTerminates(Apply(s, actions[0]), actions[1..]);
    }
  }

  /** And it cannot get stuck: until it returns, some step can be taken. A cancelled relay can always start
      stopping, so it returns. */
  lemma StoppingProgress(s: State) returns (a: Action)
    requires Inv(s) && !s.returned && (s.stopping || s.contextDone)
    ensures Enabled(s, a) && Unblocks(s, a)
    ensures Apply(s, a).stopping
  {
    var o := Outcomes(None, None, None, None);
    if !s.stopping {
      return ObserveCancel(o);
    }
    if s.remaining == 0 {
      return Return(o);
    }
    var d := if s.client.phase.Joined? then AgentToClient else ClientToAgent;
    match GetPump(s, d).phase
    case Reading => return Read(d, [], ReadError(1));
    case Writing(_, _) => return Write(d, 0, Some(1));
    case Finished(_) => return Receive(d, o);
  }
}
