/** What a relay returns, read off the sequence of its I/O results alone. */
module AcpRelayTrace {
  import opened Wrappers
  import opened AcpRelay

  // ---------- What the actions say about one direction ----------

  /** All bytes read. */
  function Fed(actions: seq<Action>, d: Direction): seq<int> {
    if actions == [] then []
    else
      var before, a := actions[..|actions| - 1], actions[|actions| - 1];
      if a.Read? && a.direction == d then Fed(before, d) + a.data else Fed(before, d)
  }

  /** The last read: its bytes and how it ended. */
  function LastRead(actions: seq<Action>, d: Direction): (seq<int>, ReadEnd) {
    if actions == [] then ([], More)
    else
      var a := actions[|actions| - 1];
      if a.Read? && a.direction == d then (a.data, a.end) else LastRead(actions[..|actions| - 1], d)
  }

  /** What a write accepts of the last read. */
  function Taken(chunk: seq<int>, accepted: nat): seq<int> {
    if accepted <= |chunk| then chunk[..accepted] else chunk
  }

  /** All bytes accepted. */
  function Accepted(actions: seq<Action>, d: Direction): seq<int> {
    if actions == [] then []
    else
      var before, a := actions[..|actions| - 1], actions[|actions| - 1];
      if a.Write? && a.direction == d then Accepted(before, d) + Taken(LastRead(before, d).0, a.accepted)
      else Accepted(before, d)
  }

  function ErrorOf(end: ReadEnd): Option<Error> {
    match end
    case More => None
    case Eof => None
    case ReadError(cause) => Some(cause)
  }

  /** The first I/O failure of a direction: a read's own error once what it brought is written, a write's own error, or
      a write that accepted too little without one. */
  function Broke(actions: seq<Action>, d: Direction): Option<Error> {
    if actions == [] then None
    else
      var before, a := actions[..|actions| - 1], actions[|actions| - 1];
      if Broke(before, d).Some? then Broke(before, d)
      else if a.Read? && a.direction == d && a.data == [] then ErrorOf(a.end)
      else if a.Write? && a.direction == d then
        if a.err.Some? then a.err
        else if a.accepted < |LastRead(before, d).0| then Some(SHORT_WRITE)
        else ErrorOf(LastRead(before, d).1)
      else None
  }

  predicate Cancels(actions: seq<Action>) {
    exists k | 0 <= k < |actions| :: actions[k].CancelContext?
  }

  // ---------- The verdict ----------

  /** Whether the relay has stopped, and with which error. */
  datatype Verdict = Going | Stopped(error: Option<Failure>)

  /** Cancellation comes first, then the pump's own failure, then the close of the half that the end of the pump closes;
      a clean end of the agent stops the relay, and then only undelivered bytes count. */
  function VerdictOf(actions: seq<Action>): Verdict {
    if actions == [] then Going
    else
      var before, a := actions[..|actions| - 1], actions[|actions| - 1];
      match (VerdictOf(before), a)
      case (Going, ObserveCancel(_)) => Stopped(Some(Cancelled))
      case (Going, Receive(d, o)) =>
        var closing := if d == ClientToAgent then o.agentOutput else o.clientOutput;
        if Cancels(before) then Stopped(Some(Cancelled))
        else if Broke(before, d).Some? then Stopped(Some(TransferFailed(d, Broke(before, d).value)))
        else if closing.Some? then Stopped(Some(CloseFailed(d, closing.value)))
        else if d == ClientToAgent then Going
        else Stopped(None)
      case (Stopped(None), Receive(d, _)) =>
        if |Accepted(before, d)| < |Fed(before, d)| then Stopped(Some(IncompleteTransfer(d))) else Stopped(None)
      case (v, _) => v
  }

  // ---------- Executions ----------

  lemma RunsLast(s: State, actions: seq<Action>, t: State) returns (u: State)
    requires actions != [] && Runs(s, actions, t)
    ensures Runs(s, actions[..|actions| - 1], u)
    ensures Enabled(u, actions[|actions| - 1]) && t == Apply(u, actions[|actions| - 1])
    decreases |actions|
  {
    hide Enabled, Apply;
    if |actions| == 1 {
      u := s;
    } else {
      u := RunsLast(Apply(s, actions[0]), actions[1..], t);
      assert actions[1..][..|actions| - 2] == actions[..|actions| - 1][1..];
    }
  }

  predicate PumpTraced(p: Pump, actions: seq<Action>, d: Direction) {
    && p.source == Fed(actions, d) && p.sink == Accepted(actions, d)
    && match p.phase
       case Reading => Broke(actions, d).None?
       case Writing(chunk, end) => Broke(actions, d).None? && LastRead(actions, d) == (chunk, end)
       case Finished(err) => err == Broke(actions, d)
       case Joined(err) => err == Broke(actions, d)
  }

  predicate Traced(t: State, actions: seq<Action>) {
    && PumpTraced(t.client, actions, ClientToAgent) && PumpTraced(t.agent, actions, AgentToClient)
    && (t.contextDone <==> Cancels(actions))
    && (if t.stopping then VerdictOf(actions) == Stopped(t.terminal) else VerdictOf(actions) == Going)
  }

  lemma CancelsLast(before: seq<Action>, a: Action)
    ensures Cancels(before + [a]) <==> Cancels(before) || a.CancelContext?
  {
    var more := before + [a];
    if k :| 0 <= k < |before| && before[k].CancelContext? { assert more[k].CancelContext?; }
    assert more[|before|] == a;
  }

  /** Actions of the other direction, and those of the coordinator, leave a pump's trace alone. */
  lemma QuietTrace(before: seq<Action>, a: Action, d: Direction)
    requires !(a.Read? && a.direction == d) && !(a.Write? && a.direction == d)
    ensures Fed(before + [a], d) == Fed(before, d) && Accepted(before + [a], d) == Accepted(before, d)
    ensures Broke(before + [a], d) == Broke(before, d) && LastRead(before + [a], d) == LastRead(before, d)
  {
    assert (before + [a])[..|before|] == before;
  }

  lemma ReadTrace(p: Pump, before: seq<Action>, a: Action, d: Direction)
    requires PumpTraced(p, before, d) && p.phase.Reading? && a.Read? && a.direction == d
    ensures PumpTraced(ReadStep(p, a.data, a.end), before + [a], d)
  {
    assert (before + [a])[..|before|] == before;
  }

  lemma WriteTrace(p: Pump, before: seq<Action>, a: Action, d: Direction)
    requires PumpTraced(p, before, d) && p.phase.Writing?
    requires a.Write? && a.direction == d && a.accepted <= |p.phase.chunk|
    ensures PumpTraced(WriteStep(p, a.accepted, a.err), before + [a], d)
  {
    assert (before + [a])[..|before|] == before;
  }

  lemma VerdictLast(before: seq<Action>, a: Action)
    requires !a.ObserveCancel? && !a.Receive?
    ensures VerdictOf(before + [a]) == VerdictOf(before)
  {
    assert (before + [a])[..|before|] == before;
  }

  /** One pump moves; the other, the context and the verdict stay. */
  lemma PumpStep(u: State, before: seq<Action>, a: Action)
    requires Inv(u) && Traced(u, before) && Enabled(u, a) && (a.Read? || a.Write?)
    ensures Traced(Apply(u, a), before + [a])
  {
    hide PumpTraced, VerdictOf, Cancels, Inv;
    CancelsLast(before, a);
    VerdictLast(before, a);
    var d, other := a.direction, if a.direction == ClientToAgent then AgentToClient else ClientToAgent;
    QuietTrace(before, a, other);
    KeepsTrace(GetPump(u, other), before, a, other);
    if a.Read? { ReadTrace(GetPump(u, d), before, a, d); } else { WriteTrace(GetPump(u, d), before, a, d); }
  }

  lemma KeepsTrace(p: Pump, before: seq<Action>, a: Action, d: Direction)
    requires PumpTraced(p, before, d) && !(a.Read? && a.direction == d) && !(a.Write? && a.direction == d)
    ensures PumpTraced(p, before + [a], d)
    ensures p.phase.Finished? ==> PumpTraced(p.(phase := Joined(p.phase.err)), before + [a], d)
  {
    hide Fed, Accepted, Broke, LastRead;
    QuietTrace(before, a, d);
  }

  /** What receiving a pump's result does to the relay's own state. */
  lemma ReceiveOutcome(u: State, d: Direction, o: Outcomes)
    requires Inv(u) && GetPump(u, d).phase.Finished?
    ensures
      var t, p := OnReceive(u, d, o), GetPump(u, d);
      var closing := if d == ClientToAgent then o.agentOutput else o.clientOutput;
      if u.stopping then
        t.stopping && t.terminal ==
          if u.terminal.None? && |p.sink| < |p.source| then Some(IncompleteTransfer(d)) else u.terminal
      else if u.contextDone then t.stopping && t.terminal == Some(Cancelled)
      else if p.phase.err.Some? then t.stopping && t.terminal == Some(TransferFailed(d, p.phase.err.value))
      else if closing.Some? then t.stopping && t.terminal == Some(CloseFailed(d, closing.value))
      else t.terminal == u.terminal && t.stopping == (d == AgentToClient)
  {
    if !u.stopping { ClosersFresh(u, d); }
    hide Inv, CloseAll, Join;
    JoinKeeps(u, d);
  }

  lemma JoinKeeps(u: State, d: Direction)
    ensures Join(u, d).stopping == u.stopping && Join(u, d).terminal == u.terminal
    ensures Join(u, d).closers == u.closers && Join(u, d).contextDone == u.contextDone
  {
  }

  /** It joins that pump and leaves the other. */
  lemma ReceivePumps(u: State, d: Direction, o: Outcomes)
    requires GetPump(u, d).phase.Finished?
    ensures
      var t, p := OnReceive(u, d, o), GetPump(u, d);
      && t.contextDone == u.contextDone
      && t.client == (if d == ClientToAgent then p.(phase := Joined(p.phase.err)) else u.client)
      && t.agent == (if d == AgentToClient then p.(phase := Joined(p.phase.err)) else u.agent)
  {
    hide CloseAll, Close;
  }

  lemma VerdictReceive(before: seq<Action>, a: Action)
    requires a.Receive?
    ensures VerdictOf(before + [a]) ==
      match VerdictOf(before)
      case Going =>
        var closing := if a.direction == ClientToAgent then a.outcomes.agentOutput else a.outcomes.clientOutput;
        if Cancels(before) then Stopped(Some(Cancelled))
        else if Broke(before, a.direction).Some? then
          Stopped(Some(TransferFailed(a.direction, Broke(before, a.direction).value)))
        else if closing.Some? then Stopped(Some(CloseFailed(a.direction, closing.value)))
        else if a.direction == ClientToAgent then Going
        else Stopped(None)
      case Stopped(None) =>
        if |Accepted(before, a.direction)| < |Fed(before, a.direction)|
        then Stopped(Some(IncompleteTransfer(a.direction)))
        else Stopped(None)
      case Stopped(error) => Stopped(error)
  {
    hide Cancels, Broke, Accepted, Fed;
    assert (before + [a])[..|before|] == before;
  }

  lemma ReceiveVerdict(u: State, before: seq<Action>, a: Action)
    requires Inv(u) && Traced(u, before) && Enabled(u, a) && a.Receive?
    ensures
      var t := Apply(u, a);
      if t.stopping then VerdictOf(before + [a]) == Stopped(t.terminal) else VerdictOf(before + [a]) == Going
  {
    hide Inv, OnReceive, Fed, Accepted, Broke, LastRead, Cancels, VerdictOf;
    ReceiveOutcome(u, a.direction, a.outcomes);
    VerdictReceive(before, a);
    RunningTerminal(u);
  }

  lemma RunningTerminal(u: State)
    requires Inv(u)
    ensures !u.stopping ==> u.terminal.None?
  {
    hide PumpInv;
  }

  /** While the relay runs, the half that the end of an unjoined pump closes is still open. */
  lemma ClosersFresh(u: State, d: Direction)
    requires Inv(u) && !u.stopping && GetPump(u, d).phase.Finished?
    ensures (if d == ClientToAgent then u.closers.agentOutput else u.closers.clientOutput) == FRESH
  {
    hide PumpInv;
  }

  lemma ReceiveStep(u: State, before: seq<Action>, a: Action)
    requires Inv(u) && Traced(u, before) && Enabled(u, a) && a.Receive?
    ensures Traced(Apply(u, a), before + [a])
  {
    hide Inv, OnReceive, PumpTraced, VerdictOf, Cancels;
    ReceiveVerdict(u, before, a);
    ReceivePumps(u, a.direction, a.outcomes);
    CancelsLast(before, a);
    KeepsTrace(u.client, before, a, ClientToAgent);
    KeepsTrace(u.agent, before, a, AgentToClient);
  }

  lemma OtherStep(u: State, before: seq<Action>, a: Action)
    requires Inv(u) && Traced(u, before) && Enabled(u, a) && (a.CancelContext? || a.ObserveCancel? || a.Return?)
    ensures Traced(Apply(u, a), before + [a])
  {
    assert (before + [a])[..|before|] == before;
    hide CloseAll, PumpTraced, Cancels, PumpInv;
    CancelsLast(before, a);
    KeepsTrace(u.client, before, a, ClientToAgent);
    KeepsTrace(u.agent, before, a, AgentToClient);
  }

  /** In every execution of a relay that started: each pump has read and delivered what the actions say and failed with
      the error that they report, and the relay has stopped with exactly the error that they decide. */
  lemma {:induction false} RunTraced(outcomes: Outcomes, actions: seq<Action>, t: State)
    requires Runs(Begin(false, outcomes), actions, t)
    ensures Inv(t) && Traced(t, actions)
    decreases |actions|
  {
    hide Inv, Traced, Enabled, Apply;
    if actions == [] {
      BeginInv(false, outcomes);
      NothingTraced(outcomes);
    } else {
      var u := RunsLast(Begin(false, outcomes), actions, t);
      var before, a := actions[..|actions| - 1], actions[|actions| - 1];
      RunTraced(outcomes, before, u);
      StepInv(u, a);
      assert before + [a] == actions;
      if a.Read? || a.Write? {
        PumpStep(u, before, a);
      } else if a.Receive? {
        ReceiveStep(u, before, a);
      } else {
        OtherStep(u, before, a);
      }
    }
  }

  lemma NothingTraced(outcomes: Outcomes)
    ensures Traced(Begin(false, outcomes), [])
  {
  }

  /** The error that a relay returns, the delivered bytes and their counts, from the sequence of its I/O results. */
  lemma ReturnedTrace(outcomes: Outcomes, actions: seq<Action>, t: State)
    requires Runs(Begin(false, outcomes), actions, t) && t.returned
    ensures VerdictOf(actions) == Stopped(t.terminal)
    ensures t.client.sink == Accepted(actions, ClientToAgent) && t.agent.sink == Accepted(actions, AgentToClient)
    ensures t.clientToAgentBytes == |Accepted(actions, ClientToAgent)|
    ensures t.agentToClientBytes == |Accepted(actions, AgentToClient)|
    ensures t.client.source == Fed(actions, ClientToAgent) && t.agent.source == Fed(actions, AgentToClient)
  {
    RunTraced(outcomes, actions, t);
    hide Runs, VerdictOf, Fed, Accepted, Broke, Cancels;
  }

  /** A relay whose context is done before it starts does nothing and returns that. */
  lemma NeverStarted(outcomes: Outcomes, actions: seq<Action>, t: State)
    requires Runs(Begin(true, outcomes), actions, t)
    ensures actions == [] && t.terminal == Some(Cancelled) && t.client.source == t.agent.source == []
  {
  }
}
