/** The activity manager's gate: every change replaces a broadcast channel, and shutdown waits in a loop. */
module ActivityGate {
  import opened AdmissionGate
  import opened Wrappers

  /** The fields that the lock protects, and the channels: all below next exist, and closing one twice panics. */
  datatype Core = Core(closing: bool, active: int, changed: Channel, next: Channel, closed: set<Channel>,
    panicked: bool)

  /** A shutdown call waits on the channel it read, is about to take the lock again, or has returned. */
  datatype Shutdown = Waiting(on: Channel) | Woken | Returned(ok: bool)

  datatype State = State(core: Core, leases: Leases, waiters: map<Waiter, Shutdown>)

  const NEW_CORE := Core(false, 0, 0, 1, {}, false)
  const INITIAL := State(NEW_CORE, map[], map[])

  // ---------- Critical sections ----------

  function Notify(c: Core): Core {
    c.(closed := c.closed + {c.changed}, panicked := c.panicked || c.changed in c.closed,
       changed := c.next, next := c.next + 1)
  }

  function Enter(c: Core): Core {
    Notify(c.(active := c.active + 1))
  }

  function Exit(c: Core): Core {
    Notify(c.(active := c.active - 1))
  }

  function Close(c: Core): Core {
    if c.closing then c else Notify(c.(closing := true))
  }

  /** What a shutdown call does next while it holds the lock. */
  function Check(c: Core): Shutdown {
    if c.active == 0 then Returned(true) else Waiting(c.changed)
  }

  /** The gate part of the manager: each method is one critical section. */
  class ActivityGate {
    var core: Core

    constructor ()
      ensures core == NEW_CORE
    {
      core := NEW_CORE;
    }

    method NotifyLocked()
      modifies this
      ensures core == Notify(old(core))
    {
      core := core.(panicked := core.panicked || core.changed in core.closed, closed := core.closed + {core.changed});
      core := core.(changed := core.next, next := core.next + 1);
    }

    method Begin() returns (admitted: bool)
      modifies this
      ensures admitted == !old(core).closing
      ensures core == if admitted then Enter(old(core)) else old(core)
    {
      if core.closing { return false; }
      core := core.(active := core.active + 1);
      NotifyLocked();
      return true;
    }

    method Finish()
      modifies this
      ensures core == Exit(old(core))
    {
      core := core.(active := core.active - 1);
      NotifyLocked();
    }

    method StartShutdown() returns (waiting: Shutdown)
      modifies this
      ensures core == Close(old(core)) && waiting == Check(core)
    {
      if !core.closing {
        core := core.(closing := true);
        NotifyLocked();
      }
      waiting := Check(core);
    }
  }

  // ---------- Steps ----------

  datatype Action =
    | Begin(lease: LeaseId) | Claim(lease: LeaseId) | Leave(lease: LeaseId)
    | StartShutdown(waiter: Waiter) | Receive(waiter: Waiter) | Recheck(waiter: Waiter) | CancelShutdown(waiter: Waiter)

  /** The state after an action; None when the action cannot happen. */
  function Step(s: State, a: Action): Option<State> {
    match a
    case Begin(lease) =>
      if lease in s.leases then None
      else if s.core.closing then Some(s)
      else Some(s.(core := Enter(s.core), leases := s.leases[lease := Held]))
    case Claim(lease) =>
      if lease !in s.leases then None
      else if s.leases[lease].Held? then Some(s.(leases := s.leases[lease := Releasing]))
      else Some(s)
    case Leave(lease) =>
      if lease !in s.leases || !s.leases[lease].Releasing? then None
      else Some(s.(core := Exit(s.core), leases := s.leases[lease := Released]))
    case StartShutdown(w) =>
      if w in s.waiters then None
      else Some(s.(core := Close(s.core), waiters := s.waiters[w := Check(Close(s.core))]))
    case Receive(w) =>
      if w !in s.waiters || !s.waiters[w].Waiting? || s.waiters[w].on !in s.core.closed then None
      else Some(s.(waiters := s.waiters[w := Woken]))
    case Recheck(w) =>
      if w !in s.waiters || !s.waiters[w].Woken? then None
      else Some(s.(waiters := s.waiters[w := Check(s.core)]))
    case CancelShutdown(w) =>
      if w !in s.waiters || !s.waiters[w].Waiting? then None
      else Some(s.(waiters := s.waiters[w := Returned(false)]))
  }

  function Run(s: State, actions: seq<Action>): Option<State> {
    if actions == [] then Some(s)
    else
      var before := Run(s, actions[..|actions| - 1]);
      if before.None? then None else Step(before.value, actions[|actions| - 1])
  }

  // ---------- The invariant ----------

  function Abstract(s: State): Gate {
    Gate(!s.core.closing, Outstanding(s.leases), s.leases.Keys)
  }

  /** Exactly the current channel is open. */
  ghost predicate CoreInv(c: Core) {
    && !c.panicked && 0 <= c.active && c.changed < c.next
    && forall ch: Channel :: ch in c.closed <==> ch < c.next && ch != c.changed
  }

  /** Whoever shuts down has closed the gate; whoever waits on the current channel waits for a lease. */
  ghost predicate WaiterInv(c: Core, w: Shutdown) {
    && c.closing
    && match w
       case Waiting(on) => on < c.next && (on == c.changed ==> c.active != 0)
       case Woken => true
       case Returned(ok) => ok ==> c.active == 0
  }

  ghost predicate Inv(s: State) {
    && CoreInv(s.core) && s.core.active == |Outstanding(s.leases)|
    && forall w | w in s.waiters :: WaiterInv(s.core, s.waiters[w])
  }

  lemma NotifyInv(c: Core, d: Core)
    requires CoreInv(c) && d == Notify(c.(closing := d.closing, active := d.active)) && 0 <= d.active
    requires d.closing && c.closing ==> d.active <= c.active
    ensures CoreInv(d)
    ensures d.closing ==> forall w | WaiterInv(c, w) :: WaiterInv(d, w)
  {
  }

  lemma CheckInv(c: Core)
    requires CoreInv(c) && c.closing
    ensures WaiterInv(c, Check(c)) && WaiterInv(c, Woken) && WaiterInv(c, Returned(false))
  {
  }

  /** Every step keeps the invariant and is a step of the abstract gate. */
  lemma StepRefines(s: State, a: Action)
    requires Inv(s) && Step(s, a).Some?
    ensures Inv(Step(s, a).value)
    ensures Next(Abstract(s), Abstract(Step(s, a).value))
  {
    hide Outstanding, CoreInv, WaiterInv, Enter, Exit, Next, Close, Check;
    match a
    case Begin(lease) => BeginRefines(s, lease);
    case Claim(lease) => ClaimRefines(s, lease);
    case Leave(lease) => LeaveRefines(s, lease);
    case StartShutdown(w) => ShutdownRefines(s, w);
    case _ => WaiterRefines(s, a);
  }

  lemma BeginRefines(s: State, lease: LeaseId)
    requires Inv(s) && lease !in s.leases
    ensures Inv(Step(s, Begin(lease)).value) && Next(Abstract(s), Abstract(Step(s, Begin(lease)).value))
  {
    hide Outstanding, CoreInv;
    if !s.core.closing {
      Counted(s.core);
      NotifyInv(s.core, Enter(s.core));
      TakeLease(s.leases, lease);
      assert Begins(Abstract(s), Abstract(Step(s, Begin(lease)).value), lease);
    }
  }

  lemma Counted(c: Core)
    requires CoreInv(c)
    ensures 0 <= c.active && !c.panicked
  {
  }

  lemma ClaimRefines(s: State, lease: LeaseId)
    requires Inv(s) && lease in s.leases
    ensures Inv(Step(s, Claim(lease)).value) && Next(Abstract(s), Abstract(Step(s, Claim(lease)).value))
  {
    hide Outstanding, CoreInv, WaiterInv;
    if s.leases[lease].Held? {
      ClaimLease(s.leases, lease);
      assert s.leases[lease := Releasing].Keys == s.leases.Keys;
    }
  }

  lemma LeaveRefines(s: State, lease: LeaseId)
    requires Inv(s) && lease in s.leases && s.leases[lease].Releasing?
    ensures Inv(Step(s, Leave(lease)).value) && Next(Abstract(s), Abstract(Step(s, Leave(lease)).value))
  {
    hide Outstanding, CoreInv;
    GiveBackLease(s.leases, lease);
    NotifyInv(s.core, Exit(s.core));
    assert s.leases[lease := Released].Keys == s.leases.Keys;
    assert Releases(Abstract(s), Abstract(Step(s, Leave(lease)).value), lease);
  }

  lemma ShutdownRefines(s: State, w: Waiter)
    requires Inv(s) && w !in s.waiters
    ensures Inv(Step(s, StartShutdown(w)).value) && Next(Abstract(s), Abstract(Step(s, StartShutdown(w)).value))
  {
    hide Outstanding, CoreInv, Check;
    Counted(s.core);
    if !s.core.closing { NotifyInv(s.core, Close(s.core)); }
    CheckInv(Close(s.core));
  }

  lemma WaiterRefines(s: State, a: Action)
    requires Inv(s) && Step(s, a).Some? && (a.Receive? || a.Recheck? || a.CancelShutdown?)
    ensures Inv(Step(s, a).value) && Next(Abstract(s), Abstract(Step(s, a).value))
  {
    hide Outstanding, CoreInv, Check;
    assert WaiterInv(s.core, s.waiters[a.waiter]);
    CheckInv(s.core);
  }

  /** Every run keeps the invariant and is a run of the abstract gate. */
  lemma {:induction false} RunRefines(s: State, actions: seq<Action>)
    requires Inv(s) && Run(s, actions).Some?
    ensures Inv(Run(s, actions).value)
    ensures Reaches(Abstract(s), Abstract(Run(s, actions).value))
  {
    hide Step, Inv, Abstract, Reaches;
    if actions == [] {
      ReachesItself(Abstract(s));
    } else {
      var n := |actions| - 1;
      RunRefines(s, actions[..n]);
      var before := Run(s, actions[..n]).value;
      StepRefines(before, actions[n]);
      ReachesNext(Abstract(s), Abstract(before), Abstract(Step(before, actions[n]).value));
    }
  }

  // ---------- What callers may rely on ----------

  ghost predicate Reachable(s: State) {
    exists actions :: Run(INITIAL, actions) == Some(s)
  }

  lemma ReachableInv(s: State)
    requires Reachable(s)
    ensures Inv(s)
  {
    var actions :| Run(INITIAL, actions) == Some(s);
    assert Outstanding(INITIAL.leases) == {};
    RunRefines(INITIAL, actions);
  }

  /** The count is the number of unreleased leases, and no channel was closed twice. */
  lemma CountIsExact(s: State)
    requires Reachable(s)
    ensures s.core.active == |Outstanding(s.leases)| && !s.core.panicked
  {
    hide Outstanding, CoreInv, WaiterInv;
    ReachableInv(s);
    Counted(s.core);
  }

  /** A lease that was given back stays given back: finishing it again never changes anything. */
  lemma {:induction false} ReleasedStays(s: State, lease: LeaseId, later: seq<Action>)
    requires lease in s.leases && s.leases[lease].Released? && Run(s, later).Some?
    ensures
      var end := Run(s, later).value;
      lease in end.leases && end.leases[lease].Released? && Step(end, Claim(lease)) == Some(end) &&
        Step(end, Leave(lease)).None?
  {
    if later != [] { ReleasedStays(s, lease, later[..|later| - 1]); }
  }

  /** A shutdown that succeeded means that nothing is active, then or ever. */
  lemma ShutdownForever(s: State, w: Waiter, later: seq<Action>)
    requires Reachable(s) && w in s.waiters && s.waiters[w] == Returned(true) && Run(s, later).Some?
    ensures Outstanding(s.leases) == {} && Outstanding(Run(s, later).value.leases) == {} &&
      Run(s, later).value.core.closing
  {
    hide Run, Reachable;
    ReachableInv(s);
    assert WaiterInv(s.core, s.waiters[w]);
    RunRefines(s, later);
    ClosedForever(Abstract(s), Abstract(Run(s, later).value));
  }

  /** A shutdown that still waits is awake, or waits for a lease, or its channel is closed already: when nothing is
      active it needs no other caller's step to return. */
  lemma NoLostWakeup(s: State, w: Waiter)
    requires Reachable(s) && w in s.waiters && !s.waiters[w].Returned? && Outstanding(s.leases) == {}
    ensures
      var done := s.(waiters := s.waiters[w := Returned(true)]);
      Run(s, if s.waiters[w].Woken? then [Recheck(w)] else [Receive(w), Recheck(w)]) == Some(done)
  {
    hide Reachable;
    ReachableInv(s);
    assert WaiterInv(s.core, s.waiters[w]);
    if s.waiters[w].Woken? {
      assert [Recheck(w)][..0] == [] && Run(s, []) == Some(s);
    } else {
      var actions := [Receive(w), Recheck(w)];
      var woken := s.(waiters := s.waiters[w := Woken]);
      assert actions[..1] == [Receive(w)] && [Receive(w)][..0] == [] && Run(s, []) == Some(s);
      assert Run(s, actions[..1]) == Some(woken);
      assert woken.waiters[w := Returned(true)] == s.waiters[w := Returned(true)];
    }
  }

  // ---------- What a run did, from its actions alone ----------

  ghost predicate Shut(actions: seq<Action>) {
    exists w :: StartShutdown(w) in actions
  }

  /** A lease was asked for before any shutdown began. */
  ghost predicate Took(actions: seq<Action>, lease: LeaseId) {
    exists i | 0 <= i < |actions| :: actions[i] == Begin(lease) && !Shut(actions[..i])
  }

  ghost predicate Traced(actions: seq<Action>, s: State) {
    && (s.core.closing <==> Shut(actions))
    && (forall lease :: LeaseTraced(actions, s.leases, lease))
    && forall w :: WaiterTraced(actions, s.waiters, w)
  }

  ghost predicate LeaseTraced(actions: seq<Action>, leases: Leases, lease: LeaseId) {
    && (lease in leases <==> Took(actions, lease))
    && (Leave(lease) in actions <==> lease in leases && leases[lease].Released?)
  }

  ghost predicate WaiterTraced(actions: seq<Action>, waiters: map<Waiter, Shutdown>, w: Waiter) {
    && (w in waiters <==> StartShutdown(w) in actions)
    && (CancelShutdown(w) in actions <==> w in waiters && waiters[w] == Returned(false))
  }

  lemma OneMore(actions: seq<Action>, a: Action)
    ensures forall b :: b in actions + [a] <==> b in actions || b == a
    ensures Shut(actions + [a]) <==> Shut(actions) || a.StartShutdown?
    ensures forall lease :: Took(actions + [a], lease) <==>
      Took(actions, lease) || (a == Begin(lease) && !Shut(actions))
  {
    hide Shut;
    var more := actions + [a];
    assert more[..|actions|] == actions && more[|actions|] == a;
    assert forall i | 0 <= i < |actions| :: more[i] == actions[i] && more[..i] == actions[..i];
    OneMoreShut(actions, a);
  }

  lemma OneMoreShut(actions: seq<Action>, a: Action)
    ensures Shut(actions + [a]) <==> Shut(actions) || a.StartShutdown?
  {
    if a.StartShutdown? { assert StartShutdown(a.waiter) in actions + [a]; }
    if w :| StartShutdown(w) in actions { assert StartShutdown(w) in actions + [a]; }
  }

  /** What each action does in any run: the gate closes with the first shutdown; a lease is outstanding exactly when it
      was asked for before that and not given back; a shutdown returns without success exactly when it is cancelled. */
  lemma {:induction false} RunTraced(actions: seq<Action>)
    requires Run(INITIAL, actions).Some?
    ensures Traced(actions, Run(INITIAL, actions).value)
    ensures forall lease :: lease in Outstanding(Run(INITIAL, actions).value.leases) <==>
      Took(actions, lease) && Leave(lease) !in actions
  {
    hide Run, Took, Shut, WaiterTraced;
    if actions == [] {
      NothingRun();
    } else {
      var n := |actions| - 1;
      assert actions == actions[..n] + [actions[n]];
      LastStep(actions);
      RunTraced(actions[..n]);
      StepTraced(actions[..n], Run(INITIAL, actions[..n]).value, actions[n]);
    }
    var s := Run(INITIAL, actions).value;
    forall lease ensures lease in Outstanding(s.leases) <==> Took(actions, lease) && Leave(lease) !in actions {
      assert LeaseTraced(actions, s.leases, lease);
    }
  }

  lemma NothingRun()
    ensures Run(INITIAL, []) == Some(INITIAL) && Traced([], INITIAL)
  {
  }

  lemma LastStep(actions: seq<Action>)
    requires actions != [] && Run(INITIAL, actions).Some?
    ensures Run(INITIAL, actions[..|actions| - 1]).Some?
    ensures Run(INITIAL, actions) == Step(Run(INITIAL, actions[..|actions| - 1]).value, actions[|actions| - 1])
  {
  }

  lemma StepTraced(actions: seq<Action>, s: State, a: Action)
    requires Traced(actions, s) && Step(s, a).Some?
    ensures Traced(actions + [a], Step(s, a).value)
  {
    hide Step, Took, Shut, LeaseTraced, WaiterTraced;
    var t := Step(s, a).value;
    forall lease ensures LeaseTraced(actions + [a], t.leases, lease) { StepLease(actions, s, a, lease); }
    forall w ensures WaiterTraced(actions + [a], t.waiters, w) { StepWaiter(actions, s, a, w); }
    StepCloses(actions, s, a);
  }

  lemma StepCloses(actions: seq<Action>, s: State, a: Action)
    requires (s.core.closing <==> Shut(actions)) && Step(s, a).Some?
    ensures Step(s, a).value.core.closing <==> Shut(actions + [a])
  {
    hide Took, Shut, Check;
    OneMore(actions, a);
  }

  lemma StepLease(actions: seq<Action>, s: State, a: Action, lease: LeaseId)
    requires LeaseTraced(actions, s.leases, lease) && (s.core.closing <==> Shut(actions)) && Step(s, a).Some?
    ensures LeaseTraced(actions + [a], Step(s, a).value.leases, lease)
  {
    hide Took, Shut, Check, Enter, Exit, Close;
    OneMore(actions, a);
  }

  lemma StepWaiter(actions: seq<Action>, s: State, a: Action, w: Waiter)
    requires WaiterTraced(actions, s.waiters, w) && Step(s, a).Some?
    ensures WaiterTraced(actions + [a], Step(s, a).value.waiters, w)
  {
    hide Took, Shut, Enter, Exit, Close;
    OneMore(actions, a);
  }

  /** Every change of the count and the close wake whoever waits; nothing else does. */
  lemma ChangesWake(s: State, a: Action)
    requires Reachable(s) && Step(s, a).Some?
    ensures
      var t := Step(s, a).value;
      if t.core.active == s.core.active && t.core.closing == s.core.closing then t.core == s.core
      else forall w | w in s.waiters && s.waiters[w].Waiting? :: Step(t, Receive(w)).Some?
  {
    hide Reachable, Run;
    ReachableInv(s);
    forall w | w in s.waiters && s.waiters[w].Waiting? ensures s.waiters[w].on < s.core.next {
      assert WaiterInv(s.core, s.waiters[w]);
    }
  }
}
