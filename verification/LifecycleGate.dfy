/** The capture-assignment lifecycle gate, step by step under any interleaving of its callers. */
module LifecycleGate {
  import opened AdmissionGate
  import opened Wrappers

  /** The fields that the lock protects, and the channels: all below next exist, and closing one twice panics. */
  datatype Core = Core(open: bool, active: int, zero: Channel, next: Channel, closed: set<Channel>, panicked: bool)

  /** A drain call waits on the channel it read, or has returned. */
  datatype Drain =
    | Waiting(on: Channel, afterClose: bool)
    | Returned(ok: bool, afterClose: bool)

  datatype State = State(core: Core, leases: Leases, drains: map<Waiter, Drain>)

  const NEW_CORE := Core(true, 0, 0, 1, {0}, false)
  const INITIAL := State(NEW_CORE, map[], map[])

  // ---------- Critical sections ----------

  function Closing(c: Core): Core {
    c.(closed := c.closed + {c.zero}, panicked := c.panicked || c.zero in c.closed)
  }

  function Enter(c: Core): Core
    requires c.open
  {
    var fresh' := if c.active == 0 then c.(zero := c.next, next := c.next + 1) else c;
    fresh'.(active := c.active + 1)
  }

  function Exit(c: Core): Core {
    var left := c.(active := c.active - 1);
    if left.active == 0 then Closing(left) else left
  }

  /** What a drain call waits on. */
  function DrainOn(c: Core): Drain {
    Waiting(c.zero, !c.open)
  }

  /** The gate object: each method is one critical section. */
  class LifecycleGate {
    var core: Core

    constructor ()
      ensures core == NEW_CORE
    {
      core := NEW_CORE;
    }

    method Begin() returns (admitted: bool)
      modifies this
      ensures admitted == old(core).open
      ensures core == if admitted then Enter(old(core)) else old(core)
    {
      if !core.open { return false; }
      if core.active == 0 { core := core.(zero := core.next, next := core.next + 1); }
      core := core.(active := core.active + 1);
      return true;
    }

    method Release()
      modifies this
      ensures core == Exit(old(core))
    {
      core := core.(active := core.active - 1);
      if core.active == 0 { core := Closing(core); }
    }

    method CloseAdmission()
      modifies this
      ensures core == old(core).(open := false)
    {
      core := core.(open := false);
    }

    /** The locked part of drain: it reads the channel to wait on. */
    method StartDrain() returns (waiting: Drain)
      ensures waiting == DrainOn(core)
      ensures CoreInv(core) ==> (waiting.on in core.closed <==> core.active == 0)
    {
      var zero := core.zero;
      waiting := Waiting(zero, !core.open);
    }
  }

  // ---------- Steps ----------

  /** Claim is a release call reaching its once-guard; Leave is the guarded critical section. */
  datatype Action =
    | Begin(lease: LeaseId) | Claim(lease: LeaseId) | Leave(lease: LeaseId)
    | CloseAdmission
    | StartDrain(waiter: Waiter) | WakeDrain(waiter: Waiter) | CancelDrain(waiter: Waiter)

  /** The state after an action; None when the action cannot happen. */
  function Step(s: State, a: Action): Option<State> {
    match a
    case Begin(lease) =>
      if lease in s.leases then None
      else if !s.core.open then Some(s)
      else Some(s.(core := Enter(s.core), leases := s.leases[lease := Held]))
    case Claim(lease) =>
      if lease !in s.leases then None
      else if s.leases[lease].Held? then Some(s.(leases := s.leases[lease := Releasing]))
      else Some(s)
    case Leave(lease) =>
      if lease !in s.leases || !s.leases[lease].Releasing? then None
      else Some(s.(core := Exit(s.core), leases := s.leases[lease := Released]))
    case CloseAdmission => Some(s.(core := s.core.(open := false)))
    case StartDrain(w) =>
      if w in s.drains then None else Some(s.(drains := s.drains[w := DrainOn(s.core)]))
    case WakeDrain(w) =>
      if w !in s.drains || !s.drains[w].Waiting? || s.drains[w].on !in s.core.closed then None
      else Some(s.(drains := s.drains[w := Returned(true, s.drains[w].afterClose)]))
    case CancelDrain(w) =>
      if w !in s.drains || !s.drains[w].Waiting? then None
      else Some(s.(drains := s.drains[w := Returned(false, s.drains[w].afterClose)]))
  }

  function Run(s: State, actions: seq<Action>): Option<State> {
    if actions == [] then Some(s)
    else
      var before := Run(s, actions[..|actions| - 1]);
      if before.None? then None else Step(before.value, actions[|actions| - 1])
  }

  // ---------- The invariant ----------

  function Abstract(s: State): Gate {
    Gate(s.core.open, Outstanding(s.leases), s.leases.Keys)
  }

  /** The channel is closed exactly when nothing is active, and every earlier channel is closed. */
  ghost predicate CoreInv(c: Core) {
    && !c.panicked && 0 <= c.active && c.zero < c.next
    && (c.zero in c.closed <==> c.active == 0)
    && (forall ch | ch in c.closed :: ch < c.next)
    && forall ch | 0 <= ch < c.next && ch != c.zero :: ch in c.closed
  }

  ghost predicate DrainInv(c: Core, d: Drain) {
    && (d.afterClose ==> !c.open)
    && match d
       case Waiting(on, afterClose) => on < c.next && (afterClose ==> on == c.zero)
       case Returned(ok, afterClose) => ok && afterClose ==> c.active == 0
  }

  ghost predicate Inv(s: State) {
    && CoreInv(s.core) && s.core.active == |Outstanding(s.leases)|
    && forall w | w in s.drains :: DrainInv(s.core, s.drains[w])
  }

  lemma EnterInv(c: Core)
    requires CoreInv(c) && c.open
    ensures CoreInv(Enter(c)) && forall d | DrainInv(c, d) :: DrainInv(Enter(c), d)
  {
  }

  lemma ExitInv(c: Core)
    requires CoreInv(c) && 0 < c.active
    ensures CoreInv(Exit(c)) && forall d | DrainInv(c, d) :: DrainInv(Exit(c), d)
  {
  }

  lemma CloseInv(c: Core)
    requires CoreInv(c)
    ensures CoreInv(c.(open := false)) && forall d | DrainInv(c, d) :: DrainInv(c.(open := false), d)
  {
  }

  lemma DrainSteps(c: Core, d: Drain)
    requires CoreInv(c)
    ensures DrainInv(c, Waiting(c.zero, !c.open))
    ensures DrainInv(c, d) && d.Waiting? ==> DrainInv(c, Returned(false, d.afterClose))
    ensures DrainInv(c, d) && d.Waiting? && d.on in c.closed ==> DrainInv(c, Returned(true, d.afterClose))
  {
  }

  /** Every step keeps the invariant and is a step of the abstract gate. */
  lemma StepRefines(s: State, a: Action)
    requires Inv(s) && Step(s, a).Some?
    ensures Inv(Step(s, a).value)
    ensures Next(Abstract(s), Abstract(Step(s, a).value))
  {
    hide Outstanding, CoreInv, DrainInv, Enter, Exit, Next;
    match a
    case Begin(lease) => BeginRefines(s, lease);
    case Claim(lease) => ClaimRefines(s, lease);
    case Leave(lease) => LeaveRefines(s, lease);
    case CloseAdmission =>
      CloseInv(s.core);
      Closes(Abstract(s));
    case StartDrain(w) =>
      DrainSteps(s.core, Waiting(0, false));
      Closes(Abstract(s));
    case _ =>
      DrainSteps(s.core, s.drains[a.waiter]);
      Closes(Abstract(s));
  }

  lemma Closes(g: Gate)
    ensures Next(g, g) && Next(g, g.(open := false))
  {
  }

  lemma BeginRefines(s: State, lease: LeaseId)
    requires Inv(s) && lease !in s.leases
    ensures Inv(Step(s, Begin(lease)).value) && Next(Abstract(s), Abstract(Step(s, Begin(lease)).value))
  {
    hide Outstanding, CoreInv, DrainInv;
    if s.core.open {
      EnterInv(s.core);
      TakeLease(s.leases, lease);
      assert Begins(Abstract(s), Abstract(Step(s, Begin(lease)).value), lease);
    }
  }

  lemma ClaimRefines(s: State, lease: LeaseId)
    requires Inv(s) && lease in s.leases
    ensures Inv(Step(s, Claim(lease)).value) && Next(Abstract(s), Abstract(Step(s, Claim(lease)).value))
  {
    hide Outstanding, CoreInv, DrainInv;
    if s.leases[lease].Held? {
      ClaimLease(s.leases, lease);
      assert s.leases[lease := Releasing].Keys == s.leases.Keys;
    }
  }

  lemma LeaveRefines(s: State, lease: LeaseId)
    requires Inv(s) && lease in s.leases && s.leases[lease].Releasing?
    ensures Inv(Step(s, Leave(lease)).value) && Next(Abstract(s), Abstract(Step(s, Leave(lease)).value))
  {
    hide Outstanding, CoreInv, DrainInv;
    GiveBackLease(s.leases, lease);
    ExitInv(s.core);
    assert s.leases[lease := Released].Keys == s.leases.Keys;
    assert Releases(Abstract(s), Abstract(Step(s, Leave(lease)).value), lease);
  }

  /** Every run keeps the invariant and is a run of the abstract gate. */
  lemma {:induction false} RunRefines(s: State, actions: seq<Action>)
    requires Inv(s) && Run(s, actions).Some?
    ensures Inv(Run(s, actions).value)
    ensures Reaches(Abstract(s), Abstract(Run(s, actions).value))
  {
    hide Step, Inv, Abstract, Reaches;
    if actions == [] {
      ReachesItself(Abstract(s));
    } else {
      var n := |actions| - 1;
      RunRefines(s, actions[..n]);
      var before := Run(s, actions[..n]).value;
      StepRefines(before, actions[n]);
      ReachesNext(Abstract(s), Abstract(before), Abstract(Step(before, actions[n]).value));
    }
  }

  // ---------- What callers may rely on ----------

  ghost predicate Reachable(s: State) {
    exists actions :: Run(INITIAL, actions) == Some(s)
  }

  lemma ReachableInv(s: State)
    requires Reachable(s)
    ensures Inv(s)
  {
    var actions :| Run(INITIAL, actions) == Some(s);
    assert Outstanding(INITIAL.leases) == {};
    RunRefines(INITIAL, actions);
  }

  /** The count is the number of unreleased leases, and no channel was closed twice. */
  lemma CountIsExact(s: State)
    requires Reachable(s)
    ensures s.core.active == |Outstanding(s.leases)| && !s.core.panicked
  {
    hide Outstanding, CoreInv, DrainInv;
    ReachableInv(s);
    PanicFree(s);
  }

  lemma PanicFree(s: State)
    requires Inv(s)
    ensures !s.core.panicked
  {
  }

  /** A lease that was given back stays given back: releasing it again never changes anything. */
  lemma {:induction false} ReleasedStays(s: State, lease: LeaseId, later: seq<Action>)
    requires lease in s.leases && s.leases[lease].Released? && Run(s, later).Some?
    ensures
      var end := Run(s, later).value;
      lease in end.leases && end.leases[lease].Released? && Step(end, Claim(lease)) == Some(end) &&
        Step(end, Leave(lease)).None?
  {
    if later != [] { ReleasedStays(s, lease, later[..|later| - 1]); }
  }

  /** A drain that began after admission closed and succeeded means that nothing is active, then or ever. */
  lemma DrainedForever(s: State, w: Waiter, later: seq<Action>)
    requires Reachable(s) && w in s.drains && s.drains[w] == Returned(true, true) && Run(s, later).Some?
    ensures Outstanding(s.leases) == {} && Outstanding(Run(s, later).value.leases) == {} &&
      !Run(s, later).value.core.open
  {
    hide Run, Reachable;
    ReachableInv(s);
    assert DrainInv(s.core, s.drains[w]);
    RunRefines(s, later);
    ClosedForever(Abstract(s), Abstract(Run(s, later).value));
  }

  /** When nothing is active every waiting drain can return. */
  lemma NoLostWakeup(s: State, w: Waiter)
    requires Reachable(s) && w in s.drains && s.drains[w].Waiting? && Outstanding(s.leases) == {}
    ensures Step(s, WakeDrain(w)) == Some(s.(drains := s.drains[w := Returned(true, s.drains[w].afterClose)]))
  {
    hide Run, Reachable;
    ReachableInv(s);
    assert DrainInv(s.core, s.drains[w]);
  }

  /** A drain that starts can return at once exactly when nothing is active. */
  lemma StartedDrain(s: State, w: Waiter)
    requires Reachable(s) && w !in s.drains
    ensures Step(s, StartDrain(w)).Some?
    ensures Step(Step(s, StartDrain(w)).value, WakeDrain(w)).Some? <==> Outstanding(s.leases) == {}
  {
    hide Run, Reachable;
    ReachableInv(s);
  }

  // ---------- When a drain is a promise ----------

  ghost predicate DrainHolds(s: State, w: Waiter, later: seq<Action>) {
    var end := Run(s, [StartDrain(w)] + later);
    end.Some? && w in end.value.drains && end.value.drains[w].Returned? && end.value.drains[w].ok ==>
      Outstanding(end.value.leases) == {}
  }

  /** A drain started in a state promises an idle gate, whatever happens next, exactly when admission is closed:
      while the gate is open the channel it waits on may belong to an idle moment that has passed. */
  lemma DrainExact(s: State, w: Waiter)
    requires Reachable(s) && w !in s.drains
    ensures (forall later :: DrainHolds(s, w, later)) <==> !s.core.open
  {
    hide Run, Reachable;
    ReachableInv(s);
    if s.core.open {
      DrainOutrun(s, w);
    } else {
      forall later ensures DrainHolds(s, w, later) {
        DrainKept(s, w, later);
      }
    }
  }

  lemma RunPrepend(s: State, a: Action, later: seq<Action>)
    ensures Run(s, [a] + later) == if Step(s, a).Some? then Run(Step(s, a).value, later) else None
    decreases |later|
  {
    hide Step;
    if later == [] {
      assert [a] + later == [a] && [a][..0] == [];
    } else {
      var n := |later| - 1;
      assert ([a] + later)[..n + 1] == [a] + later[..n];
      RunPrepend(s, a, later[..n]);
    }
  }

  /** Whether a drain began after the close does not change. */
  lemma {:induction false} DrainStays(s: State, w: Waiter, later: seq<Action>)
    requires w in s.drains && Run(s, later).Some?
    ensures w in Run(s, later).value.drains && Run(s, later).value.drains[w].afterClose == s.drains[w].afterClose
  {
    if later != [] { DrainStays(s, w, later[..|later| - 1]); }
  }

  lemma DrainKept(s: State, w: Waiter, later: seq<Action>)
    requires Inv(s) && w !in s.drains && !s.core.open
    ensures DrainHolds(s, w, later)
  {
    hide Run, CoreInv, Step;
    var started := s.(drains := s.drains[w := Waiting(s.core.zero, true)]);
    assert Step(s, StartDrain(w)) == Some(started) by { Starting(s, w); }
    RunPrepend(s, StartDrain(w), later);
    if Run(started, later).Some? {
      StepRefines(s, StartDrain(w));
      RunRefines(started, later);
      DrainStays(started, w, later);
      var end := Run(started, later).value;
      assert DrainInv(end.core, end.drains[w]);
    }
  }

  lemma Starting(s: State, w: Waiter)
    requires w !in s.drains
    ensures Step(s, StartDrain(w)) == Some(s.(drains := s.drains[w := Waiting(s.core.zero, !s.core.open)]))
  {
  }

  /** While the gate is open: all leases end, a new one begins, and the drain still succeeds. */
  lemma DrainOutrun(s: State, w: Waiter)
    requires Inv(s) && w !in s.drains && s.core.open
    ensures exists later :: !DrainHolds(s, w, later)
  {
    hide Run;
    Starting(s, w);
    var started := Step(s, StartDrain(w)).value;
    StepRefines(s, StartDrain(w));
    var releases, idle := ReleaseAll(started);
    hide Step, Inv;
    var lease := FreshLease(idle.leases);
    var tail := [Begin(lease), WakeDrain(w)];
    BeginAndWake(idle, w, lease);
    RunAppend(started, releases, tail);
    RunPrepend(s, StartDrain(w), releases + tail);
    assert !DrainHolds(s, w, releases + tail);
  }

  lemma {:induction false} RunAppend(s: State, first: seq<Action>, second: seq<Action>)
    requires Run(s, first).Some?
    ensures Run(s, first + second) == Run(Run(s, first).value, second)
  {
    hide Step;
    if second == [] {
      assert first + second == first;
    } else {
      var n := |second| - 1;
      assert (first + second)[..|first| + n] == first + second[..n];
      RunAppend(s, first, second[..n]);
    }
  }

  lemma FreshLease(leases: Leases) returns (lease: LeaseId)
    ensures lease !in leases
  {
    if leases == map[] {
      lease := 0;
    } else {
      var top := Largest(leases.Keys);
      lease := top + 1;
    }
  }

  lemma {:induction false} Largest(ids: set<LeaseId>) returns (top: LeaseId)
    requires ids != {}
    ensures forall id | id in ids :: id <= top
  {
    var id :| id in ids;
    if ids == {id} {
      top := id;
    } else {
      var rest := Largest(ids - {id});
      top := if rest < id then id else rest;
      assert forall x | x in ids :: x == id || x in ids - {id};
    }
  }

  lemma BeginAndWake(s: State, w: Waiter, lease: LeaseId)
    requires Inv(s) && s.core.open && s.core.active == 0 && lease !in s.leases
    requires w in s.drains && s.drains[w].Waiting?
    ensures
      var end := Run(s, [Begin(lease), WakeDrain(w)]);
      end.Some? && w in end.value.drains && end.value.drains[w].Returned? && end.value.drains[w].ok &&
      lease in Outstanding(end.value.leases)
  {
    hide Inv, CoreInv;
    ZeroSeen(s, w);
    RunTwo(s, Begin(lease), WakeDrain(w));
  }

  lemma ZeroSeen(s: State, w: Waiter)
    requires Inv(s) && s.core.active == 0 && w in s.drains && s.drains[w].Waiting?
    ensures s.drains[w].on in s.core.closed
  {
    assert DrainInv(s.core, s.drains[w]);
  }

  /** From every state a run of releases reaches an idle gate; admission and drains are as they were. */
  lemma {:induction false} ReleaseAll(s: State) returns (actions: seq<Action>, idle: State)
    requires Inv(s)
    ensures Run(s, actions) == Some(idle) && Inv(idle)
    ensures idle.core.active == 0 && idle.core.open == s.core.open && idle.drains == s.drains
    decreases s.core.active
  {
    hide CoreInv, DrainInv;
    if s.core.active == 0 {
      return [], s;
    }
    var lease := SomeLease(s);
    var left := ReleaseOne(s, lease);
    var more, end := ReleaseAll(left);
    RunAppend(s, [Claim(lease), Leave(lease)], more);
    return [Claim(lease), Leave(lease)] + more, end;
  }

  lemma SomeLease(s: State) returns (lease: LeaseId)
    requires Inv(s) && s.core.active != 0
    ensures lease in s.leases && !s.leases[lease].Released?
  {
    assert Outstanding(s.leases) != {};
    lease :| lease in Outstanding(s.leases);
  }

  lemma ReleaseOne(s: State, lease: LeaseId) returns (left: State)
    requires Inv(s) && lease in s.leases && !s.leases[lease].Released?
    ensures Run(s, [Claim(lease), Leave(lease)]) == Some(left) && Inv(left)
    ensures left.core.active == s.core.active - 1 && left.core.open == s.core.open && left.drains == s.drains
    ensures left.core.active >= 0
  {
    hide CoreInv, DrainInv, Inv;
    StepRefines(s, Claim(lease));
    var claimed := Step(s, Claim(lease)).value;
    StepRefines(claimed, Leave(lease));
    left := Step(claimed, Leave(lease)).value;
    Counted(left);
    RunTwo(s, Claim(lease), Leave(lease));
  }

  lemma RunTwo(s: State, a: Action, b: Action)
    ensures Run(s, [a, b]) == if Step(s, a).Some? then Step(Step(s, a).value, b) else None
  {
    hide Step;
    assert [a] + [b] == [a, b] && [b][..0] == [];
    RunPrepend(s, a, [b]);
    if Step(s, a).Some? { assert Run(Step(s, a).value, []) == Some(Step(s, a).value); }
  }

  lemma Counted(s: State)
    requires Inv(s)
    ensures s.core.active >= 0
  {
  }

  // ---------- What a run did, from its actions alone ----------

  /** A lease was asked for before admission closed. */
  ghost predicate Took(actions: seq<Action>, lease: LeaseId) {
    exists i | 0 <= i < |actions| :: actions[i] == Begin(lease) && CloseAdmission !in actions[..i]
  }

  /** A drain was started after admission closed. */
  ghost predicate Late(actions: seq<Action>, w: Waiter) {
    exists i | 0 <= i < |actions| :: actions[i] == StartDrain(w) && CloseAdmission in actions[..i]
  }

  ghost predicate Traced(actions: seq<Action>, s: State) {
    && (s.core.open <==> CloseAdmission !in actions)
    && LeasesTraced(actions, s.leases) && DrainsTraced(actions, s.drains)
  }

  ghost predicate LeasesTraced(actions: seq<Action>, leases: Leases) {
    && (forall lease :: lease in leases <==> Took(actions, lease))
    && forall lease :: Leave(lease) in actions <==> lease in leases && leases[lease].Released?
  }

  ghost predicate DrainsTraced(actions: seq<Action>, drains: map<Waiter, Drain>) {
    forall w :: DrainTraced(actions, drains, w)
  }

  ghost predicate DrainTraced(actions: seq<Action>, drains: map<Waiter, Drain>, w: Waiter) {
    && (w in drains <==> StartDrain(w) in actions)
    && (w in drains ==> (drains[w].afterClose <==> Late(actions, w)))
    && (WakeDrain(w) in actions <==> w in drains && drains[w].Returned? && drains[w].ok)
    && (CancelDrain(w) in actions <==> w in drains && drains[w].Returned? && !drains[w].ok)
  }

  lemma OneMore(actions: seq<Action>, a: Action)
    ensures forall b :: b in actions + [a] <==> b in actions || b == a
    ensures forall lease :: Took(actions + [a], lease) <==>
      Took(actions, lease) || (a == Begin(lease) && CloseAdmission !in actions)
    ensures forall w :: Late(actions + [a], w) <==>
      Late(actions, w) || (a == StartDrain(w) && CloseAdmission in actions)
    ensures forall w | Late(actions, w) :: StartDrain(w) in actions
  {
    var more := actions + [a];
    assert more[..|actions|] == actions && more[|actions|] == a;
    assert forall i | 0 <= i < |actions| :: more[i] == actions[i] && more[..i] == actions[..i];
  }

  /** What each action does in any run: the gate is open until it is closed; a lease is outstanding exactly when it was
      asked for before that and not given back; a drain has returned exactly when it woke, with success, or was
      cancelled; and it counts as late exactly when the gate was closed before it. */
  lemma {:induction false} RunTraced(actions: seq<Action>)
    requires Run(INITIAL, actions).Some?
    ensures Traced(actions, Run(INITIAL, actions).value)
    ensures forall lease :: lease in Outstanding(Run(INITIAL, actions).value.leases) <==>
      Took(actions, lease) && Leave(lease) !in actions
  {
    hide Run, Took, Late;
    if actions == [] {
      NothingRun();
    } else {
      var n := |actions| - 1;
      assert actions == actions[..n] + [actions[n]];
      LastStep(actions);
      RunTraced(actions[..n]);
      OneMore(actions[..n], actions[n]);
      StepTraced(actions[..n], Run(INITIAL, actions[..n]).value, actions[n]);
    }
  }

  lemma NothingRun()
    ensures Run(INITIAL, []) == Some(INITIAL) && Traced([], INITIAL)
  {
  }

  lemma LastStep(actions: seq<Action>)
    requires actions != [] && Run(INITIAL, actions).Some?
    ensures Run(INITIAL, actions[..|actions| - 1]).Some?
    ensures Run(INITIAL, actions) == Step(Run(INITIAL, actions[..|actions| - 1]).value, actions[|actions| - 1])
  {
  }

  lemma StepTraced(actions: seq<Action>, s: State, a: Action)
    requires Traced(actions, s) && Step(s, a).Some?
    ensures Traced(actions + [a], Step(s, a).value)
  {
    hide Took, Late, LeasesTraced, DrainsTraced;
    OneMore(actions, a);
    StepLeases(actions, s, a);
    StepDrains(actions, s, a);
  }

  lemma StepLeases(actions: seq<Action>, s: State, a: Action)
    requires Traced(actions, s) && Step(s, a).Some?
    ensures LeasesTraced(actions + [a], Step(s, a).value.leases)
  {
    hide Took, Late, DrainsTraced, Enter, Exit;
    OneMore(actions, a);
  }

  lemma StepDrains(actions: seq<Action>, s: State, a: Action)
    requires Traced(actions, s) && Step(s, a).Some?
    ensures DrainsTraced(actions + [a], Step(s, a).value.drains)
  {
    hide Step, LeasesTraced, DrainTraced;
    forall w ensures DrainTraced(actions + [a], Step(s, a).value.drains, w) { StepDrain(actions, s, a, w); }
  }

  lemma StepDrain(actions: seq<Action>, s: State, a: Action, w: Waiter)
    requires DrainTraced(actions, s.drains, w) && (s.core.open <==> CloseAdmission !in actions) && Step(s, a).Some?
    ensures DrainTraced(actions + [a], Step(s, a).value.drains, w)
  {
    hide Late, Took, Enter, Exit, DrainOn;
    OneMore(actions, a);
    if a == StartDrain(w) { Starting(s, w); }
  }
}
