/** The abstract admission gate: leases are taken while it is open, given back once, and it closes for good. */
module AdmissionGate {

  type LeaseId = nat
  type Channel = nat
  type Waiter = nat

  datatype Gate = Gate(open: bool, active: set<LeaseId>, used: set<LeaseId>)

  ghost predicate Begins(g: Gate, h: Gate, lease: LeaseId) {
    g.open && lease !in g.used && h == g.(active := g.active + {lease}, used := g.used + {lease})
  }

  ghost predicate Releases(g: Gate, h: Gate, lease: LeaseId) {
    lease in g.active && h == g.(active := g.active - {lease})
  }

  ghost predicate Next(g: Gate, h: Gate) {
    || h == g || h == g.(open := false)
    || (exists lease :: Begins(g, h, lease)) || (exists lease :: Releases(g, h, lease))
  }

  /** Once closed the gate stays closed and its active set only shrinks; no lease becomes active twice. */
  lemma ClosedShrinks(g: Gate, h: Gate)
    requires Next(g, h) && g.active <= g.used
    ensures h.active <= h.used && g.used <= h.used
    ensures !g.open ==> !h.open && h.active <= g.active
    ensures (g.used - g.active) * h.active == {}
  {
  }

  // ---------- Runs ----------

  ghost predicate Path(gates: seq<Gate>) {
    gates != [] && forall i | 0 < i < |gates| :: Next(gates[i - 1], gates[i])
  }

  ghost predicate Reaches(g: Gate, h: Gate) {
    exists gates :: Path(gates) && gates[0] == g && gates[|gates| - 1] == h
  }

  lemma ReachesItself(g: Gate)
    ensures Reaches(g, g)
  {
    assert Path([g]);
  }

  lemma ReachesNext(g: Gate, h: Gate, k: Gate)
    requires Reaches(g, h) && Next(h, k)
    ensures Reaches(g, k)
  {
    hide Next;
    var gates :| Path(gates) && gates[0] == g && gates[|gates| - 1] == h;
    var more := gates + [k];
    forall i | 0 < i < |more| ensures Next(more[i - 1], more[i]) {
      if i < |gates| { assert Next(gates[i - 1], gates[i]); }
    }
    assert Path(more);
  }

  lemma {:induction false} PathShrinks(gates: seq<Gate>, n: nat)
    requires Path(gates) && n < |gates| && gates[0].active <= gates[0].used
    ensures gates[n].active <= gates[n].used
    ensures !gates[0].open ==> !gates[n].open && gates[n].active <= gates[0].active
    ensures (gates[0].used - gates[0].active) * gates[n].active == {} && gates[0].used <= gates[n].used
  {
    hide Next;
    if n > 0 {
      PathShrinks(gates, n - 1);
      assert Next(gates[n - 1], gates[n]);
      ClosedShrinks(gates[n - 1], gates[n]);
    }
  }

  /** A closed gate stays closed and admits nobody, and a lease that was given back stays given back. */
  lemma ClosedForever(g: Gate, h: Gate)
    requires Reaches(g, h) && g.active <= g.used
    ensures !g.open ==> !h.open && h.active <= g.active
    ensures (g.used - g.active) * h.active == {}
  {
    var gates :| Path(gates) && gates[0] == g && gates[|gates| - 1] == h;
    PathShrinks(gates, |gates| - 1);
  }

  // ---------- Leases ----------

  /** A lease is held; its first release call has begun; that call has given it back. */
  datatype Lease = Held | Releasing | Released

  type Leases = map<LeaseId, Lease>

  function Outstanding(leases: Leases): set<LeaseId> {
    set l | l in leases && !leases[l].Released?
  }

  lemma TakeLease(leases: Leases, lease: LeaseId)
    requires lease !in leases
    ensures Outstanding(leases[lease := Held]) == Outstanding(leases) + {lease}
    ensures |Outstanding(leases[lease := Held])| == |Outstanding(leases)| + 1
  {
    assert Outstanding(leases[lease := Held]) == Outstanding(leases) + {lease};
  }

  lemma ClaimLease(leases: Leases, lease: LeaseId)
    requires lease in leases && leases[lease].Held?
    ensures Outstanding(leases[lease := Releasing]) == Outstanding(leases)
  {
  }

  lemma GiveBackLease(leases: Leases, lease: LeaseId)
    requires lease in leases && leases[lease].Releasing?
    ensures Outstanding(leases[lease := Released]) == Outstanding(leases) - {lease} && lease in Outstanding(leases)
    ensures |Outstanding(leases[lease := Released])| == |Outstanding(leases)| - 1
  {
    assert Outstanding(leases[lease := Released]) == Outstanding(leases) - {lease};
  }
}
