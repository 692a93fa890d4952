/** Concrete inputs on which the natural statements fail; the exact conditions are proved beside the components. */
module Counterexamples {
  import opened Wrappers
  import opened IdentityEvidence
  import opened Strings
  import ClientIdentity
  import ProtocolIdentity
  import ProjectionNames
  import ProjectionFacts
  import ProjectionRefs
  import LifecycleGate
  import EvidencePublication
  import AcpMessages
  import AcpSnapshot
  import AcpRuns

  // ---------- The observer accepts any exit code ----------

  /** Finish accepts the exit code 256, and what the observer then publishes is refused by its validator. */
  lemma IllegalExitCode(decode: AcpMessages.Decoder, content: bool)
    ensures
      var calls := [AcpRuns.Finish(256, false)];
      !AcpSnapshot.Legal(AcpRuns.Published(AcpRuns.Run(decode, content, calls)), content)
  {
    hide AcpRuns.Run, AcpRuns.Published;
    var calls := [AcpRuns.Finish(256, false)];
    assert calls[..0] == [] && AcpRuns.Effort([]) == 0 && AcpRuns.FirstFinish([]) == 0;
    assert AcpRuns.FirstFinish(calls) == 0;
    AcpRuns.PublishedLegal(decode, content, calls);
  }

  // ---------- A valid identity that cannot be merged with itself ----------

  const TWO_AGENTS := [Evidence("claude.agent_id", "a"), Evidence("claude.agent_id", "b")]

  const TORN := ClientIdentity.Identity(
    ClientIdentity.Claude, "s", true, "a", "", "", false, "r", "", ClientIdentity.LocalState, true, 1_000_000,
      TWO_AGENTS, [])

  lemma TwoAgentsCanonical()
    ensures Canonical(TWO_AGENTS, false)
  {
    var name := "claude.agent_id";
    assert ValidName(name);
    assert Utf8Length("a") == 1 && Utf8Length("b") == 1;
    assert ValidText("a", false) && ValidText("b", false);
  }

  lemma TornValid()
    ensures ClientIdentity.Valid(TORN)
  {
    TwoAgentsCanonical();
    hide Canonical;
    assert Utf8Length("s") == 1 && Utf8Length("r") == 1 && Utf8Length("a") == 1;
    assert Canonical(TORN.attributes, true) by { NothingCanonical(); }
  }

  lemma NothingCanonical()
    ensures Canonical([], true)
  {
  }

  lemma TornTwice()
    ensures !ClientIdentity.SelfConsistent(TORN)
  {
    var a, b := TWO_AGENTS[0], TWO_AGENTS[1];
    assert a in Elements(TWO_AGENTS) && b in Elements(TWO_AGENTS) && a.name == b.name && a.value != b.value;
    assert AssociationName(a.name);
  }

  lemma SelfMergeFails()
    ensures ClientIdentity.Valid(TORN) && ClientIdentity.Join(TORN, TORN).None?
  {
    hide ClientIdentity.Valid, ClientIdentity.Join, ClientIdentity.SelfConsistent;
    TornValid();
    TornTwice();
    assert ClientIdentity.Normalize(TORN) == TORN;
    ClientIdentity.JoinIdempotent(TORN);
  }

  // ---------- Two routes that differ ----------

  const SESSION_ONLY := [Evidence(ProtocolIdentity.CLAUDE_SESSION, "s")]

  /** A Claude request whose only message names an actor that its evidence does not. */
  const SPOKEN := ProjectionFacts.Request(
    SESSION_ONLY, [], [ProjectionFacts.Message(false, Some(ProjectionFacts.AgentContext("a", "")), [])])

  const EXCHANGE := ProjectionFacts.Input("r", "e", "", Some(SPOKEN), None, None)

  lemma SessionOnlyValid()
    ensures ProtocolIdentity.ValidProtocolEvidence(SESSION_ONLY) && Canonical(SESSION_ONLY, false)
    ensures ProtocolIdentity.NativeIds(SESSION_ONLY) == SESSION_ONLY
    ensures ProjectionFacts.NoAliases(SESSION_ONLY)
  {
    assert Utf8Length("s") == 1;
    assert SESSION_ONLY[..0] == [] && ProtocolIdentity.NativeIds([]) == [];
    assert ProtocolIdentity.ClaudeName(SESSION_ONLY[0].name);
  }

  lemma SessionOnlyNamed()
    ensures ProtocolIdentity.ClientOf(SESSION_ONLY).Claude? && ProtocolIdentity.SessionOf(SESSION_ONLY) == "s"
    ensures ProtocolIdentity.ActorOf(SESSION_ONLY) == "" && ProtocolIdentity.ParentOf(SESSION_ONLY) == ""
    ensures !ProtocolIdentity.Mentions(SESSION_ONLY, ProtocolIdentity.CodexName)
  {
    assert SESSION_ONLY[..0] == [];
    assert ProtocolIdentity.ClaudeName(SESSION_ONLY[0].name);
    assert !ProtocolIdentity.CodexName(SESSION_ONLY[0].name);
    assert ProtocolIdentity.CLAUDE_SESSION[7] == 's' && ProtocolIdentity.CLAUDE_AGENT[7] == 'a' &&
      ProtocolIdentity.CLAUDE_PARENT[7] == 'p';
    ProtocolIdentity.LookupAbsent(SESSION_ONLY, ProtocolIdentity.CLAUDE_AGENT);
    ProtocolIdentity.LookupAbsent(SESSION_ONLY, ProtocolIdentity.CLAUDE_PARENT);
  }

  lemma SessionOnlyAdvertises()
    ensures ProtocolIdentity.FromProtocol(SESSION_ONLY, "", 1_000_000).Some?
    ensures ProtocolIdentity.FromProtocol(SESSION_ONLY, "", 1_000_000).value.client.Claude?
    ensures ProtocolIdentity.FromProtocol(SESSION_ONLY, "", 1_000_000).value.actorId == ""
  {
    SessionOnlyValid();
    SessionOnlyNamed();
    NothingCanonical();
    hide Canonical, ProtocolIdentity.ValidProtocolEvidence, ProtocolIdentity.NativeIds, ProtocolIdentity.Mentions,
      ProtocolIdentity.ClientOf, ProtocolIdentity.SessionOf, ProtocolIdentity.ActorOf, ProtocolIdentity.ParentOf;
    assert Utf8Length("s") == 1;
  }

  lemma SpokenHeard()
    ensures !ProjectionFacts.Unmarked(SPOKEN, None)
  {
    var m := SPOKEN.messages[0];
    var heard := [ProjectionFacts.Producer(m.agent)] + ProjectionFacts.Producers(m.blocks);
    ProjectionFacts.HeardMeans(heard);
    assert heard[0] == "a" && "a" in heard;
  }

  /** Through the advertised identity the exchange is the session's main stream; from its evidence it is not. */
  lemma RoutesDiffer()
    ensures
      var identity := ProtocolIdentity.FromProtocol(SESSION_ONLY, "", 1_000_000);
      identity.Some? &&
      ProjectionFacts.Prepare(EXCHANGE.(identity := identity)) != ProjectionFacts.Prepare(EXCHANGE.(identity := None))
  {
    SessionOnlyValid();
    SessionOnlyAdvertises();
    SpokenHeard();
    ExchangeValid();
    hide ProtocolIdentity.FromProtocol, ProjectionFacts.NoAliases, ProjectionFacts.Unmarked, ProjectionFacts.ValidInput,
      ProjectionFacts.Prepare;
    ProjectionFacts.RoutesAgree(EXCHANGE, 1_000_000, "");
  }

  lemma ExchangeValid()
    ensures ProjectionFacts.ValidInput(EXCHANGE)
  {
    assert Utf8Length("e") == 1 && Utf8Length("r") == 1;
  }

  // ---------- Facts that no reference can show ----------

  /** A valid identity without a label, whose actor's path ends in a leaf that starts with a space. */
  const SPACED := ClientIdentity.Identity(
    ClientIdentity.Claude, "s", true, "a/ b", "", "", false, "r", "", ClientIdentity.LocalState, true, 1_000_000, [],
      [])

  const SPACED_INPUT := ProjectionFacts.Input("r", "e", "", None, None, Some(SPACED))

  lemma SpacedValid()
    ensures ClientIdentity.Valid(SPACED)
  {
    assert Utf8Length("s") == 1 && Utf8Length("r") == 1;
    var actor := "a/ b";
    assert actor[1..] == "/ b" && actor[1..][1..] == " b" && actor[1..][1..][1..] == "b" &&
      actor[1..][1..][1..][1..] == "";
    assert Utf8Length("b") == 1 && Utf8Length(" b") == 2 && Utf8Length("/ b") == 3 && Utf8Length(actor) == 4;
    NothingCanonical();
    assert Canonical([], false);
  }

  lemma SpacedLeaf()
    ensures ProjectionFacts.ActorLeaf("a/ b") == " b"
  {
    var actor := "a/ b";
    assert ProjectionFacts.TrimSlashes(actor) == actor && actor[1] == '/';
    assert actor[..3] == "a/ " && actor[..3][..2] == "a/";
    assert ProjectionFacts.AfterLastSlash("a/") == "" && ProjectionFacts.AfterLastSlash("a/ ") == "" + [' '];
    assert ProjectionFacts.AfterLastSlash(actor) == ("" + [' ']) + ['b'];
  }

  /** The facts are prepared from valid data, and yet no reference can be made of them. */
  lemma Unmaterialized(digest: ProjectionNames.Digest)
    requires ProjectionNames.GoodDigest(digest) && ProjectionRefs.PlainDigest(digest)
    ensures ProjectionFacts.Prepare(SPACED_INPUT).Some?
    ensures ProjectionFacts.Materialize(digest, ProjectionFacts.Prepare(SPACED_INPUT).value).None?
  {
    hide ClientIdentity.Valid, ProjectionFacts.Materialize, ProjectionFacts.FromIdentity, ProjectionFacts.ActorLeaf,
      ProjectionNames.GoodDigest, ProjectionRefs.PlainDigest, ProjectionRefs.NameFits;
    SpacedValid();
    SpacedLeaf();
    assert Utf8Length("e") == 1 && Utf8Length("r") == 1;
    assert !ValidText(" b", true);
    ProjectionRefs.ProjectsExactly(digest, SPACED_INPUT);
  }

  // ---------- A drain that began too early ----------

  /** The drain succeeds although an operation is active. */
  lemma DrainBeforeClose()
    ensures
      var end := LifecycleGate.Run(LifecycleGate.INITIAL,
        [LifecycleGate.StartDrain(0), LifecycleGate.Begin(0), LifecycleGate.WakeDrain(0)]);
      end.Some? && 0 in end.value.drains && end.value.drains[0] == LifecycleGate.Returned(true, false) &&
        end.value.core.active == 1
  {
    var actions := [LifecycleGate.StartDrain(0), LifecycleGate.Begin(0), LifecycleGate.WakeDrain(0)];
    assert actions[..2][..1][..0] == [] && actions[..2][1] == actions[1] && actions[..2][..1][0] == actions[0];
    assert LifecycleGate.Run(LifecycleGate.INITIAL, actions[..2][..1][..0]) == Some(LifecycleGate.INITIAL);
    assert LifecycleGate.Run(LifecycleGate.INITIAL, actions[..2][..1]).Some?;
    assert LifecycleGate.Run(LifecycleGate.INITIAL, actions[..2]).Some?;
  }

  // ---------- A rollback that a crash can tear ----------

  /** The published path changed after both links were durable: both removals work, and between them and the sync a
      crash may keep the manifest without its checksum. */
  method OrphanManifest(
    payload: string, digest: string -> string)
    returns (dir: EvidencePublication.Directory, ghost b: EvidencePublication.Base)
    ensures fresh(dir) && b.run == 0 && b.existing == map[]
    ensures exists i | 0 <= i < |dir.history| :: EvidencePublication.Orphan(b, dir.history[i])
  {
    dir := new EvidencePublication.Directory();
    b := EvidencePublication.BaseOf(dir, "m", payload, digest);
    var works := EvidencePublication.StageFaults(false, false, false, false);
    var faults := EvidencePublication.Faults(
      false, false, works, works, false, false, false, false, true, false, false, false, false, false);
    var published, _ := EvidencePublication.WriteEvidence(
      dir, EvidencePublication.Paths("m", "t", "u"), payload, digest, faults);
    assert !EvidencePublication.NoOrphan(b, dir.history, 0);
  }
}
