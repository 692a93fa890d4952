/** The client identity that a matched Codex rollout and turn establish. */
module CodexIdentity {
  import opened Wrappers
  import opened IdentityEvidence
  import opened ClientIdentity
  import opened CodexRollout
  import opened CodexResolver
  import ProjectionFacts

  // ---------- The thread, once its source is decoded ----------

  /** A spawn fills in what the metadata itself leaves empty. */
  function Described(meta: Meta): Profile {
    match meta.source
    case SpawnSource(parent, _, path, nickname, role) =>
      meta.profile.(
        parentThreadId := Or(meta.profile.parentThreadId, parent), agentPath := Or(meta.profile.agentPath, path),
        agentNickname := Or(meta.profile.agentNickname, nickname), agentRole := Or(meta.profile.agentRole, role))
    case _ => meta.profile
  }

  function Or(value: string, otherwise: string): string {
    if value != "" then value else otherwise
  }

  function SourceKind(meta: Meta): string {
    match meta.source
    case NoSource => ""
    case NamedSource(kind) => kind
    case SpawnSource(_, _, _, _, _) => "subagent"
  }

  predicate IsSubagent(meta: Meta) {
    meta.source.SpawnSource? || meta.profile.threadSource == "subagent" || SourceKind(meta) == "subagent"
  }

  // ---------- Evidence ----------

  /** One value under a name, if there is one. */
  function One(name: string, value: string): set<Evidence> {
    if value == "" then {} else {Evidence(name, value)}
  }

  function Many(name: string, values: set<string>): set<Evidence> {
    set value | value in values && value != "" :: Evidence(name, value)
  }

  /** Compaction windows seen after the exchange say nothing about it. */
  predicate InTime(window: Window, observedAt: int) {
    window.at == 0 || window.at <= observedAt
  }

  function WindowIds(windows: seq<Window>, observedAt: int): set<Evidence> {
    if windows == [] then {}
    else
      var last := windows[|windows| - 1];
      WindowIds(windows[..|windows| - 1], observedAt) +
      if InTime(last, observedAt) then OfWindow(last) else {}
  }

  /** The identifiers that one window gives. */
  function OfWindow(window: Window): set<Evidence> {
    One("codex.compaction_window_id", window.windowId) + One("codex.previous_window_id", window.previousId) +
    One("codex.first_window_id", window.firstId)
  }

  function ThreadIds(meta: Meta, turnId: string): set<Evidence> {
    var p := Described(meta);
    One("codex.session_id", meta.sessionId) + One("codex.thread_id", meta.threadId) + One("codex.turn_id", turnId) +
    One("codex.parent_thread_id", p.parentThreadId) + One("codex.forked_from_thread_id", p.forkedFromId) +
    One("codex.context_window_id", p.windowId)
  }

  function TurnIds(turn: Turn): set<Evidence> {
    Many("codex.response_item_id", turn.items) + Many("codex.reasoning_item_id", turn.reasoning) +
    Many("codex.call_id", turn.calls) + Many("codex.compaction_hash", turn.hashes)
  }

  /** Everything that the rollout says about the exchange's turn. */
  function ProtocolIds(r: Rollout, t: Target, turnId: string, lookup: ClientLookup): set<Evidence> {
    ThreadIds(r.meta, turnId) + One("openai_responses.previous_response_id", t.previousResponseId) +
    WindowIds(r.windows, lookup.observedAt) + TurnIds(TurnAt(r.turns, turnId))
  }

  function Attributes(meta: Meta): set<Evidence> {
    var p := Described(meta);
    One("codex.agent_nickname", p.agentNickname) + One("codex.agent_path", p.agentPath) +
    One("codex.agent_role", p.agentRole) + One("codex.cli_version", p.cliVersion) +
    One("codex.model_provider", p.modelProvider) + One("codex.originator", p.originator) +
    One("codex.source", SourceKind(meta)) + One("codex.thread_source", p.threadSource) +
    One("codex.spawn_depth", if meta.source.SpawnSource? && meta.source.depth.Some? then meta.source.depth.value
      else "")
  }

  // ---------- The identity ----------

  function ActorLabel(meta: Meta): string {
    Or(Or(Described(meta).agentNickname, ProjectionFacts.ActorLeaf(Described(meta).agentPath)), "subagent")
  }

  /** The identity's evidence lists are the canonical ones of their sets. */
  ghost predicate IsIdentity(r: Rollout, t: Target, turnId: string, lookup: ClientLookup, i: Identity) {
    var child := IsSubagent(r.meta);
    && i == Identity(
         Codex, r.meta.sessionId, true,
         if child then r.meta.threadId else "", if child then ActorLabel(r.meta) else "",
         if child then Or(Described(r.meta).agentRole, "subagent") else "", child,
         lookup.responseId, "", LocalState, true, lookup.observedAt - lookup.observedAt % NANOS_PER_MILLI,
         i.protocolIds, i.attributes)
    && Sorted(i.protocolIds) && Elements(i.protocolIds) == ProtocolIds(r, t, turnId, lookup)
    && Sorted(i.attributes) && Elements(i.attributes) == Attributes(r.meta)
  }

  /** Whatever order the maps are visited in, there is one such identity. */
  lemma IdentityUnique(r: Rollout, t: Target, turnId: string, lookup: ClientLookup, i: Identity, j: Identity)
    requires IsIdentity(r, t, turnId, lookup, i) && IsIdentity(r, t, turnId, lookup, j)
    ensures i == j
  {
    hide ProtocolIds, Attributes, ActorLabel, IsSubagent, Described, Sorted;
    SortedUnique(i.protocolIds, j.protocolIds);
    SortedUnique(i.attributes, j.attributes);
  }

  /** Sorts a set by inserting its elements in any order. */
  method SortEvidence(values: set<Evidence>) returns (sorted: seq<Evidence>)
    ensures Sorted(sorted) && Elements(sorted) == values
  {
    hide Before;
    sorted := [];
    var rest := values;
    while rest != {}
      invariant Sorted(sorted) && Elements(sorted) + rest == values
      decreases |rest|
    {
      var x :| x in rest;
      sorted := Insert(sorted, x);
      rest := rest - {x};
    }
  }

  /** The identity, or nothing when it is not valid. */
  method BuildIdentity(r: Rollout, t: Target, turnId: string, lookup: ClientLookup) returns (result: Option<Identity>)
    ensures result.Some? ==> IsIdentity(r, t, turnId, lookup, result.value) && Valid(result.value)
    ensures result.None? ==> exists built :: IsIdentity(r, t, turnId, lookup, built) && !Valid(built)
  {
    hide ProtocolIds, Attributes, ActorLabel, IsSubagent, Described, Valid, Before;
    var child := IsSubagent(r.meta);
    var protocolIds := SortEvidence(ProtocolIds(r, t, turnId, lookup));
    var attributes := SortEvidence(Attributes(r.meta));
    var identity := Identity(
      Codex, r.meta.sessionId, true,
      if child then r.meta.threadId else "", if child then ActorLabel(r.meta) else "",
      if child then Or(Described(r.meta).agentRole, "subagent") else "", child,
      lookup.responseId, "", LocalState, true, lookup.observedAt - lookup.observedAt % NANOS_PER_MILLI,
      protocolIds, attributes);
    assert IsIdentity(r, t, turnId, lookup, identity);
    result := if Valid(identity) then Some(identity) else None;
  }

  // ---------- It can be merged ----------

  lemma FreeNames()
    ensures !AssociationName("codex.turn_id") && !AssociationName("codex.context_window_id")
    ensures !AssociationName("openai_responses.previous_response_id")
    ensures !AssociationName("codex.compaction_window_id") && !AssociationName("codex.previous_window_id")
    ensures !AssociationName("codex.first_window_id") && !AssociationName("codex.response_item_id")
    ensures !AssociationName("codex.reasoning_item_id") && !AssociationName("codex.call_id")
    ensures !AssociationName("codex.compaction_hash")
  {
  }

  lemma {:induction false} WindowsFree(windows: seq<Window>, observedAt: int, x: Evidence)
    requires x in WindowIds(windows, observedAt)
    ensures !AssociationName(x.name)
  {
    hide AssociationName;
    FreeNames();
    if windows != [] && x in WindowIds(windows[..|windows| - 1], observedAt) {
      WindowsFree(windows[..|windows| - 1], observedAt, x);
    }
  }

  lemma TurnFree(turn: Turn, x: Evidence)
    requires x in TurnIds(turn)
    ensures !AssociationName(x.name)
  {
    hide AssociationName;
    FreeNames();
  }

  /** Six names, one value each. */
  lemma SixStable(
    a: Evidence, b: Evidence, c: Evidence, d: Evidence, e: Evidence, f: Evidence, x: Evidence, y: Evidence)
    requires a.name != b.name && a.name != c.name && a.name != d.name && a.name != e.name && a.name != f.name
    requires b.name != c.name && b.name != d.name && b.name != e.name && b.name != f.name
    requires c.name != d.name && c.name != e.name && c.name != f.name && d.name != e.name && d.name != f.name
    requires e.name != f.name && x.name == y.name
    requires x in {a, b, c, d, e, f} && y in {a, b, c, d, e, f}
    ensures x == y
  {
  }

  lemma ThreadStable(meta: Meta, turnId: string, x: Evidence, y: Evidence)
    requires x in ThreadIds(meta, turnId) && y in ThreadIds(meta, turnId) && x.name == y.name
    ensures x == y
  {
    hide Described;
    var p := Described(meta);
    var a, b := Evidence("codex.session_id", meta.sessionId), Evidence("codex.thread_id", meta.threadId);
    var c, d := Evidence("codex.turn_id", turnId), Evidence("codex.parent_thread_id", p.parentThreadId);
    var e := Evidence("codex.forked_from_thread_id", p.forkedFromId);
    var f := Evidence("codex.context_window_id", p.windowId);
    assert x in {a, b, c, d, e, f} && y in {a, b, c, d, e, f};
    assert a.name[6] == 's' && b.name[6] == 't' && c.name[6] == 't' && d.name[6] == 'p' && e.name[6] == 'f' &&
      f.name[6] == 'c';
    assert b.name[7] == 'h' && c.name[7] == 'u';
    SixStable(a, b, c, d, e, f, x, y);
  }

  lemma StableFromThread(r: Rollout, t: Target, turnId: string, lookup: ClientLookup, x: Evidence)
    requires x in ProtocolIds(r, t, turnId, lookup) && AssociationName(x.name)
    ensures x in ThreadIds(r.meta, turnId)
  {
    hide AssociationName, ThreadIds, WindowIds, TurnIds;
    FreeNames();
    if x in WindowIds(r.windows, lookup.observedAt) { WindowsFree(r.windows, lookup.observedAt, x); }
    if x in TurnIds(TurnAt(r.turns, turnId)) { TurnFree(TurnAt(r.turns, turnId), x); }
  }

  /** What local state establishes never contradicts itself, so it merges with itself. */
  lemma BuiltSelfConsistent(r: Rollout, t: Target, turnId: string, lookup: ClientLookup, i: Identity)
    requires IsIdentity(r, t, turnId, lookup, i)
    ensures SelfConsistent(i)
  {
    hide ProtocolIds, Attributes, ThreadIds, AssociationName, IsSubagent, ActorLabel, Described, Sorted;
    forall x, y | x in Elements(i.protocolIds) && y in Elements(i.protocolIds) && x.name == y.name &&
      Stable(x.name, false)
      ensures x.value == y.value
    {
      StableFromThread(r, t, turnId, lookup, x);
      StableFromThread(r, t, turnId, lookup, y);
      ThreadStable(r.meta, turnId, x, y);
    }
  }

  // ---------- Written out ----------

  /** What the metadata says of itself counts; a spawn only fills in what is left empty. */
  predicate Says(own: string, spawned: string, value: string) {
    value == if own != "" then own else spawned
  }

  predicate SaysParent(meta: Meta, value: string) {
    Says(meta.profile.parentThreadId, if meta.source.SpawnSource? then meta.source.parentThreadId else "", value)
  }

  predicate SaysPath(meta: Meta, value: string) {
    Says(meta.profile.agentPath, if meta.source.SpawnSource? then meta.source.agentPath else "", value)
  }

  predicate SaysNickname(meta: Meta, value: string) {
    Says(meta.profile.agentNickname, if meta.source.SpawnSource? then meta.source.agentNickname else "", value)
  }

  predicate SaysRole(meta: Meta, value: string) {
    Says(meta.profile.agentRole, if meta.source.SpawnSource? then meta.source.agentRole else "", value)
  }

  /** Which protocol identifiers are evidence, name by name: of the windows, those of unknown time and those no later
      than the exchange have a say. */
  ghost predicate Reported(r: Rollout, t: Target, turnId: string, lookup: ClientLookup, name: string, value: string) {
    || ReportedOfThread(r.meta, turnId, name, value)
    || (name == "openai_responses.previous_response_id" && value == t.previousResponseId)
    || (exists window | window in r.windows ::
          (window.at == 0 || window.at <= lookup.observedAt) && ReportedOfWindow(window, name, value))
    || (turnId in r.turns && ReportedOfTurn(r.turns[turnId], name, value))
  }

  predicate ReportedOfThread(meta: Meta, turnId: string, name: string, value: string) {
    || (name == "codex.session_id" && value == meta.sessionId)
    || (name == "codex.thread_id" && value == meta.threadId)
    || (name == "codex.turn_id" && value == turnId)
    || (name == "codex.parent_thread_id" && SaysParent(meta, value))
    || (name == "codex.forked_from_thread_id" && value == meta.profile.forkedFromId)
    || (name == "codex.context_window_id" && value == meta.profile.windowId)
  }

  predicate ReportedOfWindow(window: Window, name: string, value: string) {
    || (name == "codex.compaction_window_id" && value == window.windowId)
    || (name == "codex.previous_window_id" && value == window.previousId)
    || (name == "codex.first_window_id" && value == window.firstId)
  }

  predicate ReportedOfTurn(turn: Turn, name: string, value: string) {
    || (name == "codex.response_item_id" && value in turn.items)
    || (name == "codex.reasoning_item_id" && value in turn.reasoning)
    || (name == "codex.call_id" && value in turn.calls)
    || (name == "codex.compaction_hash" && value in turn.hashes)
  }

  /** Which attributes are evidence, name by name. */
  predicate Describes(meta: Meta, name: string, value: string) {
    || (name == "codex.agent_nickname" && SaysNickname(meta, value))
    || (name == "codex.agent_path" && SaysPath(meta, value))
    || (name == "codex.agent_role" && SaysRole(meta, value))
    || (name == "codex.cli_version" && value == meta.profile.cliVersion)
    || (name == "codex.model_provider" && value == meta.profile.modelProvider)
    || (name == "codex.originator" && value == meta.profile.originator)
    || (name == "codex.thread_source" && value == meta.profile.threadSource)
    || (name == "codex.source" && meta.source.NamedSource? && value == meta.source.kind)
    || (name == "codex.source" && meta.source.SpawnSource? && value == "subagent")
    || (name == "codex.spawn_depth" && meta.source.SpawnSource? && meta.source.depth == Some(value))
  }

  /** The label is the nickname, else the last part of the path, else "subagent". */
  ghost predicate LabelSays(meta: Meta, shown: string) {
    exists nickname, path :: SaysNickname(meta, nickname) && SaysPath(meta, path) &&
      shown ==
        if nickname != "" then nickname else if path != "" then ProjectionFacts.ActorLeaf(path) else "subagent"
  }

  ghost predicate TypeSays(meta: Meta, kind: string) {
    exists role :: SaysRole(meta, role) && kind == if role != "" then role else "subagent"
  }

  lemma OneHolds(name: string, value: string, x: Evidence)
    ensures x in One(name, value) <==> x.value != "" && x.name == name && x.value == value
  {
  }

  lemma {:induction false} WindowsHold(windows: seq<Window>, observedAt: int, x: Evidence)
    ensures x in WindowIds(windows, observedAt) <==> exists window | window in windows && InTime(window, observedAt) ::
      x in OfWindow(window)
  {
    if windows != [] { WindowsHold(windows[..|windows| - 1], observedAt, x); }
  }

  lemma WindowReported(window: Window, x: Evidence)
    ensures x in OfWindow(window) <==> x.value != "" && ReportedOfWindow(window, x.name, x.value)
  {
    hide One;
    OneHolds("codex.compaction_window_id", window.windowId, x);
    OneHolds("codex.previous_window_id", window.previousId, x);
    OneHolds("codex.first_window_id", window.firstId, x);
  }

  lemma WindowsReported(r: Rollout, lookup: ClientLookup, x: Evidence)
    ensures x in WindowIds(r.windows, lookup.observedAt) <==> exists window | window in r.windows ::
      (window.at == 0 || window.at <= lookup.observedAt) && x.value != "" && ReportedOfWindow(window, x.name, x.value)
  {
    hide WindowIds, OfWindow, ReportedOfWindow;
    WindowsHold(r.windows, lookup.observedAt, x);
    forall window: Window
      ensures x in OfWindow(window) <==> x.value != "" && ReportedOfWindow(window, x.name, x.value)
    {
      WindowReported(window, x);
    }
  }

  lemma ThreadReported(meta: Meta, turnId: string, x: Evidence)
    ensures x in ThreadIds(meta, turnId) <==> x.value != "" && ReportedOfThread(meta, turnId, x.name, x.value)
  {
    hide One;
    var p := Described(meta);
    OneHolds("codex.session_id", meta.sessionId, x);
    OneHolds("codex.thread_id", meta.threadId, x);
    OneHolds("codex.turn_id", turnId, x);
    OneHolds("codex.parent_thread_id", p.parentThreadId, x);
    OneHolds("codex.forked_from_thread_id", p.forkedFromId, x);
    OneHolds("codex.context_window_id", p.windowId, x);
  }

  lemma TurnReported(r: Rollout, turnId: string, x: Evidence)
    ensures x in TurnIds(TurnAt(r.turns, turnId)) <==>
      x.value != "" && turnId in r.turns && ReportedOfTurn(r.turns[turnId], x.name, x.value)
  {
  }

  /** Exactly the protocol identifiers that the source names, from the fields that it names, are evidence. */
  lemma ProtocolReported(r: Rollout, t: Target, turnId: string, lookup: ClientLookup, x: Evidence)
    ensures x in ProtocolIds(r, t, turnId, lookup) <==>
      x.value != "" && Reported(r, t, turnId, lookup, x.name, x.value)
  {
    hide WindowIds, ThreadIds, TurnIds, One, ReportedOfThread, ReportedOfWindow, ReportedOfTurn;
    ThreadReported(r.meta, turnId, x);
    TurnReported(r, turnId, x);
    WindowsReported(r, lookup, x);
    OneHolds("openai_responses.previous_response_id", t.previousResponseId, x);
  }

  lemma AttributesDescribed(meta: Meta, x: Evidence)
    ensures x in Attributes(meta) <==> x.value != "" && Describes(meta, x.name, x.value)
  {
    hide One;
    var p := Described(meta);
    OneHolds("codex.agent_nickname", p.agentNickname, x);
    OneHolds("codex.agent_path", p.agentPath, x);
    OneHolds("codex.agent_role", p.agentRole, x);
    OneHolds("codex.cli_version", p.cliVersion, x);
    OneHolds("codex.model_provider", p.modelProvider, x);
    OneHolds("codex.originator", p.originator, x);
    OneHolds("codex.source", SourceKind(meta), x);
    OneHolds("codex.thread_source", p.threadSource, x);
    OneHolds("codex.spawn_depth", if meta.source.SpawnSource? && meta.source.depth.Some? then meta.source.depth.value
      else "", x);
  }

  /** A built identity, field by field: its evidence is what the source names, in order and without repeats; an actor is
      reported exactly for a subagent. */
  lemma IdentitySays(r: Rollout, t: Target, turnId: string, lookup: ClientLookup, i: Identity)
    requires IsIdentity(r, t, turnId, lookup, i)
    ensures forall x :: x in i.protocolIds <==> x.value != "" && Reported(r, t, turnId, lookup, x.name, x.value)
    ensures forall x :: x in i.attributes <==> x.value != "" && Describes(r.meta, x.name, x.value)
    ensures i.client == Codex && i.sessionId == r.meta.sessionId && i.sessionResumable
    ensures i.source == LocalState && i.exact
    ensures i.providerResponseId == lookup.responseId && i.providerMessageId == ""
    ensures i.observedAt % 1_000_000 == 0 && 0 <= lookup.observedAt - i.observedAt < 1_000_000
    ensures i.actorIsSubagent <==>
      || r.meta.source.SpawnSource? || r.meta.profile.threadSource == "subagent"
      || r.meta.source == NamedSource("subagent")
    ensures i.actorIsSubagent ==> i.actorId == r.meta.threadId
    ensures i.actorIsSubagent ==> LabelSays(r.meta, i.actorLabel) && TypeSays(r.meta, i.actorType)
    ensures !i.actorIsSubagent ==> i.actorId == "" && i.actorLabel == "" && i.actorType == ""
  {
    hide ProtocolIds, Attributes, Sorted, Reported, Describes, ProjectionFacts.ActorLeaf;
    forall x: Evidence
      ensures x in ProtocolIds(r, t, turnId, lookup) <==>
        x.value != "" && Reported(r, t, turnId, lookup, x.name, x.value)
      ensures x in Attributes(r.meta) <==> x.value != "" && Describes(r.meta, x.name, x.value)
    {
      ProtocolReported(r, t, turnId, lookup, x);
      AttributesDescribed(r.meta, x);
    }
    var p := Described(r.meta);
    assert SaysRole(r.meta, p.agentRole) && SaysNickname(r.meta, p.agentNickname) && SaysPath(r.meta, p.agentPath);
    LeafEmpty(p.agentPath);
    forall x: Evidence ensures x in i.protocolIds <==> x in Elements(i.protocolIds) {
    }
    forall x: Evidence ensures x in i.attributes <==> x in Elements(i.attributes) {
    }
  }

  lemma LeafEmpty(path: string)
    ensures ProjectionFacts.ActorLeaf(path) == "" <==> path == ""
  {
  }
}
