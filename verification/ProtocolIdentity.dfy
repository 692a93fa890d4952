/** Identity and scope read from a request's protocol evidence. */
module ProtocolIdentity {
  import opened Wrappers
  import opened Strings
  import opened IdentityEvidence
  import opened ClientIdentity
  import opened ProjectionNames

  // ---------- Protocol evidence: unique names in order ----------

  predicate NamesAscend(values: seq<Evidence>) {
    forall i, j | 0 <= i < j < |values| :: Less(values[i].name, values[j].name)
  }

  /** What protocol evidence must satisfy; its names are unique. */
  predicate ValidProtocolEvidence(values: seq<Evidence>) {
    && |values| <= MAX_EVIDENCE
    && (forall i | 0 <= i < |values| :: ValidName(values[i].name) && ValidText(values[i].value, false))
    && NamesAscend(values)
  }

  /** The value of a name, empty when there is none. */
  function Lookup(values: seq<Evidence>, name: string): string {
    if values == [] then ""
    else if values[|values| - 1].name == name then values[|values| - 1].value
    else Lookup(values[..|values| - 1], name)
  }

  lemma {:induction false} LookupMember(values: seq<Evidence>, name: string, i: nat)
    requires NamesAscend(values) && i < |values| && values[i].name == name
    ensures Lookup(values, name) == values[i].value
  {
    var n := |values| - 1;
    if i < n {
      LessTrichotomy(values[i].name, values[n].name);
      LookupMember(values[..n], name, i);
    }
  }

  lemma {:induction false} LookupAbsent(values: seq<Evidence>, name: string)
    requires forall i | 0 <= i < |values| :: values[i].name != name
    ensures Lookup(values, name) == ""
  {
    if values != [] {
      LookupAbsent(values[..|values| - 1], name);
    }
  }

  lemma ValidAscends(values: seq<Evidence>)
    ensures ValidProtocolEvidence(values) ==> NamesAscend(values)
  {
  }

  /** The field holds the value of the name, if the values have one. */
  ghost predicate Reads(values: seq<Evidence>, name: string, field: string) {
    forall v | v != "" :: Evidence(name, v) in values <==> v == field
  }

  lemma LookupReads(values: seq<Evidence>, name: string)
    requires ValidProtocolEvidence(values)
    ensures Reads(values, name, Lookup(values, name))
    ensures forall x | x in values :: x.value != ""
  {
    hide ValidText, ValidName, Lookup;
    forall i | 0 <= i < |values| ensures values[i].value != "" { TextStrict(values[i].value); }
    if i :| 0 <= i < |values| && values[i].name == name {
      LookupMember(values, name, i);
      forall j | 0 <= j < |values| && values[j].name == name ensures values[j].value == Lookup(values, name) {
        LookupMember(values, name, j);
      }
      assert values[i] == Evidence(name, Lookup(values, name));
    } else {
      LookupAbsent(values, name);
    }
  }

  // ---------- Scope of a request ----------

  const CLAUDE_SESSION := "claude.session_id"
  const CLAUDE_AGENT := "claude.agent_id"
  const CLAUDE_PARENT := "claude.parent_agent_id"
  const OPENAI_SESSION := "openai_responses.session_id"
  const OPENAI_THREAD := "openai_responses.thread_id"
  const OPENAI_TURN := "openai_responses.turn_id"
  const OPENAI_PREVIOUS := "openai_responses.previous_response_id"
  const CODEX_SESSION := "codex.session_id"
  const CODEX_THREAD := "codex.thread_id"
  const CODEX_VERSION := "codex.cli_version"

  datatype Step = Skip | SetSession(client: Client) | SetThread

  function ScopeStep(name: string): Step {
    if name == CLAUDE_SESSION then SetSession(Claude)
    else if name == OPENAI_SESSION || name == CODEX_SESSION then SetSession(Codex)
    else if name == OPENAI_THREAD || name == CODEX_THREAD then SetThread
    else Skip
  }

  /** One evidence value's effect on a scope; None is a conflict. */
  function AddToScope(scope: Scope, value: Evidence): Option<Scope> {
    match ScopeStep(value.name)
    case Skip => Some(scope)
    case SetSession(client) =>
      if (scope.sessionId != "" && scope.sessionId != value.value) ||
        (scope.client != NoClient && scope.client != client)
      then None else Some(scope.(sessionId := value.value, client := client))
    case SetThread =>
      if (scope.threadId != "" && scope.threadId != value.value) || (scope.client != NoClient && scope.client != Codex)
      then None else Some(scope.(threadId := value.value, client := Codex))
  }

  function ScanScope(values: seq<Evidence>): Option<Scope> {
    if values == [] then Some(NO_SCOPE)
    else
      var before := ScanScope(values[..|values| - 1]);
      if before.None? then None else AddToScope(before.value, values[|values| - 1])
  }

  /** The scope a request's evidence supports; the empty scope when it is invalid, conflicting or sessionless. */
  function ScopeOf(values: seq<Evidence>): Scope {
    if ValidProtocolEvidence(values) && ScanScope(values).Some? && ScanScope(values).value.sessionId != ""
    then ScanScope(values).value else NO_SCOPE
  }

  method ProtocolScope(values: seq<Evidence>) returns (scope: Scope)
    ensures scope == ScopeOf(values)
  {
    hide ValidProtocolEvidence, AddToScope;
    if !ValidProtocolEvidence(values) { return NO_SCOPE; }
    scope := NO_SCOPE;
    for i := 0 to |values|
      invariant ScanScope(values[..i]) == Some(scope)
    {
      assert values[..i + 1][..i] == values[..i];
      var next := AddToScope(scope, values[i]);
      if next.None? {
        ScanFails(values, i + 1);
        return NO_SCOPE;
      }
      scope := next.value;
    }
    assert values[..|values|] == values;
    if scope.sessionId == "" { return NO_SCOPE; }
  }

  lemma {:induction false} ScanFails(values: seq<Evidence>, n: nat)
    requires n <= |values| && ScanScope(values[..n]).None?
    ensures ScanScope(values).None?
  {
    hide AddToScope;
    if n == |values| {
      assert values[..n] == values;
    } else {
      assert values[..|values| - 1][..n] == values[..n];
      ScanFails(values[..|values| - 1], n);
    }
  }

  /** The actor a Claude request names. */
  function ProtocolActor(values: seq<Evidence>): string {
    if ValidProtocolEvidence(values) then ActorOf(values) else ""
  }

  // ---------- Identity from evidence ----------

  predicate ClaudeName(name: string) {
    name == CLAUDE_AGENT || name == CLAUDE_PARENT || name == CLAUDE_SESSION
  }

  predicate CodexName(name: string) {
    name == OPENAI_SESSION || name == OPENAI_THREAD || name == OPENAI_TURN || name == OPENAI_PREVIOUS
  }

  predicate Mentions(values: seq<Evidence>, family: string -> bool) {
    exists i | 0 <= i < |values| :: family(values[i].name)
  }

  /** The values that become protocol IDs, in order. */
  function NativeIds(values: seq<Evidence>): (r: seq<Evidence>)
    ensures forall x :: x in r <==> x in values && (ClaudeName(x.name) || CodexName(x.name))
  {
    if values == [] then []
    else
      var last := values[|values| - 1];
      NativeIds(values[..|values| - 1]) + if ClaudeName(last.name) || CodexName(last.name) then [last] else []
  }

  function Versions(values: seq<Evidence>): seq<Evidence> {
    if values == [] then []
    else
      var last := values[|values| - 1];
      Versions(values[..|values| - 1]) + if last.name == CODEX_VERSION then [last] else []
  }

  function ClientOf(values: seq<Evidence>): Client {
    if Mentions(values, CodexName) then Codex else if Mentions(values, ClaudeName) then Claude else NoClient
  }

  function SessionOf(values: seq<Evidence>): string {
    Lookup(values, if ClientOf(values).Codex? then OPENAI_SESSION else CLAUDE_SESSION)
  }

  function ActorOf(values: seq<Evidence>): string {
    Lookup(values, CLAUDE_AGENT)
  }

  function ParentOf(values: seq<Evidence>): string {
    Lookup(values, CLAUDE_PARENT)
  }

  /** The identity a request's evidence advertises: one client, a native session, and no parentless child. */
  predicate Advertises(values: seq<Evidence>, providerResponseId: string, observedAt: int) {
    && observedAt != 0 && ValidProtocolEvidence(values) && ValidText(providerResponseId, true)
    && !(Mentions(values, CodexName) && Mentions(values, ClaudeName))
    && ClientOf(values) != NoClient && SessionOf(values) != ""
    && !(ClientOf(values).Claude? && ParentOf(values) != "" && ActorOf(values) == "")
  }

  function Advertised(values: seq<Evidence>, providerResponseId: string, observedAt: int): Identity {
    Identity(
      ClientOf(values), SessionOf(values), true, ActorOf(values), "", "",
      ParentOf(values) != "", providerResponseId,
      if ClientOf(values).Claude? then providerResponseId else "",
      ProtocolEvidence, true, observedAt - observedAt % NANOS_PER_MILLI,
      NativeIds(values), if ClientOf(values).Codex? then Versions(values) else [])
  }

  function FromProtocol(values: seq<Evidence>, providerResponseId: string, observedAt: int): Option<Identity> {
    if Advertises(values, providerResponseId, observedAt) && Valid(Advertised(values, providerResponseId, observedAt))
    then Some(Advertised(values, providerResponseId, observedAt)) else None
  }

  predicate Native(name: string) {
    ClaudeName(name) || CodexName(name)
  }

  /** The fields table holds the native names of the values and nothing else. */
  ghost predicate FieldsOf(fields: map<string, string>, values: seq<Evidence>) {
    && (forall name | Native(name) :: Lookup(values, name) == Field(fields, name))
    && (forall name | name in fields :: exists j | 0 <= j < |values| :: values[j].name == name)
  }

  /** The scanning loop: it refuses evidence of two clients at the first value that reveals it. */
  method ScanNative(values: seq<Evidence>)
    returns (ok: bool, client: Client, fields: map<string, string>, protocolIds: seq<Evidence>,
      attributes: seq<Evidence>)
    requires NamesAscend(values)
    ensures ok <==> !(Mentions(values, CodexName) && Mentions(values, ClaudeName))
    ensures ok ==>
      && client == ClientOf(values) && FieldsOf(fields, values)
      && protocolIds == NativeIds(values) && attributes == Versions(values)
  {
    hide NativeIds, Versions, ClaudeName, CodexName, FieldsOf, NamesAscend, Mentions;
    ok, client, fields, protocolIds, attributes := true, NoClient, map[], [], [];
    NothingScanned();
    for i := 0 to |values|
      invariant ok && client == ClientOf(values[..i]) && FieldsOf(fields, values[..i])
      invariant protocolIds == NativeIds(values[..i]) && attributes == Versions(values[..i])
      invariant !(Mentions(values[..i], CodexName) && Mentions(values[..i], ClaudeName))
    {
      var value := values[i];
      assert values[..i] + [value] == values[..i + 1];
      MentionsExtend(values[..i], value);
      NativeExtend(values[..i], value);
      FreshName(values, i);
      FieldsExtend(fields, values[..i], value);
      if value.name == CODEX_VERSION {
        attributes := attributes + [value];
      } else if Native(value.name) {
        var named := if ClaudeName(value.name) then Claude else Codex;
        if client != NoClient && client != named {
          TwoClients(values, i);
          ok := false;
          return;
        }
        client := named;
        fields := fields[value.name := value.value];
        protocolIds := protocolIds + [value];
      }
    }
    assert values[..|values|] == values;
  }

  lemma NothingScanned()
    ensures NativeIds([]) == [] && Versions([]) == [] && FieldsOf(map[], []) && ClientOf([]) == NoClient
    ensures !Mentions([], CodexName) && !Mentions([], ClaudeName)
  {
  }

  lemma FieldsExtend(fields: map<string, string>, values: seq<Evidence>, x: Evidence)
    requires FieldsOf(fields, values)
    requires forall j | 0 <= j < |values| :: values[j].name != x.name
    ensures FieldsOf(if Native(x.name) then fields[x.name := x.value] else fields, values + [x])
  {
    hide Native;
    assert (values + [x])[..|values|] == values;
    var fields' := if Native(x.name) then fields[x.name := x.value] else fields;
    forall name | name in fields' ensures exists j | 0 <= j < |values + [x]| :: (values + [x])[j].name == name {
      if name == x.name {
        assert (values + [x])[|values|].name == name;
      } else {
        var j :| 0 <= j < |values| && values[j].name == name;
        assert (values + [x])[j].name == name;
      }
    }
  }

  method IdentityFromProtocol(values: seq<Evidence>, providerResponseId: string, observedAt: int)
    returns (r: Option<Identity>)
    ensures r == FromProtocol(values, providerResponseId, observedAt)
  {
    hide ValidText, ValidProtocolEvidence, Valid, NativeIds, Versions, Mentions, FieldsOf, ClientOf, SessionOf, ActorOf,
      ParentOf, SessionField, ActorField, ParentField, NamesAscend;
    if observedAt == 0 || !ValidProtocolEvidence(values) || !ValidText(providerResponseId, true) { return None; }
    ValidAscends(values);
    var ok, client, fields, protocolIds, attributes := ScanNative(values);
    if !ok { return None; }
    FieldValues(fields, values);
    var sessionId, actorId, parentId := SessionField(fields, client), ActorField(fields), ParentField(fields);
    if client == NoClient || sessionId == "" || (client.Claude? && parentId != "" && actorId == "") { return None; }
    var identity := Identity(
      client, sessionId, true, actorId, "", "", parentId != "", providerResponseId,
      if client.Claude? && providerResponseId != "" then providerResponseId else "",
      ProtocolEvidence, true, observedAt - observedAt % NANOS_PER_MILLI,
      protocolIds, if client.Codex? then attributes else []);
    if !Valid(identity) { return None; }
    return Some(identity);
  }

  function SessionField(fields: map<string, string>, client: Client): string {
    Field(fields, if client.Codex? then OPENAI_SESSION else CLAUDE_SESSION)
  }

  function ActorField(fields: map<string, string>): string {
    Field(fields, CLAUDE_AGENT)
  }

  function ParentField(fields: map<string, string>): string {
    Field(fields, CLAUDE_PARENT)
  }

  lemma FieldValues(fields: map<string, string>, values: seq<Evidence>)
    requires FieldsOf(fields, values)
    ensures SessionField(fields, ClientOf(values)) == SessionOf(values)
    ensures ActorField(fields) == ActorOf(values) && ParentField(fields) == ParentOf(values)
  {
    hide Lookup, Field;
    assert Native(OPENAI_SESSION) && Native(CLAUDE_SESSION) && Native(CLAUDE_AGENT) && Native(CLAUDE_PARENT);
  }

  function Field(fields: map<string, string>, name: string): string {
    if name in fields then fields[name] else ""
  }

  lemma NativeExtend(values: seq<Evidence>, x: Evidence)
    ensures NativeIds(values + [x]) == NativeIds(values) + if ClaudeName(x.name) || CodexName(x.name) then [x] else []
    ensures Versions(values + [x]) == Versions(values) + if x.name == CODEX_VERSION then [x] else []
    ensures x.name == CODEX_VERSION ==> !ClaudeName(x.name) && !CodexName(x.name)
  {
    assert (values + [x])[..|values|] == values;
  }

  lemma MentionsExtend(values: seq<Evidence>, x: Evidence)
    ensures Mentions(values + [x], CodexName) <==> Mentions(values, CodexName) || CodexName(x.name)
    ensures Mentions(values + [x], ClaudeName) <==> Mentions(values, ClaudeName) || ClaudeName(x.name)
    ensures !(ClaudeName(x.name) && CodexName(x.name))
  {
    assert (values + [x])[|values|] == x;
    assert forall i | 0 <= i < |values| :: (values + [x])[i] == values[i];
  }

  lemma TwoClients(values: seq<Evidence>, i: nat)
    requires i < |values|
    requires (ClaudeName(values[i].name) && Mentions(values[..i], CodexName)) ||
             (CodexName(values[i].name) && Mentions(values[..i], ClaudeName))
    ensures Mentions(values, CodexName) && Mentions(values, ClaudeName)
  {
    if ClaudeName(values[i].name) {
      var j :| 0 <= j < |values[..i]| && CodexName(values[..i][j].name);
      assert CodexName(values[j].name);
    } else {
      var j :| 0 <= j < |values[..i]| && ClaudeName(values[..i][j].name);
      assert ClaudeName(values[j].name);
    }
  }

  lemma FreshName(values: seq<Evidence>, i: nat)
    requires NamesAscend(values) && i < |values|
    ensures forall j | 0 <= j < i :: values[j].name != values[i].name
  {
    forall j | 0 <= j < i ensures values[j].name != values[i].name {
      LessTrichotomy(values[j].name, values[i].name);
    }
  }
}
