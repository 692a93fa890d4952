/** Joining Responses exchanges with Codex rollouts: lookup targets, turn matching and batch resolution. */
module CodexResolver {
  import opened Wrappers
  import opened Strings
  import opened IdentityEvidence
  import opened ProtocolIdentity
  import opened CodexRollout

  datatype ClientLookup = ClientLookup(
    responseId: string, observedAt: int, request: seq<Evidence>, response: seq<Evidence>)

  /** What one exchange must join on. */
  datatype Target = Target(
    sessionId: string, threadId: string, turnId: string, previousResponseId: string,
    items: set<string>, calls: set<string>)

  // ---------- Targets ----------

  datatype OutputName = TurnName | ItemName | CallName | OtherName

  predicate EndsWith(s: string, suffix: string) {
    |suffix| <= |s| && s[|s| - |suffix|..] == suffix
  }

  function Classify(name: string): OutputName {
    if !("openai_responses.output." <= name) then OtherName
    else if EndsWith(name, ".metadata.turn_id") ||
      EndsWith(name, ".internal_chat_message_metadata_passthrough.turn_id") then TurnName
    else if EndsWith(name, ".id") then ItemName
    else if EndsWith(name, ".call_id") then CallName
    else OtherName
  }

  function ValuesOf(values: seq<Evidence>, kind: OutputName): set<string> {
    set x | x in values && Classify(x.name) == kind :: x.value
  }

  predicate ValidLookup(lookup: ClientLookup) {
    && ValidText(lookup.responseId, false) && lookup.observedAt != 0
    && ValidProtocolEvidence(lookup.request) && ValidProtocolEvidence(lookup.response)
  }

  /** All turns that an exchange names. */
  function NamedTurns(lookup: ClientLookup): set<string> {
    ValuesOf(lookup.response, TurnName) +
    if Lookup(lookup.request, OPENAI_TURN) == "" then {} else {Lookup(lookup.request, OPENAI_TURN)}
  }

  predicate OneTurn(lookup: ClientLookup) {
    forall t, u | t in NamedTurns(lookup) && u in NamedTurns(lookup) :: t == u
  }

  /** The target says exactly what the exchange says. */
  ghost predicate IsTarget(lookup: ClientLookup, t: Target) {
    && t.sessionId == Lookup(lookup.request, OPENAI_SESSION) && t.threadId == Lookup(lookup.request, OPENAI_THREAD)
    && t.previousResponseId == Lookup(lookup.request, OPENAI_PREVIOUS)
    && NamedTurns(lookup) == (if t.turnId == "" then {} else {t.turnId})
    && t.items == ValuesOf(lookup.response, ItemName) && t.calls == ValuesOf(lookup.response, CallName)
  }

  lemma TargetUnique(lookup: ClientLookup, t: Target, u: Target)
    requires IsTarget(lookup, t) && IsTarget(lookup, u)
    ensures t == u
  {
    hide Lookup, ValuesOf, NamedTurns;
    if t.turnId != "" { assert t.turnId in NamedTurns(lookup); }
    if u.turnId != "" { assert u.turnId in NamedTurns(lookup); }
  }

  /** A session or a thread alone does not identify one request. */
  predicate Usable(t: Target) {
    t.turnId != "" || t.items != {} || t.calls != {}
  }

  method BuildTarget(lookup: ClientLookup) returns (r: Option<Target>)
    requires ValidLookup(lookup)
    ensures r.Some? <==> OneTurn(lookup)
    ensures r.Some? ==> IsTarget(lookup, r.value)
  {
    hide Classify, Lookup, ValidText, ValidName, NamesAscend;
    var target := RequestFields(lookup.request);
    ghost var named := if target.turnId == "" then {} else {target.turnId};
    for i := 0 to |lookup.response|
      invariant target.items == ValuesOf(lookup.response[..i], ItemName)
      invariant target.calls == ValuesOf(lookup.response[..i], CallName)
      invariant ValuesOf(lookup.response[..i], TurnName) + named == if target.turnId == "" then {} else {target.turnId}
      invariant target.sessionId == Lookup(lookup.request, OPENAI_SESSION)
      invariant target.threadId == Lookup(lookup.request, OPENAI_THREAD)
      invariant target.previousResponseId == Lookup(lookup.request, OPENAI_PREVIOUS)
    {
      var value := lookup.response[i];
      assert value.value != "" by { assert ValidText(value.value, false); NotEmpty(value.value); }
      assert lookup.response[..i + 1] == lookup.response[..i] + [value];
      ValuesExtend(lookup.response[..i], value);
      match Classify(value.name)
      case TurnName =>
        if target.turnId != "" && target.turnId != value.value {
          TwoTurns(lookup, i, target.turnId, named);
          return None;
        }
        target := target.(turnId := value.value);
      case ItemName => target := target.(items := target.items + {value.value});
      case CallName => target := target.(calls := target.calls + {value.value});
      case OtherName =>
    }
    assert lookup.response[..|lookup.response|] == lookup.response;
    return Some(target);
  }

  lemma NotEmpty(s: string)
    requires ValidText(s, false)
    ensures s != ""
  {
  }

  lemma ValuesExtend(values: seq<Evidence>, x: Evidence)
    ensures forall kind :: ValuesOf(values + [x], kind) == ValuesOf(values, kind) + Contributes(x, kind)
  {
    hide Classify;
    assert x in values + [x];
    forall kind ensures ValuesOf(values + [x], kind) == ValuesOf(values, kind) + Contributes(x, kind) {
      forall v | v in ValuesOf(values, kind) ensures v in ValuesOf(values + [x], kind) {
        var y :| y in values && Classify(y.name) == kind && y.value == v;
        assert y in values + [x];
      }
    }
  }

  function Contributes(x: Evidence, kind: OutputName): set<string> {
    if Classify(x.name) == kind then {x.value} else {}
  }

  lemma TwoTurns(lookup: ClientLookup, i: nat, turnId: string, named: set<string>)
    requires i < |lookup.response| && Classify(lookup.response[i].name) == TurnName
    requires named == (if Lookup(lookup.request, OPENAI_TURN) == "" then {} else {Lookup(lookup.request, OPENAI_TURN)})
    requires turnId in ValuesOf(lookup.response[..i], TurnName) + named && turnId != lookup.response[i].value
    ensures !OneTurn(lookup)
  {
    hide Classify, Lookup;
    assert lookup.response[i] in lookup.response;
    assert turnId in NamedTurns(lookup) && lookup.response[i].value in NamedTurns(lookup);
  }

  /** The identifiers that the request itself names. */
  method RequestFields(values: seq<Evidence>) returns (t: Target)
    ensures t == Fields(values)
  {
    t := Target("", "", "", "", {}, {});
    for i := 0 to |values|
      invariant t == Fields(values[..i])
    {
      assert values[..i + 1][..i] == values[..i];
      NamesApart();
      if values[i].name == OPENAI_SESSION { t := t.(sessionId := values[i].value); }
      else if values[i].name == OPENAI_THREAD { t := t.(threadId := values[i].value); }
      else if values[i].name == OPENAI_TURN { t := t.(turnId := values[i].value); }
      else if values[i].name == OPENAI_PREVIOUS { t := t.(previousResponseId := values[i].value); }
    }
    assert values[..|values|] == values;
  }

  function Fields(values: seq<Evidence>): Target {
    Target(Lookup(values, OPENAI_SESSION), Lookup(values, OPENAI_THREAD), Lookup(values, OPENAI_TURN),
           Lookup(values, OPENAI_PREVIOUS), {}, {})
  }

  lemma NamesApart()
    ensures OPENAI_SESSION != OPENAI_THREAD && OPENAI_SESSION != OPENAI_TURN && OPENAI_SESSION != OPENAI_PREVIOUS
    ensures OPENAI_THREAD != OPENAI_TURN && OPENAI_THREAD != OPENAI_PREVIOUS && OPENAI_TURN != OPENAI_PREVIOUS
  {
  }

  // ---------- Targets, written out ----------

  predicate Outputs(x: Evidence, suffix: string) {
    "openai_responses.output." <= x.name && EndsWith(x.name, suffix)
  }

  predicate OutputsTurn(x: Evidence) {
    Outputs(x, ".metadata.turn_id") || Outputs(x, ".internal_chat_message_metadata_passthrough.turn_id")
  }

  lemma SuffixChar(s: string, suffix: string, n: nat)
    requires EndsWith(s, suffix) && 0 < n <= |suffix|
    ensures s[|s| - n] == suffix[|suffix| - n]
  {
    assert s[|s| - |suffix|..][|suffix| - n] == s[|s| - n];
  }

  /** No name ends in two of the suffixes of different kinds, so their order does not matter. */
  lemma ClassifySays(x: Evidence)
    ensures Classify(x.name) == TurnName <==> OutputsTurn(x)
    ensures Classify(x.name) == ItemName <==> Outputs(x, ".id")
    ensures Classify(x.name) == CallName <==> Outputs(x, ".call_id")
  {
    hide EndsWith;
    var first, second := ".metadata.turn_id", ".internal_chat_message_metadata_passthrough.turn_id";
    assert first[|first| - 4] == 'n' && second[|second| - 4] == 'n' && ".call_id"[4] == 'l';
    assert first[|first| - 3] == '_' && second[|second| - 3] == '_' && ".call_id"[5] == '_';
    if EndsWith(x.name, first) { SuffixChar(x.name, first, 3); SuffixChar(x.name, first, 4); }
    if EndsWith(x.name, second) { SuffixChar(x.name, second, 3); SuffixChar(x.name, second, 4); }
    if EndsWith(x.name, ".id") { SuffixChar(x.name, ".id", 3); }
    if EndsWith(x.name, ".call_id") { SuffixChar(x.name, ".call_id", 3); SuffixChar(x.name, ".call_id", 4); }
  }

  ghost predicate SomeOutput(lookup: ClientLookup, value: string, suffix: string) {
    exists x | x in lookup.response :: x.value == value && Outputs(x, suffix)
  }

  ghost predicate SomeTurn(lookup: ClientLookup, value: string) {
    || Evidence("openai_responses.turn_id", value) in lookup.request
    || exists x | x in lookup.response :: x.value == value && OutputsTurn(x)
  }

  /** What an exchange says about itself, in the names of its evidence. */
  ghost predicate TargetSays(lookup: ClientLookup, t: Target) {
    && Reads(lookup.request, "openai_responses.session_id", t.sessionId)
    && Reads(lookup.request, "openai_responses.thread_id", t.threadId)
    && Reads(lookup.request, "openai_responses.previous_response_id", t.previousResponseId)
    && (forall v :: v in t.items <==> SomeOutput(lookup, v, ".id"))
    && (forall v :: v in t.calls <==> SomeOutput(lookup, v, ".call_id"))
    && forall v | v != "" :: v == t.turnId <==> SomeTurn(lookup, v)
  }

  lemma TargetMeans(lookup: ClientLookup, t: Target)
    requires ValidLookup(lookup) && IsTarget(lookup, t)
    ensures TargetSays(lookup, t)
  {
    hide ValidText, ValidName, Classify, Outputs, OutputsTurn, Lookup, Reads, ValidProtocolEvidence;
    LookupReads(lookup.request, OPENAI_SESSION);
    LookupReads(lookup.request, OPENAI_THREAD);
    LookupReads(lookup.request, OPENAI_TURN);
    LookupReads(lookup.request, OPENAI_PREVIOUS);
    forall x: Evidence
      ensures Classify(x.name) == TurnName <==> OutputsTurn(x)
      ensures Classify(x.name) == ItemName <==> Outputs(x, ".id")
      ensures Classify(x.name) == CallName <==> Outputs(x, ".call_id")
    {
      ClassifySays(x);
    }
    TurnMeans(lookup, t);
  }

  lemma TurnMeans(lookup: ClientLookup, t: Target)
    requires ValidLookup(lookup) && IsTarget(lookup, t)
    ensures forall v | v != "" :: v == t.turnId <==> SomeTurn(lookup, v)
  {
    hide ValidText, ValidName, Classify, OutputsTurn, Lookup, ValidProtocolEvidence;
    LookupReads(lookup.request, OPENAI_TURN);
    forall x: Evidence ensures Classify(x.name) == TurnName <==> OutputsTurn(x) { ClassifySays(x); }
    forall v | v != "" ensures v == t.turnId <==> SomeTurn(lookup, v) {
      assert v in NamedTurns(lookup) <==> v == t.turnId;
      assert v in ValuesOf(lookup.response, TurnName) <==> exists x | x in lookup.response ::
        x.value == v && OutputsTurn(x);
    }
  }

  /** The exchange names a turn, an item or a call. */
  ghost predicate Identifies(lookup: ClientLookup) {
    exists v | v != "" :: SomeTurn(lookup, v) || SomeOutput(lookup, v, ".id") || SomeOutput(lookup, v, ".call_id")
  }

  lemma UsableMeans(lookup: ClientLookup, t: Target)
    requires ValidLookup(lookup) && IsTarget(lookup, t)
    ensures Usable(t) <==> Identifies(lookup)
  {
    hide ValidText, ValidName, Classify, Lookup, ValidProtocolEvidence, SomeOutput, SomeTurn, Reads;
    TargetMeans(lookup, t);
    LookupReads(lookup.response, "");
    if t.turnId != "" { assert SomeTurn(lookup, t.turnId); }
    forall v | v in t.items || v in t.calls ensures v != "" {
      assert SomeOutput(lookup, v, ".id") || SomeOutput(lookup, v, ".call_id");
      SomeValue(lookup, v);
    }
    if v :| v in t.items { assert SomeOutput(lookup, v, ".id"); }
    if v :| v in t.calls { assert SomeOutput(lookup, v, ".call_id"); }
  }

  lemma SomeValue(lookup: ClientLookup, v: string)
    requires forall x | x in lookup.response :: x.value != ""
    requires SomeOutput(lookup, v, ".id") || SomeOutput(lookup, v, ".call_id")
    ensures v != ""
  {
    hide Outputs;
  }

  // ---------- All targets of a batch ----------

  datatype Targets = Targets(byResponseId: map<string, Target>, turns: set<string>, items: set<string>,
    calls: set<string>)

  function FilterOf(targets: Targets): Filter {
    Wanted(targets.turns, targets.items, targets.calls)
  }

  /** Some lookup of this response has this target. */
  ghost predicate Sourced(lookups: seq<ClientLookup>, id: string, t: Target) {
    exists i | 0 <= i < |lookups| :: lookups[i].responseId == id && IsTarget(lookups[i], t)
  }

  /** Valid lookups of one turn each that do not contradict each other about any response. */
  ghost predicate Coherent(lookups: seq<ClientLookup>) {
    && (forall i | 0 <= i < |lookups| :: ValidLookup(lookups[i]) && OneTurn(lookups[i]))
    && forall id, t, u | Sourced(lookups, id, t) && Sourced(lookups, id, u) && Usable(t) && Usable(u) :: t == u
  }

  /** Every usable target of the lookups and nothing else. */
  ghost predicate Tabulates(lookups: seq<ClientLookup>, table: map<string, Target>) {
    && (forall id | id in table :: Usable(table[id]) && Sourced(lookups, id, table[id]))
    && forall id, t | Sourced(lookups, id, t) && Usable(t) :: id in table && table[id] == t
  }

  ghost predicate Covers(targets: Targets, t: Target) {
    (t.turnId != "" ==> t.turnId in targets.turns) && t.items <= targets.items && t.calls <= targets.calls
  }

  /** The prefilter sets hold what some target names, and all of it. */
  ghost predicate Covered(targets: Targets) {
    && (forall id | id in targets.byResponseId :: Covers(targets, targets.byResponseId[id]))
    && (forall v | v in targets.turns :: exists id | id in targets.byResponseId ::
      targets.byResponseId[id].turnId == v && v != "")
    && (forall v | v in targets.items :: exists id | id in targets.byResponseId :: v in targets.byResponseId[id].items)
    && (forall v | v in targets.calls :: exists id | id in targets.byResponseId :: v in targets.byResponseId[id].calls)
  }

  method LookupTargets(lookups: seq<ClientLookup>) returns (r: Option<Targets>)
    ensures r.Some? <==> Coherent(lookups)
    ensures r.Some? ==> Tabulates(lookups, r.value.byResponseId) && Covered(r.value)
  {
    hide ValidLookup, OneTurn, IsTarget, Tabulates, Covered, Coherent;
    var targets := Targets(map[], {}, {}, {});
    NoLookups(targets);
    for i := 0 to |lookups|
      invariant Tabulates(lookups[..i], targets.byResponseId) && Covered(targets)
      invariant Coherent(lookups[..i])
    {
      var lookup := lookups[i];
      assert lookups[..i + 1] == lookups[..i] + [lookup];
      if !ValidLookup(lookup) {
        Incoherent(lookups, i);
        return None;
      }
      var built := BuildTarget(lookup);
      if built.None? {
        Incoherent(lookups, i);
        return None;
      }
      var target := built.value;
      if !Usable(target) {
        AddUnusable(lookups[..i], lookup, target, targets.byResponseId);
      } else if lookup.responseId in targets.byResponseId {
        if targets.byResponseId[lookup.responseId] != target {
          Contradicted(lookups, i, target, targets.byResponseId);
          return None;
        }
        AddRepeated(lookups[..i], lookup, target, targets.byResponseId);
      } else {
        AddFresh(lookups[..i], lookup, target, targets.byResponseId);
        IndexFresh(targets, lookup.responseId, target);
        targets := Targets(
          targets.byResponseId[lookup.responseId := target],
          targets.turns + (if target.turnId != "" then {target.turnId} else {}),
          targets.items + target.items, targets.calls + target.calls);
      }
    }
    assert lookups[..|lookups|] == lookups;
    return Some(targets);
  }

  lemma NoLookups(targets: Targets)
    requires targets == Targets(map[], {}, {}, {})
    ensures Tabulates([], targets.byResponseId) && Covered(targets) && Coherent([])
  {
  }

  lemma Incoherent(lookups: seq<ClientLookup>, i: nat)
    requires i < |lookups| && !(ValidLookup(lookups[i]) && OneTurn(lookups[i]))
    ensures !Coherent(lookups)
  {
    hide ValidLookup, OneTurn;
  }

  lemma Contradicted(lookups: seq<ClientLookup>, i: nat, t: Target, table: map<string, Target>)
    requires i < |lookups| && IsTarget(lookups[i], t) && Usable(t) && Tabulates(lookups[..i], table)
    requires lookups[i].responseId in table && table[lookups[i].responseId] != t
    ensures !Coherent(lookups)
  {
    hide ValidLookup, OneTurn, IsTarget;
    var id := lookups[i].responseId;
    var j :| 0 <= j < i && lookups[..i][j].responseId == id && IsTarget(lookups[..i][j], table[id]);
    assert lookups[j].responseId == id && IsTarget(lookups[j], table[id]);
    assert Sourced(lookups, id, table[id]) && Sourced(lookups, id, t);
  }

  lemma SourcedExtend(lookups: seq<ClientLookup>, lookup: ClientLookup, id: string, t: Target)
    ensures Sourced(lookups + [lookup], id, t) <==>
      Sourced(lookups, id, t) || (lookup.responseId == id && IsTarget(lookup, t))
  {
    hide IsTarget;
    var more := lookups + [lookup];
    if Sourced(lookups, id, t) {
      var i :| 0 <= i < |lookups| && lookups[i].responseId == id && IsTarget(lookups[i], t);
      assert more[i].responseId == id && IsTarget(more[i], t);
    }
    if lookup.responseId == id && IsTarget(lookup, t) { assert more[|lookups|] == lookup; }
  }

  /** Tabulated lookups are coherent when each is valid. */
  lemma TabulatedCoherent(lookups: seq<ClientLookup>, table: map<string, Target>)
    requires Tabulates(lookups, table)
    requires forall i | 0 <= i < |lookups| :: ValidLookup(lookups[i]) && OneTurn(lookups[i])
    ensures Coherent(lookups)
  {
    hide ValidLookup, OneTurn, Sourced;
  }

  lemma AddUnusable(lookups: seq<ClientLookup>, lookup: ClientLookup, t: Target, table: map<string, Target>)
    requires Tabulates(lookups, table) && Coherent(lookups) && ValidLookup(lookup) && OneTurn(lookup)
    requires IsTarget(lookup, t) && !Usable(t)
    ensures Tabulates(lookups + [lookup], table) && Coherent(lookups + [lookup])
  {
    hide ValidLookup, OneTurn, IsTarget, Sourced;
    forall id, u ensures Sourced(lookups + [lookup], id, u) && Usable(u) ==> Sourced(lookups, id, u)
    {
      SourcedExtend(lookups, lookup, id, u);
      if IsTarget(lookup, u) { TargetUnique(lookup, t, u); }
    }
    forall id | id in table ensures Sourced(lookups + [lookup], id, table[id]) {
      SourcedExtend(lookups, lookup, id, table[id]);
    }
    TabulatedCoherent(lookups + [lookup], table);
  }

  lemma AddRepeated(lookups: seq<ClientLookup>, lookup: ClientLookup, t: Target, table: map<string, Target>)
    requires Tabulates(lookups, table) && Coherent(lookups) && ValidLookup(lookup) && OneTurn(lookup)
    requires IsTarget(lookup, t) && lookup.responseId in table && table[lookup.responseId] == t
    ensures Tabulates(lookups + [lookup], table) && Coherent(lookups + [lookup])
  {
    hide ValidLookup, OneTurn, IsTarget, Sourced;
    forall id, u ensures Sourced(lookups + [lookup], id, u) && Usable(u) ==> id in table && table[id] == u
    {
      SourcedExtend(lookups, lookup, id, u);
      if IsTarget(lookup, u) { TargetUnique(lookup, t, u); }
    }
    forall id | id in table ensures Sourced(lookups + [lookup], id, table[id]) {
      SourcedExtend(lookups, lookup, id, table[id]);
    }
    TabulatedCoherent(lookups + [lookup], table);
  }

  lemma AddFresh(lookups: seq<ClientLookup>, lookup: ClientLookup, t: Target, table: map<string, Target>)
    requires Tabulates(lookups, table) && Coherent(lookups) && ValidLookup(lookup) && OneTurn(lookup)
    requires IsTarget(lookup, t) && Usable(t) && lookup.responseId !in table
    ensures Tabulates(lookups + [lookup], table[lookup.responseId := t]) && Coherent(lookups + [lookup])
  {
    hide ValidLookup, OneTurn, IsTarget, Sourced;
    var table' := table[lookup.responseId := t];
    forall id, u ensures Sourced(lookups + [lookup], id, u) && Usable(u) ==> id in table' && table'[id] == u
    {
      SourcedExtend(lookups, lookup, id, u);
      if IsTarget(lookup, u) { TargetUnique(lookup, t, u); }
    }
    forall id | id in table' ensures Usable(table'[id]) && Sourced(lookups + [lookup], id, table'[id]) {
      SourcedExtend(lookups, lookup, id, table'[id]);
    }
    TabulatedCoherent(lookups + [lookup], table');
  }

  lemma IndexFresh(targets: Targets, id: string, t: Target)
    requires Covered(targets) && id !in targets.byResponseId
    ensures Covered(Targets(
      targets.byResponseId[id := t], targets.turns + (if t.turnId != "" then {t.turnId} else {}),
      targets.items + t.items, targets.calls + t.calls))
  {
    var more := targets.byResponseId[id := t];
    assert more[id] == t;
    forall i | i in targets.byResponseId ensures i in more && more[i] == targets.byResponseId[i] {}
  }

  lemma TargetOfOne(lookup: ClientLookup) returns (t: Target)
    requires ValidLookup(lookup) && OneTurn(lookup)
    ensures IsTarget(lookup, t)
  {
    LookupReads(lookup.response, "");
    assert forall v | v in NamedTurns(lookup) :: v != "";
    hide Lookup, ValuesOf, ValidLookup;
    var turns := NamedTurns(lookup);
    var turnId := "";
    if v :| v in turns && v != "" { turnId := v; }
    t := Target(Lookup(lookup.request, OPENAI_SESSION), Lookup(lookup.request, OPENAI_THREAD), turnId,
      Lookup(lookup.request, OPENAI_PREVIOUS), ValuesOf(lookup.response, ItemName),
      ValuesOf(lookup.response, CallName));
  }

  /** The table of coherent lookups has an entry for exactly the responses whose exchange names a turn, an item or a
      call, and the entry says what every such exchange of the response says. */
  lemma TableSays(lookups: seq<ClientLookup>, table: map<string, Target>)
    requires Coherent(lookups) && Tabulates(lookups, table)
    ensures forall id :: id in table <==> exists i | 0 <= i < |lookups| ::
      lookups[i].responseId == id && Identifies(lookups[i])
    ensures forall i | 0 <= i < |lookups| && Identifies(lookups[i]) ::
      TargetSays(lookups[i], table[lookups[i].responseId])
  {
    hide IsTarget, ValidLookup, OneTurn, Usable, Identifies, TargetSays;
    forall i | 0 <= i < |lookups| && Identifies(lookups[i])
      ensures lookups[i].responseId in table && TargetSays(lookups[i], table[lookups[i].responseId])
    {
      var t := TargetOfOne(lookups[i]);
      UsableMeans(lookups[i], t);
      TargetMeans(lookups[i], t);
      assert Sourced(lookups, lookups[i].responseId, t);
    }
    forall id | id in table
      ensures exists i | 0 <= i < |lookups| :: lookups[i].responseId == id && Identifies(lookups[i])
    {
      assert Sourced(lookups, id, table[id]);
      var i :| 0 <= i < |lookups| && lookups[i].responseId == id && IsTarget(lookups[i], table[id]);
      UsableMeans(lookups[i], table[id]);
    }
  }

  // ---------- Matching one rollout ----------

  predicate Agrees(t: Target, meta: Meta) {
    (t.sessionId == "" || t.sessionId == meta.sessionId) && (t.threadId == "" || t.threadId == meta.threadId)
  }

  /** Whether a rollout's metadata could match any target. */
  predicate MayMatchAny(targets: Targets, meta: Meta) {
    exists id | id in targets.byResponseId :: Agrees(targets.byResponseId[id], meta)
  }

  method MayMatch(targets: Targets, meta: Meta) returns (may: bool)
    ensures may == MayMatchAny(targets, meta)
  {
    var rest := targets.byResponseId.Keys;
    while rest != {}
      invariant rest <= targets.byResponseId.Keys
      invariant forall id | id in targets.byResponseId && id !in rest :: !Agrees(targets.byResponseId[id], meta)
      decreases |rest|
    {
      var id :| id in rest;
      rest := rest - {id};
      var target := targets.byResponseId[id];
      if target.sessionId != "" && target.sessionId != meta.sessionId { continue; }
      if target.threadId != "" && target.threadId != meta.threadId { continue; }
      return true;
    }
    return false;
  }

  predicate Joins(t: Target, turns: Turns, id: string) {
    && id in turns
    && if t.turnId != "" then id == t.turnId
       else turns[id].items * t.items != {} || turns[id].calls * t.calls != {}
  }

  /** The rollout holds this turn of the exchange. */
  predicate Matches(t: Target, r: Rollout, id: string) {
    Agrees(t, r.meta) && Joins(t, r.turns, id)
  }

  datatype Match = NoMatch | Matched(turnId: string) | AmbiguousTurn

  /** The one matching turn, if there is one and only one. */
  ghost function MatchOf(t: Target, r: Rollout): (m: Match)
    ensures m.NoMatch? <==> forall id :: !Matches(t, r, id)
    ensures m.Matched? ==> forall id :: Matches(t, r, id) <==> id == m.turnId
    ensures m.AmbiguousTurn? <==> exists id, other :: Matches(t, r, id) && Matches(t, r, other) && id != other
  {
    if exists id :: Matches(t, r, id) then
      var id :| Matches(t, r, id);
      if exists other :: Matches(t, r, other) && other != id then AmbiguousTurn else Matched(id)
    else NoMatch
  }

  /** Visits the turns in any order. */
  method MatchedTurn(t: Target, r: Rollout) returns (m: Match)
    requires "" !in r.turns
    ensures m == MatchOf(t, r)
  {
    if t.sessionId != "" && t.sessionId != r.meta.sessionId { return NoMatch; }
    if t.threadId != "" && t.threadId != r.meta.threadId { return NoMatch; }
    if t.turnId != "" {
      if t.turnId in r.turns {
        assert Matches(t, r, t.turnId);
        return Matched(t.turnId);
      }
      return NoMatch;
    }
    var found := "";
    var rest := r.turns.Keys;
    while rest != {}
      invariant rest <= r.turns.Keys
      invariant forall id | id in r.turns && id !in rest && Matches(t, r, id) :: id == found
      invariant found != "" ==> Matches(t, r, found)
      decreases |rest|
    {
      var id :| id in rest;
      rest := rest - {id};
      if r.turns[id].items * t.items == {} && r.turns[id].calls * t.calls == {} { continue; }
      assert Matches(t, r, id);
      if found != "" && found != id { return AmbiguousTurn; }
      found := id;
    }
    if found == "" { return NoMatch; }
    return Matched(found);
  }

  /** The filtered evidence matches the same turns as the full evidence. */
  lemma FilterKeepsMatch(targets: Targets, t: Target, full: Rollout, part: Rollout)
    requires Covers(targets, t) && full.meta == part.meta && Keeps(FilterOf(targets), full.turns, part.turns)
    ensures MatchOf(t, full) == MatchOf(t, part)
  {
    hide MatchOf;
    forall id ensures Matches(t, full, id) <==> Matches(t, part, id) {
      hide MatchOf;
      assert KeepsTurn(FilterOf(targets), full.turns, part.turns, id);
      if Matches(t, full, id) && t.turnId == "" {
        if x :| x in full.turns[id].items * t.items { assert x in part.turns[id].items * t.items; }
        if x :| x in full.turns[id].calls * t.calls { assert x in part.turns[id].calls * t.calls; }
      }
      if Matches(t, part, id) && t.turnId == "" {
        if x :| x in part.turns[id].items * t.items { assert x in full.turns[id].items * t.items; }
        if x :| x in part.turns[id].calls * t.calls { assert x in full.turns[id].calls * t.calls; }
      }
    }
    if MatchOf(t, full).Matched? { assert Matches(t, full, MatchOf(t, full).turnId); }
    if MatchOf(t, part).Matched? { assert Matches(t, part, MatchOf(t, part).turnId); }
  }
}
