/** Merging exact client identity evidence for one exchange: a partial join. */
module ClientIdentity {
  import opened Wrappers
  import opened Strings
  import opened IdentityEvidence
  import opened FiniteSets

  /** The client kinds; only Claude and Codex identities are supported. */
  datatype Client = NoClient | Claude | Codex | OtherClient(name: string)

  datatype Source = LocalState | ProtocolEvidence | UnknownSource

  /** Times are nanoseconds since Go's zero time. */
  datatype Identity = Identity(
    client: Client, sessionId: string, sessionResumable: bool,
    actorId: string, actorLabel: string, actorType: string, actorIsSubagent: bool,
    providerResponseId: string, providerMessageId: string,
    source: Source, exact: bool, observedAt: int,
    protocolIds: seq<Evidence>, attributes: seq<Evidence>)

  const NANOS_PER_MILLI := 1_000_000

  function Normalize(i: Identity): Identity {
    i.(observedAt := i.observedAt - i.observedAt % NANOS_PER_MILLI)
  }

  predicate ValidScalars(i: Identity) {
    && ValidText(i.sessionId, false)
    && ValidText(i.actorId, true) && ValidText(i.actorLabel, true) && ValidText(i.actorType, true)
    && ValidText(i.providerResponseId, i.source == ProtocolEvidence) && ValidText(i.providerMessageId, true)
    && !i.source.UnknownSource? && i.exact && i.observedAt != 0
    && (i.client.Claude? || i.client.Codex?)
    && (i.actorId == "" ==> i.actorLabel == "" && i.actorType == "" && !i.actorIsSubagent)
  }

  predicate Valid(i: Identity) {
    ValidScalars(i) && Canonical(i.protocolIds, false) && Canonical(i.attributes, true)
  }

  /** No association name of its protocol IDs carries two values; validation alone does not demand this. */
  ghost predicate SelfConsistent(i: Identity) {
    Consistent(Elements(i.protocolIds), false)
  }

  // ---------- The information order ----------

  predicate OptionalLeq(a: string, b: string) {
    a == "" || a == b
  }

  ghost predicate ScalarsLeq(a: Identity, b: Identity) {
    && a.client == b.client && a.sessionId == b.sessionId && a.sessionResumable == b.sessionResumable
    && a.actorId == b.actorId && a.exact == b.exact
    && (a.actorIsSubagent ==> b.actorIsSubagent)
    && OptionalLeq(a.actorLabel, b.actorLabel) && OptionalLeq(a.actorType, b.actorType)
    && OptionalLeq(a.providerResponseId, b.providerResponseId)
    && OptionalLeq(a.providerMessageId, b.providerMessageId)
    && (a.source == LocalState ==> b.source == LocalState)
    && b.observedAt <= a.observedAt
  }

  /** b holds all the evidence of a for the same session and actor, and was seen no later. */
  ghost predicate Leq(a: Identity, b: Identity) {
    && ScalarsLeq(a, b)
    && Elements(a.protocolIds) <= Elements(b.protocolIds)
    && Elements(a.attributes) <= Elements(b.attributes)
  }

  lemma LeqTransitive(a: Identity, b: Identity, c: Identity)
    requires Leq(a, b) && Leq(b, c)
    ensures Leq(a, c)
  {
  }

  lemma LeqAntisymmetric(a: Identity, b: Identity)
    requires Valid(a) && Valid(b) && Leq(a, b) && Leq(b, a)
    ensures a == b
  {
    hide ValidText, ValidName, Before;
    SortedUnique(a.protocolIds, b.protocolIds);
    SortedUnique(a.attributes, b.attributes);
  }

  /** c is a legal identity that both a and b can deepen into. */
  ghost predicate UpperBound(a: Identity, b: Identity, c: Identity) {
    Valid(c) && SelfConsistent(c) && Leq(a, c) && Leq(b, c)
  }

  // ---------- The merge ----------

  predicate Associated(a: Identity, b: Identity) {
    a.client == b.client && a.sessionId == b.sessionId && a.sessionResumable == b.sessionResumable &&
      a.actorId == b.actorId
  }

  function MergeOptional(existing: string, incoming: string): (r: Option<string>)
    ensures r.Some? <==> OptionalLeq(existing, incoming) || OptionalLeq(incoming, existing)
    ensures r.Some? ==> OptionalLeq(existing, r.value) && OptionalLeq(incoming, r.value)
    ensures r.Some? ==> forall s :: OptionalLeq(existing, s) && OptionalLeq(incoming, s) ==> OptionalLeq(r.value, s)
  {
    if existing == "" then Some(incoming)
    else if incoming == "" || incoming == existing then Some(existing)
    else None
  }

  predicate OptionalsAgree(a: Identity, b: Identity) {
    && MergeOptional(a.actorLabel, b.actorLabel).Some? && MergeOptional(a.actorType, b.actorType).Some?
    && MergeOptional(a.providerResponseId, b.providerResponseId).Some?
    && MergeOptional(a.providerMessageId, b.providerMessageId).Some?
  }

  ghost predicate Compatible(a: Identity, b: Identity) {
    && Associated(a, b) && OptionalsAgree(a, b)
    && Consistent(Elements(a.protocolIds) + Elements(b.protocolIds), false)
    && Consistent(Elements(a.attributes) + Elements(b.attributes), true)
  }

  function Combined(a: Identity, b: Identity): Identity
    requires OptionalsAgree(a, b) && Sorted(a.protocolIds) && Sorted(a.attributes)
  {
    a.(actorIsSubagent := a.actorIsSubagent || b.actorIsSubagent,
       actorLabel := MergeOptional(a.actorLabel, b.actorLabel).value,
       actorType := MergeOptional(a.actorType, b.actorType).value,
       providerResponseId := MergeOptional(a.providerResponseId, b.providerResponseId).value,
       providerMessageId := MergeOptional(a.providerMessageId, b.providerMessageId).value,
       protocolIds := Union(a.protocolIds, b.protocolIds),
       attributes := Union(a.attributes, b.attributes),
       source := if b.source == LocalState then LocalState else a.source,
       observedAt := if b.observedAt < a.observedAt then b.observedAt else a.observedAt)
  }

  /** What merging two raw observations yields. */
  ghost function Join(existing: Identity, incoming: Identity): Option<Identity> {
    var a, b := Normalize(existing), Normalize(incoming);
    if Valid(a) && Valid(b) && Compatible(a, b) && Valid(Combined(a, b)) then Some(Combined(a, b)) else None
  }

  datatype Merged = Merged(identity: Identity, changed: bool)

  /** Deepens the existing identity by the incoming one, and says whether that added anything. */
  method MergeClientIdentity(existing: Identity, incoming: Identity) returns (r: Option<Merged>)
    ensures r.Some? <==> Join(existing, incoming).Some?
    ensures r.Some? ==>
      && r.value.identity == Join(existing, incoming).value
      && (r.value.changed <==> !Leq(Normalize(incoming), Normalize(existing)))
  {
    hide Valid, Compatible, Combined, OptionalsAgree, Leq;
    var a, b := Normalize(existing), Normalize(incoming);
    if !Valid(a) || !Valid(b) || !Associated(a, b) || !OptionalsAgree(a, b) {
      NotCompatible(a, b);
      return None;
    }
    var merged := MergeFields(a, b);
    if merged.None? || !Valid(merged.value) { return None; }
    ChangedMeansMore(existing, incoming);
    r := Some(Merged(merged.value, merged.value != a));
  }

  lemma NotCompatible(a: Identity, b: Identity)
    ensures Compatible(a, b) ==> Associated(a, b) && OptionalsAgree(a, b)
  {
    hide OptionalsAgree, Associated;
  }

  /** The fields of two valid identities of one actor, unless their evidence conflicts. */
  method MergeFields(a: Identity, b: Identity) returns (r: Option<Identity>)
    requires Valid(a) && Associated(a, b) && OptionalsAgree(a, b)
    ensures r.Some? <==> Compatible(a, b)
    ensures Sorted(a.protocolIds) && Sorted(a.attributes)
    ensures r.Some? ==> r.value == Combined(a, b)
  {
    hide Valid, Before, Consistent, Union;
    CanonicalSorted(a);
    var protocolIds := Merge(a.protocolIds, b.protocolIds, false);
    if protocolIds.None? { return None; }
    var attributes := Merge(a.attributes, b.attributes, true);
    if attributes.None? { return None; }
    var merged := a.(
      actorIsSubagent := a.actorIsSubagent || b.actorIsSubagent,
      actorLabel := MergeOptional(a.actorLabel, b.actorLabel).value,
      actorType := MergeOptional(a.actorType, b.actorType).value,
      providerResponseId := MergeOptional(a.providerResponseId, b.providerResponseId).value,
      providerMessageId := MergeOptional(a.providerMessageId, b.providerMessageId).value,
      protocolIds := protocolIds.value, attributes := attributes.value);
    if b.source == LocalState {
      merged := merged.(source := LocalState);
    }
    if b.observedAt < merged.observedAt {
      merged := merged.(observedAt := b.observedAt);
    }
    r := Some(merged);
  }

  lemma CanonicalSorted(i: Identity)
    requires Valid(i)
    ensures Sorted(i.protocolIds) && Sorted(i.attributes)
  {
  }

  // ---------- Joins ----------

  lemma CombinedScalars(a: Identity, b: Identity)
    requires ValidScalars(a) && ValidScalars(b) && Associated(a, b) && OptionalsAgree(a, b)
    requires Sorted(a.protocolIds) && Sorted(a.attributes)
    ensures ValidScalars(Combined(a, b))
    ensures ScalarsLeq(a, Combined(a, b)) && ScalarsLeq(b, Combined(a, b))
  {
    hide ValidText, Union, Sorted;
    TextStrict(a.providerResponseId);
    TextStrict(b.providerResponseId);
  }

  lemma TextStrict(value: string)
    ensures ValidText(value, false) <==> value != "" && ValidText(value, true)
  {
  }

  lemma CombinedBelow(a: Identity, b: Identity, c: Identity)
    requires ValidScalars(a) && ValidScalars(b) && OptionalsAgree(a, b) && Sorted(a.protocolIds) && Sorted(a.attributes)
    requires Leq(a, c) && Leq(b, c)
    ensures Leq(Combined(a, b), c)
  {
    hide ValidText, Sorted;
  }

  lemma UnionWellFormed(a: seq<Evidence>, b: seq<Evidence>, singleNames: bool)
    requires Canonical(a, singleNames) && Canonical(b, singleNames)
    ensures forall x | x in Union(a, b) :: ValidName(x.name) && ValidText(x.value, false)
  {
    hide ValidText, ValidName, Before, Union, Sorted, UniqueNames;
    forall x | x in Union(a, b) ensures ValidName(x.name) && ValidText(x.value, false) {
      assert x in Elements(Union(a, b));
      assert x in a || x in b;
    }
  }

  lemma ConsistentUnique(values: seq<Evidence>)
    requires Sorted(values) && Consistent(Elements(values), true)
    ensures UniqueNames(values)
  {
    hide Before;
    forall i, j | 0 <= i < j < |values| ensures values[i].name != values[j].name {
      assert values[i] in Elements(values) && values[j] in Elements(values);
      BeforeTotal(values[i], values[j]);
    }
  }

  /** The union of two consistent canonical lists is canonical exactly when it is not too long. */
  lemma UnionCanonical(a: seq<Evidence>, b: seq<Evidence>, singleNames: bool)
    requires Canonical(a, singleNames) && Canonical(b, singleNames)
    requires Consistent(Elements(a) + Elements(b), singleNames)
    ensures Canonical(Union(a, b), singleNames) <==> |Elements(a) + Elements(b)| <= MAX_EVIDENCE
  {
    hide ValidText, ValidName, Sorted, UniqueNames, Consistent, Union;
    SortedSize(Union(a, b));
    UnionWellFormed(a, b, singleNames);
    if singleNames {
      ConsistentUnique(Union(a, b));
    }
  }

  lemma ConsistentSubset(a: set<Evidence>, b: set<Evidence>, singleNames: bool)
    requires a <= b && Consistent(b, singleNames)
    ensures Consistent(a, singleNames)
  {
  }

  lemma CanonicalConsistent(values: seq<Evidence>)
    requires Canonical(values, true)
    ensures Consistent(Elements(values), true)
  {
    hide ValidText, ValidName, Before;
    forall x, y | x in Elements(values) && y in Elements(values) && x.name == y.name ensures x == y {
      var i :| 0 <= i < |values| && values[i] == x;
      var j :| 0 <= j < |values| && values[j] == y;
    }
  }

  /** What is merged is legal, loses nothing, and is the least identity that does so. */
  lemma JoinIsLeastUpperBound(x: Identity, y: Identity, c: Identity)
    ensures var a, b := Normalize(x), Normalize(y);
      Join(x, y).Some? ==>
        && Valid(a) && Valid(b) && UpperBound(a, b, Join(x, y).value)
        && Normalize(Join(x, y).value) == Join(x, y).value
        && (Leq(a, c) && Leq(b, c) ==> Leq(Join(x, y).value, c))
  {
    hide ValidText, ValidName, Before, Canonical, Consistent, ValidScalars, ScalarsLeq, OptionalsAgree, Union;
    var a, b := Normalize(x), Normalize(y);
    if Join(x, y).Some? {
      CanonicalSorted(a);
      CombinedScalars(a, b);
      if Leq(a, c) && Leq(b, c) {
        CombinedBelow(a, b, c);
      }
    }
  }

  /** A common refinement makes the merge defined. */
  lemma RefinementJoins(x: Identity, y: Identity, c: Identity)
    requires Valid(Normalize(x)) && Valid(Normalize(y)) && UpperBound(Normalize(x), Normalize(y), c)
    ensures Join(x, y).Some?
  {
    var a, b := Normalize(x), Normalize(y);
    assert Associated(a, b) && OptionalsAgree(a, b);
    CanonicalSorted(a);
    CanonicalConsistent(c.attributes);
    CombinedScalars(a, b);
    UnionFits(a.protocolIds, b.protocolIds, c.protocolIds, false);
    UnionFits(a.attributes, b.attributes, c.attributes, true);
  }

  /** The merge is defined exactly when both observations are valid and some legal identity holds them. */
  lemma JoinDefined(x: Identity, y: Identity)
    ensures Join(x, y).Some? <==>
      Valid(Normalize(x)) && Valid(Normalize(y)) && exists c :: UpperBound(Normalize(x), Normalize(y), c)
  {
    hide Join, Valid, UpperBound;
    if Join(x, y).Some? {
      JoinIsLeastUpperBound(x, y, x);
    } else {
      forall c | Valid(Normalize(x)) && Valid(Normalize(y)) && UpperBound(Normalize(x), Normalize(y), c) ensures false {
        RefinementJoins(x, y, c);
      }
    }
  }

  lemma UnionFits(a: seq<Evidence>, b: seq<Evidence>, c: seq<Evidence>, singleNames: bool)
    requires Canonical(a, singleNames) && Canonical(b, singleNames) && Canonical(c, singleNames)
    requires Elements(a) <= Elements(c) && Elements(b) <= Elements(c) && Consistent(Elements(c), singleNames)
    ensures Consistent(Elements(a) + Elements(b), singleNames) && Canonical(Union(a, b), singleNames)
  {
    ConsistentSubset(Elements(a) + Elements(b), Elements(c), singleNames);
    UnionCanonical(a, b, singleNames);
    SubsetSize(Elements(a) + Elements(b), Elements(c));
    SortedSize(c);
  }

  /** An incoming identity adds something exactly when it is not already below the existing one. */
  lemma ChangedMeansMore(x: Identity, y: Identity)
    requires Join(x, y).Some?
    ensures Join(x, y).value == Normalize(x) <==> Leq(Normalize(y), Normalize(x))
  {
    hide Valid, ScalarsLeq;
    var a, b := Normalize(x), Normalize(y);
    JoinIsLeastUpperBound(x, y, a);
    LeqReflexive(a);
    if Leq(b, a) {
      LeqAntisymmetric(Join(x, y).value, a);
    }
  }

  lemma LeqReflexive(a: Identity)
    ensures Leq(a, a)
  {
  }

  lemma JoinCommutative(x: Identity, y: Identity)
    ensures Join(x, y) == Join(y, x)
  {
    hide Valid, Leq, Compatible, Combined;
    if Join(x, y).Some? { JoinSwaps(x, y); }
    if Join(y, x).Some? { JoinSwaps(y, x); }
  }

  lemma JoinSwaps(x: Identity, y: Identity)
    requires Join(x, y).Some?
    ensures Join(y, x) == Join(x, y)
  {
    hide Join, Valid, Leq, SelfConsistent;
    var m := Join(x, y).value;
    JoinIsLeastUpperBound(x, y, m);
    RefinementJoins(y, x, m);
    var n := Join(y, x).value;
    JoinIsLeastUpperBound(y, x, m);
    JoinIsLeastUpperBound(x, y, n);
    LeqAntisymmetric(m, n);
  }

  /** The merge lifted to outcomes: a failed merge fails whatever follows. */
  ghost function Lift(x: Option<Identity>, y: Option<Identity>): Option<Identity> {
    if x.Some? && y.Some? then Join(x.value, y.value) else None
  }

  lemma JoinAssociative(x: Identity, y: Identity, z: Identity)
    ensures Lift(Join(x, y), Some(z)) == Lift(Some(x), Join(y, z))
  {
    hide Join;
    if Lift(Join(x, y), Some(z)).Some? {
      JoinReassociates(x, y, z);
    } else if Lift(Some(x), Join(y, z)).Some? {
      JoinCommutative(y, z);
      JoinCommutative(x, Join(y, z).value);
      JoinReassociates(z, y, x);
      JoinCommutative(x, y);
      JoinCommutative(Join(y, x).value, z);
    }
  }

  lemma JoinReassociates(x: Identity, y: Identity, z: Identity)
    requires Lift(Join(x, y), Some(z)).Some?
    ensures Lift(Some(x), Join(y, z)) == Lift(Join(x, y), Some(z))
  {
    hide Join, Valid, Leq, SelfConsistent;
    var a, b, c := Normalize(x), Normalize(y), Normalize(z);
    var m := Join(x, y).value;
    var n := Join(m, z).value;
    JoinIsLeastUpperBound(x, y, n);
    JoinIsLeastUpperBound(m, z, n);
    LeqTransitive(a, m, n);
    LeqTransitive(b, m, n);
    RefinementJoins(y, z, n);
    var p := Join(y, z).value;
    JoinIsLeastUpperBound(y, z, n);
    RefinementJoins(x, p, n);
    var q := Join(x, p).value;
    JoinIsLeastUpperBound(x, p, n);
    LeqTransitive(b, p, q);
    LeqTransitive(c, p, q);
    JoinIsLeastUpperBound(x, y, q);
    JoinIsLeastUpperBound(m, z, q);
    LeqAntisymmetric(n, q);
  }

  /** Merging a valid identity with itself is defined exactly on self-consistent evidence, and changes nothing. */
  lemma JoinIdempotent(x: Identity)
    requires Valid(Normalize(x))
    ensures Join(x, x) == if SelfConsistent(Normalize(x)) then Some(Normalize(x)) else None
  {
    var a := Normalize(x);
    LeqReflexive(a);
    if SelfConsistent(a) {
      RefinementJoins(x, x, a);
      ChangedMeansMore(x, x);
    } else {
      assert Elements(a.protocolIds) + Elements(a.protocolIds) == Elements(a.protocolIds);
    }
  }

  // ---------- Written out ----------

  /** Text that is given at most once. */
  predicate GivenOnce(a: string, b: string) {
    a == b || a == "" || b == ""
  }

  ghost predicate OneValue(a: set<Evidence>, b: set<Evidence>, name: string) {
    forall v, w | Evidence(name, v) in a + b && Evidence(name, w) in a + b :: v == w
  }

  /** The seven names that identify an association. */
  ghost predicate OneAssociation(a: set<Evidence>, b: set<Evidence>) {
    && OneValue(a, b, "claude.session_id") && OneValue(a, b, "claude.agent_id")
    && OneValue(a, b, "claude.parent_agent_id") && OneValue(a, b, "codex.session_id")
    && OneValue(a, b, "codex.thread_id") && OneValue(a, b, "codex.parent_thread_id")
    && OneValue(a, b, "codex.forked_from_thread_id")
  }

  lemma NamedConsistent(a: set<Evidence>, b: set<Evidence>)
    ensures Consistent(a + b, false) <==> OneAssociation(a, b)
  {
    if OneAssociation(a, b) {
      forall x, y | x in a + b && y in a + b && x.name == y.name && Stable(x.name, false) ensures x.value == y.value {
        assert OneValue(a, b, x.name);
        assert x == Evidence(x.name, x.value) && y == Evidence(x.name, y.value);
      }
    }
    if Consistent(a + b, false) { ConsistentOne(a, b); }
  }

  lemma ConsistentOne(a: set<Evidence>, b: set<Evidence>)
    requires Consistent(a + b, false)
    ensures OneAssociation(a, b)
  {
    forall name | Stable(name, false) ensures OneValue(a, b, name) {
    }
  }

  lemma AttributesConsistent(a: set<Evidence>, b: set<Evidence>)
    ensures Consistent(a + b, true) <==> forall name :: OneValue(a, b, name)
  {
    if forall name :: OneValue(a, b, name) {
      forall x, y | x in a + b && y in a + b && x.name == y.name ensures x.value == y.value {
        assert OneValue(a, b, x.name);
        assert x == Evidence(x.name, x.value) && y == Evidence(x.name, y.value);
      }
    }
  }

  /** Two valid observations merge exactly when they are of one client, session and actor, give no label, type or
      provider identifier differently, no association name and no attribute has two values, and neither list becomes
      too long. */
  lemma JoinAccepts(x: Identity, y: Identity)
    requires Valid(Normalize(x)) && Valid(Normalize(y))
    ensures Join(x, y).Some? <==>
      && x.client == y.client && x.sessionId == y.sessionId && x.sessionResumable == y.sessionResumable
      && x.actorId == y.actorId && GivenOnce(x.actorLabel, y.actorLabel) && GivenOnce(x.actorType, y.actorType)
      && GivenOnce(x.providerResponseId, y.providerResponseId)
      && GivenOnce(x.providerMessageId, y.providerMessageId)
      && OneAssociation(Elements(x.protocolIds), Elements(y.protocolIds))
      && (forall name :: OneValue(Elements(x.attributes), Elements(y.attributes), name))
      && |Elements(x.protocolIds) + Elements(y.protocolIds)| <= 8192
      && |Elements(x.attributes) + Elements(y.attributes)| <= 8192
  {
    hide ValidScalars, Canonical, Consistent, OneAssociation, OneValue, Union;
    var a, b := Normalize(x), Normalize(y);
    NamedConsistent(Elements(a.protocolIds), Elements(b.protocolIds));
    AttributesConsistent(Elements(a.attributes), Elements(b.attributes));
    CanonicalSorted(a);
    if Compatible(a, b) {
      CombinedScalars(a, b);
      UnionCanonical(a.protocolIds, b.protocolIds, false);
      UnionCanonical(a.attributes, b.attributes, true);
    }
  }

  /** The first text, or the second where the first is missing. */
  predicate Either(a: string, b: string, value: string) {
    value == if a != "" then a else b
  }

  /** What a merge keeps, field by field. */
  lemma JoinSays(x: Identity, y: Identity)
    requires Join(x, y).Some?
    ensures
      var r := Join(x, y).value;
      && r.client == x.client && r.sessionId == x.sessionId && r.sessionResumable == x.sessionResumable
      && r.actorId == x.actorId && r.exact
      && (r.actorIsSubagent <==> x.actorIsSubagent || y.actorIsSubagent)
      && Either(x.actorLabel, y.actorLabel, r.actorLabel) && Either(x.actorType, y.actorType, r.actorType)
      && Either(x.providerResponseId, y.providerResponseId, r.providerResponseId)
      && Either(x.providerMessageId, y.providerMessageId, r.providerMessageId)
      && (r.source == LocalState <==> x.source == LocalState || y.source == LocalState)
      && (forall e :: e in r.protocolIds <==> e in x.protocolIds || e in y.protocolIds)
      && (forall e :: e in r.attributes <==> e in x.attributes || e in y.attributes)
      && r.observedAt % 1_000_000 == 0
      && (r.observedAt <= x.observedAt && r.observedAt <= y.observedAt)
      && (x.observedAt < r.observedAt + 1_000_000 || y.observedAt < r.observedAt + 1_000_000)
  {
    hide Canonical, Consistent, Union, ValidText;
    var a, b, r := Normalize(x), Normalize(y), Join(x, y).value;
    CanonicalSorted(a);
    assert Elements(r.protocolIds) == Elements(a.protocolIds) + Elements(b.protocolIds);
    assert Elements(r.attributes) == Elements(a.attributes) + Elements(b.attributes);
    ElementsSay(r.protocolIds, a.protocolIds, b.protocolIds);
    ElementsSay(r.attributes, a.attributes, b.attributes);
  }

  lemma ElementsSay(r: seq<Evidence>, a: seq<Evidence>, b: seq<Evidence>)
    requires Elements(r) == Elements(a) + Elements(b)
    ensures forall e :: e in r <==> e in a || e in b
  {
    forall e ensures e in r <==> e in a || e in b {
      assert e in r <==> e in Elements(r);
      assert e in a <==> e in Elements(a);
      assert e in b <==> e in Elements(b);
    }
  }

  // ---------- Any order of the same observations ----------

  /** Merging observations one after the other. */
  ghost function JoinAll(xs: seq<Identity>): Option<Identity>
    requires xs != []
  {
    if |xs| == 1 then Some(xs[0]) else Lift(JoinAll(xs[..|xs| - 1]), Some(xs[|xs| - 1]))
  }

  function Remove(xs: seq<Identity>, j: nat): seq<Identity>
    requires j < |xs|
  {
    xs[..j] + xs[j + 1..]
  }

  lemma LiftRightCommutes(f: Option<Identity>, y: Identity, z: Identity)
    ensures Lift(Lift(f, Some(y)), Some(z)) == Lift(Lift(f, Some(z)), Some(y))
  {
    hide Join;
    if f.Some? {
      JoinAssociative(f.value, y, z);
      JoinAssociative(f.value, z, y);
      JoinCommutative(y, z);
    }
  }

  /** Any observation may be merged last. */
  lemma {:induction false} JoinAllLast(xs: seq<Identity>, j: nat)
    requires |xs| >= 2 && j < |xs|
    ensures JoinAll(xs) == Lift(JoinAll(Remove(xs, j)), Some(xs[j]))
  {
    hide Join;
    var n := |xs| - 1;
    var last := xs[n];
    if j == n {
      assert Remove(xs, j) == xs[..n];
    } else if n == 1 {
      assert Remove(xs, 0) == [last] && xs[..1] == [xs[0]];
      JoinCommutative(xs[0], last);
    } else {
      JoinAllLast(xs[..n], j);
      assert Remove(xs, j)[..n - 1] == Remove(xs[..n], j) && Remove(xs, j)[n - 1] == last;
      LiftRightCommutes(JoinAll(Remove(xs[..n], j)), xs[j], last);
    }
  }

  /** Every order of the same observations yields the same identity, or fails. */
  lemma {:induction false} JoinAllPermutation(xs: seq<Identity>, ys: seq<Identity>)
    requires xs != [] && multiset(xs) == multiset(ys)
    ensures ys != [] && JoinAll(xs) == JoinAll(ys)
    decreases |xs|
  {
    hide Lift;
    assert |xs| == |multiset(xs)| && |ys| == |multiset(ys)|;
    var n := |ys| - 1;
    assert ys == ys[..n] + [ys[n]];
    assert ys[n] in multiset(xs);
    var j :| 0 <= j < |xs| && xs[j] == ys[n];
    assert xs == xs[..j] + [xs[j]] + xs[j + 1..];
    assert multiset(Remove(xs, j)) == multiset(xs) - multiset{xs[j]};
    assert multiset(ys[..n]) == multiset(ys) - multiset{ys[n]};
    if n > 0 {
      JoinAllPermutation(Remove(xs, j), ys[..n]);
      JoinAllLast(xs, j);
    }
  }
}
