/** What a projection is made of, on the exchange itself and with every evidence name written out. */
module ProjectionSays {
  import opened Wrappers
  import opened Strings
  import opened IdentityEvidence
  import opened ClientIdentity
  import opened ProjectionNames
  import opened ProtocolIdentity
  import opened ProjectionFacts

  // ---------- Names ----------

  predicate SaysClaude(name: string) {
    name == "claude.session_id" || name == "claude.agent_id" || name == "claude.parent_agent_id"
  }

  predicate SaysCodex(name: string) {
    || name == "openai_responses.session_id" || name == "openai_responses.thread_id"
    || name == "openai_responses.turn_id" || name == "openai_responses.previous_response_id"
  }

  ghost predicate NamesClaude(values: seq<Evidence>) {
    exists x | x in values :: SaysClaude(x.name)
  }

  ghost predicate NamesCodex(values: seq<Evidence>) {
    exists x | x in values :: SaysCodex(x.name)
  }

  lemma MentionsSay(values: seq<Evidence>)
    ensures Mentions(values, ClaudeName) <==> NamesClaude(values)
    ensures Mentions(values, CodexName) <==> NamesCodex(values)
  {
    hide ClaudeName, CodexName, SaysClaude, SaysCodex;
    assert forall name :: (ClaudeName(name) <==> SaysClaude(name)) && (CodexName(name) <==> SaysCodex(name)) by {
      SameNames();
    }
    if i :| 0 <= i < |values| && ClaudeName(values[i].name) { assert values[i] in values; }
    if i :| 0 <= i < |values| && CodexName(values[i].name) { assert values[i] in values; }
  }

  lemma SameNames()
    ensures forall name :: (ClaudeName(name) <==> SaysClaude(name)) && (CodexName(name) <==> SaysCodex(name))
  {
  }

  // ---------- The advertised identity ----------

  /** An identity taken from evidence: the session is its client's; a child is marked by its parent; the client's own
      names become protocol identifiers, and the version of a Codex client an attribute. */
  ghost predicate Tells(values: seq<Evidence>, responseId: string, observedAt: int, i: Identity) {
    && (i.client == Codex <==> NamesCodex(values)) && (i.client == Claude <==> NamesClaude(values))
    && Reads(values, if i.client == Codex then "openai_responses.session_id" else "claude.session_id", i.sessionId)
    && Reads(values, "claude.agent_id", i.actorId)
    && (i.actorIsSubagent <==> exists v | v != "" :: Evidence("claude.parent_agent_id", v) in values)
    && i.sessionId != "" && i.sessionResumable && i.exact && i.actorLabel == "" && i.actorType == ""
    && i.source == Source.ProtocolEvidence && i.providerResponseId == responseId
    && i.providerMessageId == (if i.client == Claude then responseId else "")
    && i.observedAt % 1_000_000 == 0 && 0 <= observedAt - i.observedAt < 1_000_000
    && (forall x :: x in i.protocolIds <==> x in values && (SaysClaude(x.name) || SaysCodex(x.name)))
    && (forall x :: x in i.attributes <==> i.client == Codex && x in values && x.name == "codex.cli_version")
  }

  lemma {:induction false} VersionsSay(values: seq<Evidence>)
    ensures forall x :: x in Versions(values) <==> x in values && x.name == "codex.cli_version"
  {
    if values != [] { VersionsSay(values[..|values| - 1]); }
  }

  lemma ParentSays(values: seq<Evidence>)
    requires ValidProtocolEvidence(values)
    ensures ParentOf(values) != "" <==> exists v | v != "" :: Evidence("claude.parent_agent_id", v) in values
    ensures Reads(values, "claude.agent_id", ActorOf(values))
    ensures Reads(values, if ClientOf(values).Codex? then "openai_responses.session_id" else "claude.session_id",
      SessionOf(values))
  {
    hide ValidProtocolEvidence, Lookup, ClientOf;
    LookupReads(values, CLAUDE_PARENT);
    LookupReads(values, CLAUDE_AGENT);
    LookupReads(values, CLAUDE_SESSION);
    LookupReads(values, OPENAI_SESSION);
    if ParentOf(values) != "" { assert Evidence("claude.parent_agent_id", ParentOf(values)) in values; }
  }

  lemma IdentityTells(values: seq<Evidence>, responseId: string, observedAt: int)
    requires FromProtocol(values, responseId, observedAt).Some?
    ensures Tells(values, responseId, observedAt, FromProtocol(values, responseId, observedAt).value)
  {
    hide ValidProtocolEvidence, Valid, ValidText, NativeIds, Versions, Mentions, SessionOf, ActorOf, ParentOf,
      ClaudeName, CodexName, SaysClaude, SaysCodex, NamesClaude, NamesCodex, Reads;
    MentionsSay(values);
    SameNames();
    VersionsSay(values);
    ParentSays(values);
  }

  lemma ProtocolPrefix(values: seq<Evidence>, n: nat)
    requires ValidProtocolEvidence(values) && n <= |values|
    ensures ValidProtocolEvidence(values[..n])
    ensures n < |values| ==> forall x | x in values[..n] :: Less(x.name, values[n].name)
    ensures forall i | 0 <= i < |values| :: ValidName(values[i].name) && ValidText(values[i].value, false)
  {
    hide ValidName, ValidText, Less;
  }

  /** Appending a later name keeps a list canonical. */
  lemma CanonicalMore(values: seq<Evidence>, x: Evidence)
    requires Canonical(values, true) && |values| < MAX_EVIDENCE && ValidName(x.name) && ValidText(x.value, false)
    requires forall y | y in values :: Less(y.name, x.name)
    ensures Canonical(values + [x], true)
  {
    hide ValidName, ValidText, Less;
    forall i | 0 <= i < |values| ensures Before(values[i], x) && values[i].name != x.name {
      assert values[i] in values;
      LessTrichotomy(values[i].name, x.name);
    }
  }

  lemma {:induction false} PartsCanonical(values: seq<Evidence>)
    requires ValidProtocolEvidence(values)
    ensures Canonical(NativeIds(values), true) && |NativeIds(values)| <= |values|
    ensures Canonical(Versions(values), true) && |Versions(values)| <= |values|
    ensures forall x | x in Versions(values) :: x in values
  {
    hide ValidName, ValidText, Less, Canonical, ClaudeName, CodexName;
    if values == [] {
      NothingCanonical();
    } else {
      var n := |values| - 1;
      ProtocolPrefix(values, n);
      PartsCanonical(values[..n]);
      assert |values| <= MAX_EVIDENCE;
      NativeExtend(values[..n], values[n]);
      assert values == values[..n] + [values[n]];
      assert NativeIds(values[..n]) + [] == NativeIds(values[..n]);
      assert Versions(values[..n]) + [] == Versions(values[..n]);
      if ClaudeName(values[n].name) || CodexName(values[n].name) { CanonicalMore(NativeIds(values[..n]), values[n]); }
      if values[n].name == CODEX_VERSION { CanonicalMore(Versions(values[..n]), values[n]); }
    }
  }

  lemma NothingCanonical()
    ensures Canonical([], true)
  {
  }

  lemma WeakerCanonical(values: seq<Evidence>)
    requires Canonical(values, true)
    ensures Canonical(values, false)
  {
  }

  ghost predicate Gives(values: seq<Evidence>, name: string) {
    exists v | v != "" :: Evidence(name, v) in values
  }

  lemma LookupGives(values: seq<Evidence>, name: string)
    requires ValidProtocolEvidence(values)
    ensures Gives(values, name) <==> Lookup(values, name) != ""
  {
    hide ValidProtocolEvidence, Lookup;
    LookupReads(values, name);
    assert Lookup(values, name) != "" ==> Evidence(name, Lookup(values, name)) in values;
  }

  /** Whether a request's evidence advertises an identity: it is well-formed and of one client, gives that client's
      session and no parent without a child; and the time does not round to nothing. */
  lemma AdvertisedExactly(values: seq<Evidence>, responseId: string, observedAt: int)
    ensures FromProtocol(values, responseId, observedAt).Some? <==>
      && ValidProtocolEvidence(values) && ValidText(responseId, true) && !(0 <= observedAt < 1_000_000)
      && (NamesCodex(values) <==> !NamesClaude(values))
      && (if NamesCodex(values) then Gives(values, "openai_responses.session_id")
          else Gives(values, "claude.session_id"))
      && (NamesClaude(values) && Gives(values, "claude.parent_agent_id") ==> Gives(values, "claude.agent_id"))
  {
    hide ValidProtocolEvidence, Valid, ValidText, NativeIds, Versions, Mentions, Lookup, ClaudeName, CodexName,
      NamesClaude, NamesCodex, Gives;
    MentionsSay(values);
    if ValidProtocolEvidence(values) {
      LookupGives(values, OPENAI_SESSION);
      LookupGives(values, CLAUDE_SESSION);
      LookupGives(values, CLAUDE_PARENT);
      LookupGives(values, CLAUDE_AGENT);
      if Advertises(values, responseId, observedAt) { AdvertisedValid(values, responseId, observedAt); }
    }
  }

  lemma AdvertisedValid(values: seq<Evidence>, responseId: string, observedAt: int)
    requires Advertises(values, responseId, observedAt)
    ensures Valid(Advertised(values, responseId, observedAt)) <==> !(0 <= observedAt < 1_000_000)
  {
    hide ValidText, NativeIds, Versions, Lookup, ClaudeName, CodexName, Canonical;
    PartsCanonical(values);
    WeakerCanonical(NativeIds(values));
    NothingCanonical();
    FieldsValid(values);
    if !Mentions(values, ClaudeName) { NoClaudeFields(values); }
    EmptyValid();
  }

  lemma EmptyValid()
    ensures ValidText("", true)
  {
  }

  /** The values are acceptable text. */
  lemma FieldsValid(values: seq<Evidence>)
    requires ValidProtocolEvidence(values)
    ensures forall name :: Lookup(values, name) != "" ==> ValidText(Lookup(values, name), false)
    ensures forall name :: ValidText(Lookup(values, name), true)
  {
    hide ValidText, ValidName, Lookup;
    forall name ensures Lookup(values, name) != "" ==> ValidText(Lookup(values, name), false) {
      LookupReads(values, name);
      assert Lookup(values, name) != "" ==> Evidence(name, Lookup(values, name)) in values;
    }
    EmptyValid();
    forall name ensures ValidText(Lookup(values, name), true) { TextStrict(Lookup(values, name)); }
  }

  /** Evidence of another client names no agent. */
  lemma NoClaudeFields(values: seq<Evidence>)
    requires ValidProtocolEvidence(values) && !Mentions(values, ClaudeName)
    ensures ActorOf(values) == "" && ParentOf(values) == ""
  {
    hide ValidText, ValidName;
    LookupMentions(values, CLAUDE_AGENT);
    LookupMentions(values, CLAUDE_PARENT);
  }

  // ---------- The scope ----------

  predicate SaysSession(name: string) {
    name == "claude.session_id" || name == "openai_responses.session_id" || name == "codex.session_id"
  }

  predicate SaysThread(name: string) {
    name == "openai_responses.thread_id" || name == "codex.thread_id"
  }

  predicate ScopesCodex(name: string) {
    SaysThread(name) || name == "openai_responses.session_id" || name == "codex.session_id"
  }

  predicate ScopesClaude(name: string) {
    name == "claude.session_id"
  }

  /** Two values that no scope can hold: different sessions, different threads, or a Claude and a Codex name. */
  predicate Conflicting(x: Evidence, y: Evidence) {
    || (SaysSession(x.name) && SaysSession(y.name) && x.value != y.value)
    || (SaysThread(x.name) && SaysThread(y.name) && x.value != y.value)
    || (ScopesClaude(x.name) && ScopesCodex(y.name))
  }

  ghost predicate AnyConflict(values: seq<Evidence>) {
    exists x, y | x in values && y in values :: Conflicting(x, y)
  }

  ghost predicate HasSession(values: seq<Evidence>, v: string) {
    exists x | x in values :: SaysSession(x.name) && x.value == v
  }

  ghost predicate HasThread(values: seq<Evidence>, v: string) {
    exists x | x in values :: SaysThread(x.name) && x.value == v
  }

  /** The scope holds what the values say. */
  ghost predicate ScopeTells(values: seq<Evidence>, scope: Scope) {
    && (scope.client == Codex <==> exists x | x in values :: ScopesCodex(x.name))
    && (scope.client == Claude <==> exists x | x in values :: ScopesClaude(x.name))
    && (scope.client == Codex || scope.client == Claude || scope.client == NoClient)
    && (forall v | v != "" :: HasSession(values, v) <==> v == scope.sessionId)
    && (forall v | v != "" :: HasThread(values, v) <==> v == scope.threadId)
  }

  lemma StepSays(name: string)
    ensures ScopeStep(name) == SetSession(Claude) <==> ScopesClaude(name)
    ensures ScopeStep(name) == SetSession(Codex) <==> SaysSession(name) && ScopesCodex(name)
    ensures ScopeStep(name) == SetThread <==> SaysThread(name)
    ensures ScopeStep(name) == Skip <==> !SaysSession(name) && !SaysThread(name)
    ensures !(SaysSession(name) && SaysThread(name)) && !(ScopesClaude(name) && ScopesCodex(name))
    ensures SaysSession(name) ==> ScopesClaude(name) || ScopesCodex(name)
    ensures ScopesClaude(name) ==> SaysSession(name)
    ensures SaysThread(name) ==> ScopesCodex(name)
    ensures ScopesCodex(name) ==> SaysSession(name) || SaysThread(name)
  {
  }

  lemma OneMore(values: seq<Evidence>, x: Evidence)
    ensures forall y :: y in values + [x] <==> y in values || y == x
    ensures forall v :: HasSession(values + [x], v) <==> HasSession(values, v) || (SaysSession(x.name) && x.value == v)
    ensures forall v :: HasThread(values + [x], v) <==> HasThread(values, v) || (SaysThread(x.name) && x.value == v)
    ensures AnyConflict(values + [x]) <==>
      AnyConflict(values) || exists y | y in values :: Conflicting(x, y) || Conflicting(y, x)
  {
    hide SaysSession, SaysThread, ScopesClaude, ScopesCodex;
    forall v ensures HasSession(values + [x], v) <==> HasSession(values, v) || (SaysSession(x.name) && x.value == v) {
      assert x in values + [x];
    }
    forall v ensures HasThread(values + [x], v) <==> HasThread(values, v) || (SaysThread(x.name) && x.value == v) {
      assert x in values + [x];
    }
    OneMoreConflict(values, x);
  }

  lemma OneMoreConflict(values: seq<Evidence>, x: Evidence)
    ensures AnyConflict(values + [x]) <==>
      AnyConflict(values) || exists y | y in values :: Conflicting(x, y) || Conflicting(y, x)
  {
    assert !Conflicting(x, x) by { StepSays(x.name); }
    hide Conflicting;
    assert x in values + [x];
    assert forall y | y in values :: y in values + [x];
    if y, z :| y in values && z in values && Conflicting(y, z) {
      assert y in values + [x] && z in values + [x];
    }
  }

  /** What a value can conflict with, in terms of the scope so far. */
  predicate Opposes(scope: Scope, x: Evidence) {
    || (SaysSession(x.name) && scope.sessionId != "" && scope.sessionId != x.value)
    || (SaysThread(x.name) && scope.threadId != "" && scope.threadId != x.value)
    || (ScopesClaude(x.name) && scope.client == Codex) || (ScopesCodex(x.name) && scope.client == Claude)
  }

  lemma OpposesConflicts(values: seq<Evidence>, scope: Scope, x: Evidence)
    requires ScopeTells(values, scope) && x.value != "" && forall y | y in values :: y.value != ""
    ensures Opposes(scope, x) <==> exists y | y in values :: Conflicting(x, y) || Conflicting(y, x)
  {
    hide SaysSession, SaysThread, ScopesClaude, ScopesCodex;
    assert forall y | y in values && SaysSession(y.name) :: HasSession(values, y.value);
    assert forall y | y in values && SaysThread(y.name) :: HasThread(values, y.value);
    if Opposes(scope, x) {
      assert scope.sessionId != "" ==> HasSession(values, scope.sessionId);
      assert scope.threadId != "" ==> HasThread(values, scope.threadId);
      if SaysSession(x.name) && scope.sessionId != "" && scope.sessionId != x.value {
        var y :| y in values && SaysSession(y.name) && y.value == scope.sessionId;
        assert Conflicting(x, y);
      } else if SaysThread(x.name) && scope.threadId != "" && scope.threadId != x.value {
        var y :| y in values && SaysThread(y.name) && y.value == scope.threadId;
        assert Conflicting(x, y);
      } else if ScopesClaude(x.name) && scope.client == Codex {
        var y :| y in values && ScopesCodex(y.name);
        assert Conflicting(x, y);
      } else {
        var y :| y in values && ScopesClaude(y.name);
        assert Conflicting(y, x);
      }
    }
  }

  lemma AddSays(values: seq<Evidence>, scope: Scope, x: Evidence)
    requires ScopeTells(values, scope) && x.value != "" && forall y | y in values :: y.value != ""
    ensures AddToScope(scope, x).None? <==> exists y | y in values :: Conflicting(x, y) || Conflicting(y, x)
    ensures AddToScope(scope, x).Some? ==> ScopeTells(values + [x], AddToScope(scope, x).value)
  {
    hide SaysSession, SaysThread, ScopesClaude, ScopesCodex, ScopeStep, AnyConflict, Conflicting, HasSession, HasThread;
    StepSays(x.name);
    OpposesConflicts(values, scope, x);
    assert AddToScope(scope, x).None? <==> Opposes(scope, x);
    OneMore(values, x);
    if AddToScope(scope, x).Some? { AddClient(values, scope, x); }
  }

  lemma AddClient(values: seq<Evidence>, scope: Scope, x: Evidence)
    requires ScopeTells(values, scope) && AddToScope(scope, x).Some?
    ensures
      var after := AddToScope(scope, x).value;
      && (after.client == Codex <==> exists y | y in values + [x] :: ScopesCodex(y.name))
      && (after.client == Claude <==> exists y | y in values + [x] :: ScopesClaude(y.name))
      && (after.client == Codex || after.client == Claude || after.client == NoClient)
  {
    hide SaysSession, SaysThread, ScopesClaude, ScopesCodex, ScopeStep, HasSession, HasThread;
    StepSays(x.name);
    assert x in values + [x];
    assert forall y | y in values :: y in values + [x];
  }

  lemma {:induction false} ScanSays(values: seq<Evidence>)
    requires forall x | x in values :: x.value != ""
    ensures ScanScope(values).Some? <==> !AnyConflict(values)
    ensures ScanScope(values).Some? ==> ScopeTells(values, ScanScope(values).value)
  {
    hide AddToScope, AnyConflict, ScopeTells, Conflicting;
    if values == [] {
      NothingScoped();
    } else {
      var n := |values| - 1;
      assert values == values[..n] + [values[n]];
      ScanSays(values[..n]);
      OneMoreConflict(values[..n], values[n]);
      if ScanScope(values[..n]).Some? { AddSays(values[..n], ScanScope(values[..n]).value, values[n]); }
    }
  }

  lemma NothingScoped()
    ensures !AnyConflict([]) && ScopeTells([], NO_SCOPE)
  {
  }

  /** A request has a scope exactly when its evidence is well-formed, does not conflict, and names a session; the scope
      is what the evidence says. */
  lemma ScopeSays(values: seq<Evidence>)
    ensures ScopeOf(values) != NO_SCOPE <==>
      ValidProtocolEvidence(values) && !AnyConflict(values) && exists v | v != "" :: HasSession(values, v)
    ensures ScopeOf(values) != NO_SCOPE ==> ScopeTells(values, ScopeOf(values)) && ScopeOf(values).sessionId != ""
  {
    hide ValidProtocolEvidence, ScanScope, AnyConflict, HasSession, HasThread;
    if ValidProtocolEvidence(values) {
      LookupReads(values, "");
      ScanSays(values);
      if ScanScope(values).Some? && ScanScope(values).value.sessionId != "" {
        assert HasSession(values, ScanScope(values).value.sessionId);
      }
    }
  }

  // ---------- The leaf of an actor's path ----------

  predicate AllSlashes(s: string) {
    forall i | 0 <= i < |s| :: s[i] == '/'
  }

  /** The last segment of a path lies behind a slash, and nothing but slashes follows it. */
  ghost predicate IsLeafAt(actor: string, i: int, j: int) {
    && 0 <= i && i + 1 < j <= |actor| && actor[i] == '/' && '/' !in actor[i + 1..j] && AllSlashes(actor[j..])
  }

  ghost predicate IsLeaf(actor: string, leaf: string) {
    exists i, j :: IsLeafAt(actor, i, j) && leaf == actor[i + 1..j]
  }

  lemma {:induction false} TrimsSlashes(s: string)
    ensures |TrimSlashes(s)| <= |s| && TrimSlashes(s) == s[..|TrimSlashes(s)|] && AllSlashes(s[|TrimSlashes(s)|..])
    ensures TrimSlashes(s) != "" ==> TrimSlashes(s)[|TrimSlashes(s)| - 1] != '/'
  {
    if s != "" && s[|s| - 1] == '/' {
      var n := |s| - 1;
      TrimsSlashes(s[..n]);
      var m := |TrimSlashes(s[..n])|;
      assert s[m..] == s[..n][m..] + [s[n]];
      assert s[..n][..m] == s[..m];
    }
  }

  /** The part is what follows the last slash of the text. */
  ghost predicate FollowsSlash(s: string, part: string) {
    && |part| <= |s| && part == s[|s| - |part|..] && '/' !in part
    && (|part| < |s| ==> s[|s| - |part| - 1] == '/')
  }

  lemma FollowsLonger(s: string, part: string, c: char)
    requires FollowsSlash(s, part) && c != '/'
    ensures FollowsSlash(s + [c], part + [c])
  {
    var m := |s| - |part|;
    assert (s + [c])[m..] == s[m..] + [c];
  }

  lemma {:induction false} SplitsAtSlash(s: string)
    ensures FollowsSlash(s, AfterLastSlash(s))
  {
    if s != "" && s[|s| - 1] != '/' {
      hide FollowsSlash;
      var n := |s| - 1;
      SplitsAtSlash(s[..n]);
      assert s == s[..n] + [s[n]];
      FollowsLonger(s[..n], AfterLastSlash(s[..n]), s[n]);
    }
  }

  lemma SlashesAt(s: string, m: int)
    requires 0 <= m <= |s| && AllSlashes(s[m..])
    ensures forall k | m <= k < |s| :: s[k] == '/'
  {
    forall k | m <= k < |s| ensures s[k] == '/' { assert s[k] == s[m..][k - m]; }
  }

  lemma NoSlashAt(s: string, m: int, n: int)
    requires 0 <= m <= n <= |s| && '/' !in s[m..n]
    ensures forall k | m <= k < n :: s[k] != '/'
  {
    forall k | m <= k < n ensures s[k] != '/' { assert s[k] == s[m..n][k - m]; }
  }

  /** Where the leaf ends, and where it begins. */
  lemma LeafEnds(actor: string, i: int, j: int)
    requires IsLeafAt(actor, i, j)
    ensures |TrimSlashes(actor)| == j
  {
    hide TrimSlashes;
    var trimmed := TrimSlashes(actor);
    TrimsSlashes(actor);
    assert forall k | 0 <= k < |trimmed| :: trimmed[k] == actor[k];
    SlashesAt(actor, |trimmed|);
    SlashesAt(actor, j);
    NoSlashAt(actor, i + 1, j);
    hide AllSlashes;
    assert actor[j - 1] != '/';
  }

  lemma LeafBegins(trimmed: string, i: int)
    requires 0 <= i < |trimmed| && trimmed[i] == '/' && '/' !in trimmed[i + 1..]
    ensures AfterLastSlash(trimmed) == trimmed[i + 1..]
  {
    hide AfterLastSlash;
    SplitsAtSlash(trimmed);
    assert trimmed[i + 1..|trimmed|] == trimmed[i + 1..];
    NoSlashAt(trimmed, i + 1, |trimmed|);
    var m := |trimmed| - |AfterLastSlash(trimmed)|;
    assert trimmed[m..|trimmed|] == trimmed[m..];
    NoSlashAt(trimmed, m, |trimmed|);
  }

  lemma LeafInside(actor: string, i: int, j: int)
    requires IsLeafAt(actor, i, j)
    ensures '/' in TrimSlashes(actor) && AfterLastSlash(TrimSlashes(actor)) == actor[i + 1..j]
  {
    hide TrimSlashes, AfterLastSlash;
    var trimmed := TrimSlashes(actor);
    LeafEnds(actor, i, j);
    TrimsSlashes(actor);
    assert trimmed[i] == actor[i];
    assert trimmed[i + 1..] == actor[i + 1..j];
    LeafBegins(trimmed, i);
  }

  lemma LeafFound(actor: string)
    ensures
      var trimmed := TrimSlashes(actor);
      '/' in trimmed && AfterLastSlash(trimmed) != "" ==> IsLeaf(actor, AfterLastSlash(trimmed))
  {
    hide TrimSlashes, AfterLastSlash;
    var trimmed := TrimSlashes(actor);
    var leaf := AfterLastSlash(trimmed);
    TrimsSlashes(actor);
    SplitsAtSlash(trimmed);
    if '/' in trimmed && leaf != "" {
      assert leaf != trimmed;
      var i := |trimmed| - |leaf| - 1;
      assert i < 0 ==> leaf == trimmed;
      assert actor[i + 1..|trimmed|] == trimmed[i + 1..];
      assert IsLeafAt(actor, i, |trimmed|);
    }
  }

  /** The shown name of an actor: its leaf if it has one, else the actor itself. */
  lemma LeafSays(actor: string)
    ensures forall leaf :: IsLeaf(actor, leaf) ==> ActorLeaf(actor) == leaf
    ensures (forall leaf :: !IsLeaf(actor, leaf)) ==> ActorLeaf(actor) == actor
  {
    hide TrimSlashes, AfterLastSlash;
    forall leaf | IsLeaf(actor, leaf) ensures ActorLeaf(actor) == leaf {
      var i, j :| IsLeafAt(actor, i, j) && leaf == actor[i + 1..j];
      LeafInside(actor, i, j);
    }
    LeafFound(actor);
  }

  /** How an actor without a label of its own is shown. */
  ghost predicate Titled(actor: string, title: string) {
    if exists leaf :: IsLeaf(actor, leaf) then IsLeaf(actor, title) else title == actor
  }

  lemma ActorTitled(actor: string)
    ensures Titled(actor, ActorLeaf(actor))
  {
    hide IsLeaf, ActorLeaf;
    LeafSays(actor);
  }

  // ---------- Who speaks ----------

  /** An agent is named by its name or, when it has none, by its author. */
  predicate NamedBy(agent: Option<AgentContext>, actor: string) {
    && actor != "" && agent.Some?
    && (agent.value.agentName == actor || (agent.value.agentName == "" && agent.value.author == actor))
  }

  ghost predicate BlocksName(blocks: seq<Block>, actor: string) {
    exists i | 0 <= i < |blocks| :: NamedBy(blocks[i].agent, actor)
  }

  ghost predicate MessageNames(m: Message, actor: string) {
    NamedBy(m.agent, actor) || BlocksName(m.blocks, actor)
  }

  ghost predicate ResponseNames(response: Option<Response>, actor: string) {
    response.Some? && BlocksName(response.value.blocks, actor)
  }

  /** The newest message that names anyone. */
  ghost predicate Latest(messages: seq<Message>, k: int) {
    && 0 <= k < |messages| && (exists actor :: MessageNames(messages[k], actor))
    && forall j, actor | k < j < |messages| :: !MessageNames(messages[j], actor)
  }

  ghost predicate LatestNames(messages: seq<Message>, actor: string) {
    exists k :: Latest(messages, k) && MessageNames(messages[k], actor)
  }

  /** The response decides who speaks if it names anyone, else the newest message that does. */
  ghost predicate Names(request: Request, response: Option<Response>, actor: string) {
    if exists a :: ResponseNames(response, a) then ResponseNames(response, actor)
    else LatestNames(request.messages, actor)
  }

  ghost predicate Speaks(request: Request, response: Option<Response>, actor: string) {
    Names(request, response, actor) && forall a | Names(request, response, a) :: a == actor
  }

  ghost predicate Disputed(request: Request, response: Option<Response>) {
    exists a, b :: Names(request, response, a) && Names(request, response, b) && a != b
  }

  /** A verdict over those that are named. */
  ghost predicate Judges(names: string -> bool, v: Verdict) {
    && (v.Silent? <==> forall a :: !names(a))
    && (forall a :: v == Speaker(a) <==> names(a) && forall b | names(b) :: b == a)
    && (v.Ambiguous? <==> exists a, b :: names(a) && names(b) && a != b)
  }

  lemma HeardJudges(producers: seq<string>, names: string -> bool)
    requires forall a :: names(a) <==> a != "" && a in producers
    ensures Judges(names, Heard(producers))
  {
    hide Heard;
    HeardMeans(producers);
    var v := Heard(producers);
    if v.Silent? {
      assert forall a :: !names(a);
    } else if v.Speaker? {
      assert names(v.actor) && forall b | names(b) :: b == v.actor;
    } else {
      var a, b :| a in producers && b in producers && a != "" && b != "" && a != b;
      assert names(a) && names(b);
    }
  }

  lemma ProducerNames(agent: Option<AgentContext>, actor: string)
    ensures NamedBy(agent, actor) <==> actor != "" && actor == Producer(agent)
  {
  }

  lemma BlocksProduce(blocks: seq<Block>, actor: string)
    ensures BlocksName(blocks, actor) <==> actor != "" && actor in Producers(blocks)
  {
    hide NamedBy, Producer;
    forall i | 0 <= i < |blocks|
      ensures NamedBy(blocks[i].agent, actor) <==> actor != "" && actor == Producers(blocks)[i]
    {
      ProducerNames(blocks[i].agent, actor);
    }
    if actor in Producers(blocks) {
      var i :| 0 <= i < |blocks| && Producers(blocks)[i] == actor;
    }
  }

  lemma BlocksJudged(blocks: seq<Block>)
    ensures Judges(a => BlocksName(blocks, a), Heard(Producers(blocks)))
  {
    hide Heard, Judges, BlocksName;
    forall a ensures BlocksName(blocks, a) <==> a != "" && a in Producers(blocks) { BlocksProduce(blocks, a); }
    HeardJudges(Producers(blocks), a => BlocksName(blocks, a));
  }

  lemma MessageJudged(m: Message)
    ensures Judges(a => MessageNames(m, a), MessageVerdict(m))
  {
    hide Heard, Judges, BlocksName, NamedBy, Producer;
    var producers := [Producer(m.agent)] + Producers(m.blocks);
    forall a ensures MessageNames(m, a) <==> a != "" && a in producers {
      BlocksProduce(m.blocks, a);
      ProducerNames(m.agent, a);
    }
    HeardJudges(producers, a => MessageNames(m, a));
  }

  lemma SameJudged(names: string -> bool, same: string -> bool, v: Verdict)
    requires Judges(names, v) && forall a :: names(a) <==> same(a)
    ensures Judges(same, v)
  {
    if v.Ambiguous? {
      var a, b :| names(a) && names(b) && a != b;
      assert same(a) && same(b);
    }
    assert (exists a, b :: same(a) && same(b) && a != b) ==> exists a, b :: names(a) && names(b) && a != b;
  }

  lemma LatestStep(messages: seq<Message>, m: Message, actor: string)
    ensures LatestNames(messages + [m], actor) <==>
      if exists a :: MessageNames(m, a) then MessageNames(m, actor) else LatestNames(messages, actor)
  {
    hide MessageNames;
    var more := messages + [m];
    assert more[|messages|] == m && forall j | 0 <= j < |messages| :: more[j] == messages[j];
    if exists a :: MessageNames(m, a) {
      assert Latest(more, |messages|);
    } else {
      forall k ensures Latest(more, k) <==> Latest(messages, k) { OlderLatest(messages, m, k); }
    }
  }

  lemma OlderLatest(messages: seq<Message>, m: Message, k: int)
    requires forall a :: !MessageNames(m, a)
    ensures Latest(messages + [m], k) <==> Latest(messages, k)
  {
    hide MessageNames;
    var more := messages + [m];
    assert more[|messages|] == m && forall j | 0 <= j < |messages| :: more[j] == messages[j];
  }

  lemma {:induction false} LatestJudged(messages: seq<Message>)
    ensures Judges(a => LatestNames(messages, a), LatestVerdict(messages))
  {
    hide Judges, LatestNames, MessageNames, MessageVerdict;
    if messages == [] {
      NobodyLatest();
    } else {
      var n := |messages| - 1;
      assert messages == messages[..n] + [messages[n]];
      LatestJudged(messages[..n]);
      MessageJudged(messages[n]);
      SilentMessage(messages[n]);
      forall a ensures LatestNames(messages, a) <==>
        if MessageVerdict(messages[n]).Silent? then LatestNames(messages[..n], a) else MessageNames(messages[n], a)
      {
        LatestStep(messages[..n], messages[n], a);
      }
      if MessageVerdict(messages[n]).Silent? {
        SameJudged(a => LatestNames(messages[..n], a), a => LatestNames(messages, a), LatestVerdict(messages[..n]));
      } else {
        SameJudged(a => MessageNames(messages[n], a), a => LatestNames(messages, a), MessageVerdict(messages[n]));
      }
    }
  }

  lemma SilentMessage(m: Message)
    ensures MessageVerdict(m).Silent? <==> forall a :: !MessageNames(m, a)
  {
    hide MessageNames, MessageVerdict;
    MessageJudged(m);
    var names := a => MessageNames(m, a);
    assert Judges(names, MessageVerdict(m));
    if MessageVerdict(m).Silent? {
      forall a ensures !MessageNames(m, a) { assert !names(a); }
    } else {
      var a :| names(a);
      assert MessageNames(m, a);
    }
  }

  lemma NobodyLatest()
    ensures Judges(a => LatestNames([], a), Silent)
  {
  }

  lemma SilentResponse(blocks: seq<Block>)
    ensures Heard(Producers(blocks)).Silent? <==> forall a :: !BlocksName(blocks, a)
  {
    hide BlocksName, Heard;
    BlocksJudged(blocks);
    var names := a => BlocksName(blocks, a);
    assert Judges(names, Heard(Producers(blocks)));
    if Heard(Producers(blocks)).Silent? {
      forall a ensures !BlocksName(blocks, a) { assert !names(a); }
    } else {
      var a :| names(a);
      assert BlocksName(blocks, a);
    }
  }

  /** Who speaks in an exchange. */
  lemma SpeakerSays(request: Request, response: Option<Response>)
    ensures forall a :: CurrentSpeaker(request, response) == Speaker(a) <==> Speaks(request, response, a)
    ensures CurrentSpeaker(request, response).Ambiguous? <==> Disputed(request, response)
  {
    hide CurrentSpeaker, Names;
    CurrentJudged(request, response);
    var names := a => Names(request, response, a);
    assert forall a :: names(a) == Names(request, response, a);
    assert Judges(names, CurrentSpeaker(request, response));
    forall a ensures CurrentSpeaker(request, response) == Speaker(a) <==> Speaks(request, response, a) {
      assert names(a) == Names(request, response, a);
      if CurrentSpeaker(request, response) == Speaker(a) {
        forall b | Names(request, response, b) ensures b == a { assert names(b); }
      }
      if Speaks(request, response, a) {
        assert forall b | names(b) :: b == a;
      }
    }
    if CurrentSpeaker(request, response).Ambiguous? {
      var a, b :| names(a) && names(b) && a != b;
      assert Names(request, response, a) && Names(request, response, b);
    }
    if a, b :| Names(request, response, a) && Names(request, response, b) && a != b {
      assert names(a) && names(b);
    }
  }

  lemma CurrentJudged(request: Request, response: Option<Response>)
    ensures Judges(a => Names(request, response, a), CurrentSpeaker(request, response))
  {
    hide Judges, LatestNames, BlocksName, Heard, LatestVerdict;
    LatestJudged(request.messages);
    var blocks := if response.Some? then response.value.blocks else [];
    SilentResponse(blocks);
    BlocksJudged(blocks);
    if exists a :: ResponseNames(response, a) {
      SameJudged(a => BlocksName(blocks, a), a => Names(request, response, a), CurrentSpeaker(request, response));
    } else {
      assert response.Some? ==> forall a :: ResponseNames(response, a) == BlocksName(blocks, a);
      assert CurrentSpeaker(request, response) == LatestVerdict(request.messages);
      SameJudged(a => LatestNames(request.messages, a), a => Names(request, response, a),
        CurrentSpeaker(request, response));
    }
  }

  // ---------- What is prepared ----------

  /** A text block holds the client's mark of a subagent. */
  ghost predicate HasMark(block: Block) {
    block.isText && exists i | 0 <= i <= |block.text| :: "cc_is_subagent=true" <= block.text[i..]
  }

  ghost predicate Asserted(request: Request) {
    || (exists b | b in request.system :: HasMark(b))
    || (exists m | m in request.messages :: m.isSystem && exists b | b in m.blocks :: HasMark(b))
  }

  lemma MarkSays(block: Block)
    ensures HasMark(block) <==> block.isText && Contains(block.text, SUBAGENT_MARKER)
  {
    var mark := SUBAGENT_MARKER;
    forall i | 0 <= i <= |block.text| ensures OccursAt(block.text, mark, i) <==> mark <= block.text[i..] {
      assert i + |mark| <= |block.text| ==> block.text[i..][..|mark|] == block.text[i..i + |mark|];
    }
  }

  lemma MarkedSays(blocks: seq<Block>)
    ensures Marked(blocks) <==> exists b | b in blocks :: HasMark(b)
  {
    hide HasMark, Contains;
    forall b | b in blocks ensures HasMark(b) <==> b.isText && Contains(b.text, SUBAGENT_MARKER) { MarkSays(b); }
    if i :| 0 <= i < |blocks| && blocks[i].isText && Contains(blocks[i].text, SUBAGENT_MARKER) {
      assert blocks[i] in blocks;
    }
  }

  lemma AssertedSays(request: Request)
    ensures AssertsSubagent(request) <==> Asserted(request)
  {
    hide Marked, HasMark;
    MarkedSays(request.system);
    forall m | m in request.messages ensures Marked(m.blocks) <==> exists b | b in m.blocks :: HasMark(b) {
      MarkedSays(m.blocks);
    }
    if i :| 0 <= i < |request.messages| && request.messages[i].isSystem && Marked(request.messages[i].blocks) {
      assert request.messages[i] in request.messages;
    }
  }

  /** The agent that well-formed evidence names. */
  ghost predicate NamesAgent(values: seq<Evidence>, actor: string) {
    actor != "" && ValidProtocolEvidence(values) && Evidence("claude.agent_id", actor) in values
  }

  lemma AgentSays(values: seq<Evidence>)
    ensures forall a :: NamesAgent(values, a) <==> a != "" && a == ProtocolActor(values)
  {
    hide ValidProtocolEvidence;
    if ValidProtocolEvidence(values) { LookupReads(values, CLAUDE_AGENT); }
  }

  /** A Codex session that the evidence names. */
  ghost predicate InCodexSession(values: seq<Evidence>) {
    ScopeOf(values) != NO_SCOPE && exists x | x in values :: ScopesCodex(x.name)
  }

  lemma CodexSays(values: seq<Evidence>)
    ensures ScopeOf(values).client.Codex? && ScopeOf(values).sessionId != "" <==> InCodexSession(values)
    ensures ScopeOf(values) == NO_SCOPE <==> ScopeOf(values).sessionId == ""
  {
    hide ScopeOf, ScopesCodex, ScopesClaude, HasSession, HasThread, AnyConflict, ValidProtocolEvidence;
    ScopeSays(values);
  }

  /** Who the exchange is of: the agent of the evidence, or outside of a Codex session the one who speaks. */
  ghost predicate IsActor(request: Request, response: Option<Response>, actor: string) {
    if exists a :: NamesAgent(request.evidence, a) then NamesAgent(request.evidence, actor)
    else !InCodexSession(request.evidence) && Speaks(request, response, actor)
  }

  ghost predicate OfNobody(request: Request, response: Option<Response>) {
    !InCodexSession(request.evidence) && forall a :: !IsActor(request, response, a)
  }

  /** What is read from a request: its actor if there is one; an isolated stream when the client asserts a subagent or
      when the speakers disagree; else the main stream of the session, or of the run when there is no session. */
  ghost predicate RequestTells(input: Input, request: Request, f: Facts) {
    && (f.kind == Agent <==> exists a :: IsActor(request, input.response, a))
    && (f.kind == Agent ==> IsActor(request, input.response, f.actor) && Titled(f.actor, f.displayName))
    && (f.kind == IsolatedSubagent <==> OfNobody(request, input.response) && Asserted(request))
    && (f.kind == IsolatedExchange <==>
          OfNobody(request, input.response) && !Asserted(request) && Disputed(request, input.response))
    && (f.kind == Main || f.kind == Agent || f.kind == IsolatedSubagent || f.kind == IsolatedExchange)
    && (f.kind != Agent ==> f.actor == "" && f.displayName == if f.kind == Main then input.sourceDisplayName else "")
    && f.evidence == (
         if f.kind == Agent then ExplicitActor
         else if f.kind == IsolatedSubagent then ClientAssertedSubagent
         else if f.kind == IsolatedExchange then AmbiguousActor
         else if f.scope == NO_SCOPE then CaptureRun else ExplicitSession)
    && f.scope == ScopeOf(request.evidence)
  }

  lemma ActorSays(request: Request, response: Option<Response>)
    ensures forall a :: IsActor(request, response, a) <==>
      if ProtocolActor(request.evidence) != "" then a == ProtocolActor(request.evidence)
      else !InCodexSession(request.evidence) && CurrentSpeaker(request, response) == Speaker(a)
  {
    hide ProtocolActor, InCodexSession, Speaks, CurrentSpeaker, NamesAgent;
    AgentSays(request.evidence);
    SpeakerSays(request, response);
    var actor := ProtocolActor(request.evidence);
    assert actor != "" ==> NamesAgent(request.evidence, actor);
    assert actor == "" ==> forall a :: !NamesAgent(request.evidence, a);
  }

  lemma RequestSays(input: Input, request: Request)
    ensures RequestTells(input, request, FromRequest(input, request))
  {
    hide ProtocolActor, ScopeOf, InCodexSession, Disputed, Asserted, AssertsSubagent, CurrentSpeaker, ActorLeaf, Titled,
      IsActor;
    ActorSays(request, input.response);
    CodexSays(request.evidence);
    SpeakerSays(request, input.response);
    AssertedSays(request);
    ActorTitled(FromRequest(input, request).actor);
    var actor, v := ProtocolActor(request.evidence), CurrentSpeaker(request, input.response);
    assert actor != "" ==> IsActor(request, input.response, actor);
    assert actor == "" && !InCodexSession(request.evidence) && v.Speaker? ==>
      IsActor(request, input.response, v.actor);
  }

  ghost predicate IsFirstThread(ids: seq<Evidence>, k: int) {
    0 <= k < |ids| && SaysThread(ids[k].name) && forall j | 0 <= j < k :: !SaysThread(ids[j].name)
  }

  lemma {:induction false} FirstThreadSays(ids: seq<Evidence>)
    ensures forall k | IsFirstThread(ids, k) :: FirstThread(ids) == ids[k].value
    ensures (forall k :: !IsFirstThread(ids, k)) ==> FirstThread(ids) == ""
  {
    hide SaysThread, ThreadName;
    if ids != [] {
      assert ThreadName(ids[0].name) <==> SaysThread(ids[0].name) by { SameThread(ids[0].name); }
      FirstThreadSays(ids[1..]);
      if SaysThread(ids[0].name) {
        assert IsFirstThread(ids, 0);
      } else {
        forall k | IsFirstThread(ids, k) ensures IsFirstThread(ids[1..], k - 1) {
          assert forall j | 0 <= j < k - 1 :: ids[1..][j] == ids[j + 1];
        }
        forall k | IsFirstThread(ids[1..], k) ensures IsFirstThread(ids, k + 1) {
          assert forall j | 0 < j < k + 1 :: ids[j] == ids[1..][j - 1];
        }
      }
    }
  }

  lemma SameThread(name: string)
    ensures ThreadName(name) <==> SaysThread(name)
  {
  }

  /** What is read from an identity: its actor, under its label or its leaf, or its main stream; the scope is its
      session and, for Codex, its first thread. */
  ghost predicate IdentityShows(input: Input, i: Identity, f: Facts) {
    && f.actor == i.actorId && f.kind == (if i.actorId == "" then Main else Agent)
    && f.evidence == (if i.actorId == "" then ExplicitSession else ExplicitActor)
    && (i.actorId == "" ==> f.displayName == input.sourceDisplayName)
    && (i.actorId != "" && i.actorLabel != "" ==> f.displayName == i.actorLabel)
    && (i.actorId != "" && i.actorLabel == "" ==> Titled(i.actorId, f.displayName))
    && f.scope.client == i.client && f.scope.sessionId == i.sessionId
    && (i.client != Codex || (forall k :: !IsFirstThread(i.protocolIds, k)) ==> f.scope.threadId == "")
    && (i.client == Codex ==> forall k | IsFirstThread(i.protocolIds, k) :: f.scope.threadId == i.protocolIds[k].value)
  }

  lemma IdentitySays(input: Input, i: Identity)
    requires Valid(i)
    ensures IdentityShows(input, i, FromIdentity(input, i))
  {
    hide ActorLeaf, Titled, FirstThread, IsFirstThread, Canonical, ValidText;
    SessionGiven(i);
    ActorTitled(i.actorId);
    FirstThreadSays(i.protocolIds);
  }

  lemma SessionGiven(i: Identity)
    requires Valid(i)
    ensures i.sessionId != ""
  {
  }

  /** The facts of an isolated exchange. */
  predicate Alone(f: Facts, evidence: EvidenceKind) {
    f.kind == IsolatedExchange && f.evidence == evidence && f.actor == "" && f.displayName == "" && f.scope == NO_SCOPE
  }

  /** What the facts of an exchange say, wherever they are read from. */
  ghost predicate PreparedTells(input: Input, f: Facts) {
    && f.captureRunId == input.captureRunId && f.exchangeId == input.exchangeId
    && if input.captureRunId == "" then Alone(f, ExchangeBoundary)
       else if input.identity.Some? then IdentityShows(input, input.identity.value, f)
       else if input.request.None? then Alone(f, UndecodedExchange)
       else RequestTells(input, input.request.value, f)
  }

  /** Facts are prepared exactly for acceptable text and a valid identity where one counts; they are of the identity if
      there is one, else of the request. */
  lemma PrepareSays(input: Input)
    ensures Prepare(input).Some? <==>
      && ValidText(input.exchangeId, false) && ValidText(input.captureRunId, true)
      && ValidText(input.sourceDisplayName, true)
      && (input.captureRunId != "" && input.identity.Some? ==> Valid(input.identity.value))
    ensures Prepare(input).Some? ==> PreparedTells(input, Prepare(input).value)
  {
    hide ValidText, Valid, IdentityShows, RequestTells, FromIdentity, FromRequest;
    if input.request.Some? {
      RequestSays(input, input.request.value);
      SameRun(input, input.request.value);
    }
    if input.identity.Some? {
      SameExchange(input, input.identity.value);
      if Valid(input.identity.value) { IdentitySays(input, input.identity.value); }
    }
  }

  lemma SameRun(input: Input, request: Request)
    ensures FromRequest(input, request).captureRunId == input.captureRunId
    ensures FromRequest(input, request).exchangeId == input.exchangeId
  {
    hide CurrentSpeaker, AssertsSubagent, ScopeOf, ProtocolActor, ActorLeaf;
  }

  lemma SameExchange(input: Input, i: Identity)
    ensures FromIdentity(input, i).captureRunId == input.captureRunId
    ensures FromIdentity(input, i).exchangeId == input.exchangeId
  {
    hide ActorLeaf, FirstThread;
  }

  // ---------- Identifiers ----------

  /** Where a stream belongs: to its client session or, when it has none, to its capture run. */
  function Owner(digest: Digest, f: Facts): string {
    if f.scope.sessionId == "" then "capture_run:" + f.captureRunId
    else if f.scope.client == Codex then "client_session:codex:" + digest(f.scope.sessionId)
    else "client_session:claude:" + digest(f.scope.sessionId)
  }

  /** The identifier of prepared facts: an actor's is its owner's with its digest, a main stream's its owner's with its
      thread, any other the exchange's own. */
  lemma IdentifierSays(digest: Digest, f: Facts)
    requires Prepared(f)
    ensures f.kind == Agent ==> ProjectionId(digest, f) == Owner(digest, f) + ":agent:" + digest(f.actor)
    ensures f.kind == Main && (f.scope.sessionId == "" || f.scope.threadId == "") ==>
      ProjectionId(digest, f) == Owner(digest, f) + ":main"
    ensures f.kind == Main && f.scope.sessionId != "" && f.scope.threadId != "" ==>
      ProjectionId(digest, f) == Owner(digest, f) + ":thread:" + digest(f.scope.threadId) + ":main"
    ensures f.kind != Agent && f.kind != Main ==> ProjectionId(digest, f) == "exchange:" + f.exchangeId
  {
    hide Prepared;
    PreparedShape(digest, f);
    if f.scope.sessionId != "" { PrefixSays(digest, f.scope); }
  }

  lemma PrefixSays(digest: Digest, scope: Scope)
    requires scope.client.Claude? || scope.client.Codex?
    ensures SessionPrefix(digest, scope.client, scope.sessionId) ==
      if scope.client == Codex then "client_session:codex:" + digest(scope.sessionId)
      else "client_session:claude:" + digest(scope.sessionId)
  {
    assert "client_session:" + "codex" + ":" == "client_session:codex:";
    assert "client_session:" + "claude" + ":" == "client_session:claude:";
  }
}
