/** From an exchange to its conversation reference, through client identity or through request evidence. */
module ProjectionFacts {
  import opened Wrappers
  import opened Strings
  import opened IdentityEvidence
  import opened ClientIdentity
  import opened ProjectionNames
  import opened ProtocolIdentity

  datatype AgentContext = AgentContext(agentName: string, author: string)

  datatype Block = Block(agent: Option<AgentContext>, isText: bool, text: string)

  datatype Message = Message(isSystem: bool, agent: Option<AgentContext>, blocks: seq<Block>)

  datatype Request = Request(evidence: seq<Evidence>, system: seq<Block>, messages: seq<Message>)

  datatype Response = Response(blocks: seq<Block>)

  datatype Input = Input(
    captureRunId: string, exchangeId: string, sourceDisplayName: string,
    request: Option<Request>, response: Option<Response>, identity: Option<Identity>)

  datatype Naming = ByExchange | ByMain | ByActor

  datatype Facts = Facts(
    kind: Kind, evidence: EvidenceKind, actor: string, displayName: string,
    captureRunId: string, exchangeId: string, scope: Scope, naming: Naming)

  datatype Ref = Ref(projectionId: string, displayName: string, kind: Kind, evidence: EvidenceKind, actor: string)

  // ---------- Who speaks ----------

  function Producer(agent: Option<AgentContext>): string {
    if agent.None? then "" else if agent.value.agentName != "" then agent.value.agentName else agent.value.author
  }

  function Producers(blocks: seq<Block>): (r: seq<string>)
    ensures |r| == |blocks| && forall i | 0 <= i < |blocks| :: r[i] == Producer(blocks[i].agent)
  {
    seq(|blocks|, i requires 0 <= i < |blocks| => Producer(blocks[i].agent))
  }

  datatype Verdict = Silent | Speaker(actor: string) | Ambiguous

  function Consider(v: Verdict, actor: string): Verdict {
    if actor == "" then v
    else match v
      case Silent => Speaker(actor)
      case Speaker(a) => if a == actor then v else Ambiguous
      case Ambiguous => Ambiguous
  }

  function Heard(producers: seq<string>): Verdict {
    if producers == [] then Silent else Consider(Heard(producers[..|producers| - 1]), producers[|producers| - 1])
  }

  ghost predicate AllSilent(producers: seq<string>) {
    forall p | p in producers :: p == ""
  }

  ghost predicate OnlyNames(producers: seq<string>, actor: string) {
    actor != "" && actor in producers && forall p | p in producers :: p == "" || p == actor
  }

  ghost predicate Disagree(producers: seq<string>) {
    exists p, q | p in producers && q in producers :: p != "" && q != "" && p != q
  }

  /** The verdict fits what the producers say. */
  ghost predicate Fitting(producers: seq<string>, v: Verdict) {
    match v
    case Silent => AllSilent(producers)
    case Speaker(actor) => OnlyNames(producers, actor)
    case Ambiguous => Disagree(producers)
  }

  lemma OneMore(before: seq<string>, actor: string)
    ensures forall p :: p in before + [actor] <==> p in before || p == actor
  {
  }

  lemma SilentStep(before: seq<string>, actor: string)
    requires AllSilent(before)
    ensures if actor == "" then AllSilent(before + [actor]) else OnlyNames(before + [actor], actor)
  {
    OneMore(before, actor);
  }

  lemma SpeakerStep(before: seq<string>, speaker: string, actor: string)
    requires OnlyNames(before, speaker)
    ensures
      if actor == "" || actor == speaker then OnlyNames(before + [actor], speaker) else Disagree(before + [actor])
  {
    OneMore(before, actor);
    assert speaker in before + [actor] && actor in before + [actor];
  }

  lemma DisagreeStep(before: seq<string>, actor: string)
    requires Disagree(before)
    ensures Disagree(before + [actor])
  {
    OneMore(before, actor);
    var p, q :| p in before && q in before && p != "" && q != "" && p != q;
    assert p in before + [actor] && q in before + [actor];
  }

  lemma FittingStep(before: seq<string>, v: Verdict, actor: string)
    requires Fitting(before, v)
    ensures Fitting(before + [actor], Consider(v, actor))
  {
    hide AllSilent, OnlyNames, Disagree;
    match v
    case Silent => SilentStep(before, actor);
    case Speaker(speaker) => SpeakerStep(before, speaker, actor);
    case Ambiguous => DisagreeStep(before, actor);
  }

  lemma {:induction false} HeardFits(producers: seq<string>)
    ensures Fitting(producers, Heard(producers))
  {
    hide Fitting, Consider;
    if producers == [] {
      NobodyFits();
    } else {
      var n := |producers| - 1;
      HeardFits(producers[..n]);
      FittingStep(producers[..n], Heard(producers[..n]), producers[n]);
      assert producers == producers[..n] + [producers[n]];
    }
  }

  lemma NobodyFits()
    ensures Fitting([], Silent)
  {
  }

  /** Nobody, the one actor that everyone who names an actor names, or several. */
  lemma HeardMeans(producers: seq<string>)
    ensures Heard(producers).Silent? <==> AllSilent(producers)
    ensures Heard(producers).Speaker? ==> OnlyNames(producers, Heard(producers).actor)
    ensures Heard(producers).Ambiguous? <==> Disagree(producers)
  {
    hide Heard;
    HeardFits(producers);
  }

  function MessageVerdict(m: Message): Verdict {
    Heard([Producer(m.agent)] + Producers(m.blocks))
  }

  /** The newest message that names anyone decides. */
  function LatestVerdict(messages: seq<Message>): Verdict {
    if messages == [] then Silent
    else
      var v := MessageVerdict(messages[|messages| - 1]);
      if v.Silent? then LatestVerdict(messages[..|messages| - 1]) else v
  }

  function CurrentSpeaker(request: Request, response: Option<Response>): Verdict {
    if response.Some? && !Heard(Producers(response.value.blocks)).Silent? then Heard(Producers(response.value.blocks))
    else LatestVerdict(request.messages)
  }

  method Hear(producers: seq<string>) returns (candidate: string, ambiguous: bool)
    ensures match Heard(producers)
      case Silent => candidate == "" && !ambiguous
      case Speaker(a) => candidate == a && candidate != "" && !ambiguous
      case Ambiguous => ambiguous
  {
    candidate, ambiguous := "", false;
    for i := 0 to |producers|
      invariant match Heard(producers[..i])
        case Silent => candidate == "" && !ambiguous
        case Speaker(a) => candidate == a && candidate != "" && !ambiguous
        case Ambiguous => candidate != "" && ambiguous
    {
      assert producers[..i + 1][..i] == producers[..i];
      if producers[i] != "" {
        if candidate == "" { candidate := producers[i]; } else if candidate != producers[i] { ambiguous := true; }
      }
    }
    assert producers[..|producers|] == producers;
  }

  method ExplicitCurrentActor(request: Request, response: Option<Response>) returns (actor: string, ambiguous: bool)
    ensures match CurrentSpeaker(request, response)
      case Silent => actor == "" && !ambiguous
      case Speaker(a) => actor == a && actor != "" && !ambiguous
      case Ambiguous => actor == "" && ambiguous
  {
    hide Heard;
    if response.Some? {
      actor, ambiguous := Hear(Producers(response.value.blocks));
      if ambiguous { return "", true; }
      if actor != "" { return; }
    }
    assert request.messages[..|request.messages|] == request.messages;
    for index := |request.messages| downto 0
      invariant LatestVerdict(request.messages) == LatestVerdict(request.messages[..index])
    {
      assert request.messages[..index + 1][..index] == request.messages[..index];
      actor, ambiguous := Hear([Producer(request.messages[index].agent)] + Producers(request.messages[index].blocks));
      if ambiguous { return "", true; }
      if actor != "" { return; }
    }
    return "", false;
  }

  const SUBAGENT_MARKER := "cc_is_subagent=true"

  predicate OccursAt(s: string, part: string, i: nat) {
    i + |part| <= |s| && s[i..i + |part|] == part
  }

  predicate Contains(s: string, part: string) {
    exists i | 0 <= i <= |s| :: OccursAt(s, part, i)
  }

  predicate Marked(blocks: seq<Block>) {
    exists i | 0 <= i < |blocks| :: blocks[i].isText && Contains(blocks[i].text, SUBAGENT_MARKER)
  }

  predicate AssertsSubagent(request: Request) {
    Marked(request.system) ||
    exists i | 0 <= i < |request.messages| :: request.messages[i].isSystem && Marked(request.messages[i].blocks)
  }

  // ---------- Scope of an identity ----------

  predicate ThreadName(name: string) {
    name == OPENAI_THREAD || name == CODEX_THREAD
  }

  /** The first thread value, empty when there is none. */
  function FirstThread(values: seq<Evidence>): string {
    if values == [] then "" else if ThreadName(values[0].name) then values[0].value else FirstThread(values[1..])
  }

  function ScopeOfIdentity(identity: Identity): Scope {
    Scope(identity.client, identity.sessionId, if identity.client.Codex? then FirstThread(identity.protocolIds) else "")
  }

  method IdentityScope(identity: Identity) returns (scope: Scope)
    requires forall i | 0 <= i < |identity.protocolIds| :: identity.protocolIds[i].value != ""
    ensures scope == ScopeOfIdentity(identity)
  {
    hide ThreadName;
    scope := Scope(identity.client, identity.sessionId, "");
    for i := 0 to |identity.protocolIds|
      invariant scope == Scope(identity.client, identity.sessionId, scope.threadId)
      invariant !identity.client.Codex? ==> scope.threadId == ""
      invariant identity.client.Codex? ==>
        FirstThread(identity.protocolIds) ==
        if scope.threadId != "" then scope.threadId else FirstThread(identity.protocolIds[i..])
    {
      var value := identity.protocolIds[i];
      assert identity.protocolIds[i..][1..] == identity.protocolIds[i + 1..];
      if identity.client.Codex? && ThreadName(value.name) {
        if scope.threadId == "" || scope.threadId == value.value {
          scope := scope.(threadId := value.value);
        }
      }
    }
  }

  // ---------- Preparing and materializing ----------

  function TrimSlashes(s: string): string {
    if s != "" && s[|s| - 1] == '/' then TrimSlashes(s[..|s| - 1]) else s
  }

  function AfterLastSlash(s: string): string {
    if s == "" || s[|s| - 1] == '/' then "" else AfterLastSlash(s[..|s| - 1]) + [s[|s| - 1]]
  }

  /** The last path segment of an actor, or the actor itself when there is none. */
  function ActorLeaf(actor: string): string {
    if '/' in TrimSlashes(actor) && AfterLastSlash(TrimSlashes(actor)) != "" then AfterLastSlash(TrimSlashes(actor))
    else actor
  }

  predicate ValidInput(input: Input) {
    ValidText(input.exchangeId, false) && ValidText(input.captureRunId, true) &&
      ValidText(input.sourceDisplayName, true)
  }

  function Isolated(input: Input, scope: Scope, kind: Kind, evidence: EvidenceKind): Facts {
    Facts(kind, evidence, "", "", input.captureRunId, input.exchangeId, scope, ByExchange)
  }

  function ActorFacts(input: Input, scope: Scope, id: string, title: string): Facts {
    Facts(Agent, ExplicitActor, id, title, input.captureRunId, input.exchangeId, scope, ByActor)
  }

  function MainFacts(input: Input, scope: Scope): Facts {
    Facts(Main, if scope.sessionId == "" then CaptureRun else ExplicitSession, "", input.sourceDisplayName,
          input.captureRunId, input.exchangeId, scope, ByMain)
  }

  function FromIdentity(input: Input, identity: Identity): Facts {
    var scope := ScopeOfIdentity(identity);
    if identity.actorId == "" then MainFacts(input, scope)
    else
      ActorFacts(input, scope, identity.actorId,
                 if identity.actorLabel == "" then ActorLeaf(identity.actorId) else identity.actorLabel)
  }

  function FromRequest(input: Input, request: Request): Facts {
    var scope := ScopeOf(request.evidence);
    var id := ProtocolActor(request.evidence);
    if id != "" then ActorFacts(input, scope, id, ActorLeaf(id))
    else if scope.client.Codex? && scope.sessionId != "" then MainFacts(input, scope)
    else
      var speaker := CurrentSpeaker(request, input.response);
      if speaker.Speaker? then ActorFacts(input, scope, speaker.actor, ActorLeaf(speaker.actor))
      else if AssertsSubagent(request) then Isolated(input, scope, IsolatedSubagent, ClientAssertedSubagent)
      else if speaker.Ambiguous? then Isolated(input, scope, IsolatedExchange, AmbiguousActor)
      else MainFacts(input, scope)
  }

  function Prepare(input: Input): Option<Facts> {
    if !ValidInput(input) then None
    else if input.captureRunId == "" then Some(Isolated(input, NO_SCOPE, IsolatedExchange, ExchangeBoundary))
    else if input.identity.Some? then
      if Valid(input.identity.value) then Some(FromIdentity(input, input.identity.value)) else None
    else if input.request.None? then Some(Isolated(input, NO_SCOPE, IsolatedExchange, UndecodedExchange))
    else Some(FromRequest(input, input.request.value))
  }

  function Pending(exchangeId: string): Option<Facts> {
    if ValidText(exchangeId, false)
    then Some(Facts(PendingExchange, PendingEvidence, "", "", "", exchangeId, NO_SCOPE, ByExchange)) else None
  }

  predicate IsProjectionChar(c: char) {
    'a' <= c <= 'z' || 'A' <= c <= 'Z' || '0' <= c <= '9' || c == '_' || c == '-' || c == '.' || c == ':'
  }

  predicate ValidProjectionId(id: string) {
    ValidText(id, false) && forall i | 0 <= i < |id| :: IsProjectionChar(id[i])
  }

  /** The evidence and actor that each kind admits. */
  predicate ValidShape(kind: Kind, evidence: EvidenceKind, actor: string) {
    match kind
    case PendingExchange => evidence.PendingEvidence? && actor == ""
    case Main => (evidence.CaptureRun? || evidence.ExplicitSession?) && actor == ""
    case Agent => evidence.ExplicitActor? && actor != ""
    case IsolatedSubagent => evidence.ClientAssertedSubagent? && actor == ""
    case IsolatedExchange =>
      (evidence.AmbiguousActor? || evidence.UndecodedExchange? || evidence.ExchangeBoundary?) && actor == ""
  }

  predicate ValidRef(ref: Ref) {
    && ValidProjectionId(ref.projectionId) && ValidText(ref.displayName, true) && ValidText(ref.actor, true)
    && ValidShape(ref.kind, ref.evidence, ref.actor)
  }

  function ProjectionId(digest: Digest, f: Facts): string {
    match f.naming
    case ByMain => MainProjection(digest, f.captureRunId, f.scope).0
    case ByActor => ActorProjection(digest, f.captureRunId, f.scope, f.actor)
    case ByExchange => ExchangeProjection(f.exchangeId)
  }

  function Materialize(digest: Digest, f: Facts): Option<Ref> {
    var ref := Ref(ProjectionId(digest, f), f.displayName, f.kind, f.evidence, f.actor);
    if ValidRef(ref) then Some(ref) else None
  }

  // ---------- What prepared facts guarantee ----------

  /** Facts that Prepare or Pending can produce. */
  ghost predicate Prepared(f: Facts) {
    (exists input :: Prepare(input) == Some(f)) || (exists id :: Pending(id) == Some(f))
  }

  ghost predicate Shaped(f: Facts) {
    && ValidShape(f.kind, f.evidence, f.actor)
    && (f.naming.ByMain? ==> f.evidence == if f.scope.sessionId == "" then CaptureRun else ExplicitSession)
    && (f.naming.ByMain? <==> f.kind.Main?) && (f.naming.ByActor? <==> f.kind.Agent?)
    && (f.scope.sessionId != "" ==> f.scope.client.Claude? || f.scope.client.Codex?)
  }

  lemma RequestShaped(input: Input, request: Request)
    ensures Shaped(FromRequest(input, request))
  {
    hide ActorLeaf, CurrentSpeaker, AssertsSubagent, ProtocolActor, ScopeOf;
    ScopeClient(request.evidence);
    SpeakerNamed(request, input.response);
  }

  lemma IdentityShaped(input: Input, identity: Identity)
    requires Valid(identity)
    ensures Shaped(FromIdentity(input, identity))
  {
    hide ActorLeaf, FirstThread, Valid;
    IdentityClient(identity);
  }

  lemma PreparedIsShaped(f: Facts)
    requires Prepared(f)
    ensures Shaped(f)
  {
    hide FromRequest, FromIdentity, ValidInput, Valid, Shaped, ValidText;
    if input :| Prepare(input) == Some(f) {
      if input.request.Some? { RequestShaped(input, input.request.value); }
      if input.identity.Some? && Valid(input.identity.value) { IdentityShaped(input, input.identity.value); }
      IsolatedShaped(input);
    } else {
      var id :| Pending(id) == Some(f);
      PendingShaped(id);
    }
  }

  lemma IsolatedShaped(input: Input)
    ensures Shaped(Isolated(input, NO_SCOPE, IsolatedExchange, ExchangeBoundary))
    ensures Shaped(Isolated(input, NO_SCOPE, IsolatedExchange, UndecodedExchange))
  {
  }

  lemma PendingShaped(id: string)
    ensures Pending(id).Some? ==> Shaped(Pending(id).value)
  {
  }

  /** Every prepared reference has an admissible shape, its evidence is the one its main identifier implies, and
      a session scope belongs to a supported client. */
  lemma PreparedShape(digest: Digest, f: Facts)
    requires Prepared(f)
    ensures ValidShape(f.kind, f.evidence, f.actor)
    ensures f.naming.ByMain? ==> f.evidence == MainProjection(digest, f.captureRunId, f.scope).1
    ensures f.naming.ByMain? <==> f.kind.Main?
    ensures f.naming.ByActor? <==> f.kind.Agent?
    ensures f.scope.sessionId != "" ==> f.scope.client.Claude? || f.scope.client.Codex?
  {
    hide Prepared, ValidShape;
    PreparedIsShaped(f);
  }

  lemma IdentityClient(i: Identity)
    requires Valid(i)
    ensures i.client.Claude? || i.client.Codex?
  {
  }

  lemma SpeakerNamed(request: Request, response: Option<Response>)
    ensures var v := CurrentSpeaker(request, response); v.Speaker? ==> v.actor != ""
  {
    hide Heard;
    LatestNamed(request.messages);
    if response.Some? { HeardMeans(Producers(response.value.blocks)); }
  }

  lemma {:induction false} LatestNamed(messages: seq<Message>)
    ensures LatestVerdict(messages).Speaker? ==> LatestVerdict(messages).actor != ""
  {
    hide Heard;
    if messages != [] {
      var m := messages[|messages| - 1];
      HeardMeans([Producer(m.agent)] + Producers(m.blocks));
      LatestNamed(messages[..|messages| - 1]);
    }
  }

  lemma {:induction false} ScanClient(values: seq<Evidence>)
    ensures ScanScope(values).Some? ==>
      var scope := ScanScope(values).value;
      scope == NO_SCOPE || scope.client.Claude? || scope.client.Codex?
  {
    if values != [] { ScanClient(values[..|values| - 1]); }
  }

  lemma ScopeClient(values: seq<Evidence>)
    ensures ScopeOf(values).sessionId != "" ==> ScopeOf(values).client.Claude? || ScopeOf(values).client.Codex?
  {
    hide ScanScope, ValidProtocolEvidence;
    ScanClient(values);
  }

  /** What a prepared reference names. */
  function NameOf(f: Facts): Name {
    match f.naming
    case ByExchange => Exchange(f.exchangeId)
    case ByMain =>
      if f.scope.sessionId == "" then RunMain(f.captureRunId)
      else SessionMain(f.scope.client, f.scope.sessionId, f.scope.threadId)
    case ByActor =>
      if f.scope.sessionId == "" then RunActor(f.captureRunId, f.actor)
      else SessionActor(f.scope.client, f.scope.sessionId, f.actor)
  }

  /** Two prepared references share a projection exactly when they name the same conversation. */
  lemma SharedProjection(digest: Digest, f: Facts, g: Facts)
    requires Prepared(f) && Prepared(g)
    requires GoodDigest(digest) && CollisionFree(digest, Digested(NameOf(f)) + Digested(NameOf(g)))
    ensures ProjectionId(digest, f) == ProjectionId(digest, g) <==> NameOf(f) == NameOf(g)
  {
    hide Prepared, GoodDigest, CollisionFree;
    PreparedShape(digest, f);
    PreparedShape(digest, g);
    NameRenders(digest, f);
    NameRenders(digest, g);
    hide ProjectionId;
    SameIdentifierSameName(digest, NameOf(f), NameOf(g));
  }

  lemma NameRenders(digest: Digest, f: Facts)
    ensures ProjectionId(digest, f) == Rendered(digest, NameOf(f))
  {
  }

  // ---------- Two routes to one reference ----------

  /** Evidence that uses the client's own names only. */
  predicate NoAliases(values: seq<Evidence>) {
    forall i | 0 <= i < |values| :: values[i].name != CODEX_SESSION && values[i].name != CODEX_THREAD
  }

  predicate OneClient(values: seq<Evidence>) {
    !(Mentions(values, CodexName) && Mentions(values, ClaudeName))
  }

  predicate NonEmpty(values: seq<Evidence>) {
    forall i | 0 <= i < |values| :: values[i].value != ""
  }

  lemma PrefixScans(values: seq<Evidence>, n: nat)
    requires n <= |values| && NamesAscend(values) && NoAliases(values) && OneClient(values) && NonEmpty(values)
    ensures NamesAscend(values[..n]) && NoAliases(values[..n]) && OneClient(values[..n]) && NonEmpty(values[..n])
  {
    hide ClaudeName, CodexName;
    if i :| 0 <= i < n && CodexName(values[..n][i].name) { assert CodexName(values[i].name); }
    if i :| 0 <= i < n && ClaudeName(values[..n][i].name) { assert ClaudeName(values[i].name); }
  }

  /** The scanned scope in terms of what each name says. */
  lemma {:induction false} ScanByName(values: seq<Evidence>)
    requires NamesAscend(values) && NoAliases(values) && OneClient(values) && NonEmpty(values)
    ensures ScanScope(values) == Some(Scope(
      if Lookup(values, OPENAI_SESSION) != "" || Lookup(values, OPENAI_THREAD) != "" then Codex
      else if Lookup(values, CLAUDE_SESSION) != "" then Claude else NoClient,
      if Lookup(values, OPENAI_SESSION) != "" then Lookup(values, OPENAI_SESSION) else Lookup(values, CLAUDE_SESSION),
      Lookup(values, OPENAI_THREAD)))
    ensures Lookup(values, CLAUDE_SESSION) != "" ==>
      Lookup(values, OPENAI_SESSION) == "" && Lookup(values, OPENAI_THREAD) == ""
  {
    if values != [] {
      var n := |values| - 1;
      PrefixScans(values, n);
      ScanByName(values[..n]);
      LastFresh(values);
      OneFamily(values, CLAUDE_SESSION, OPENAI_SESSION);
      OneFamily(values, CLAUDE_SESSION, OPENAI_THREAD);
    }
  }

  lemma LastFresh(values: seq<Evidence>)
    requires NamesAscend(values) && values != []
    ensures Lookup(values[..|values| - 1], values[|values| - 1].name) == ""
  {
    FreshName(values, |values| - 1);
    LookupAbsent(values[..|values| - 1], values[|values| - 1].name);
  }

  /** A name with a value is mentioned. */
  lemma {:induction false} LookupMentions(values: seq<Evidence>, name: string)
    ensures Lookup(values, name) != "" ==> exists i | 0 <= i < |values| :: values[i].name == name
  {
    if values != [] && values[|values| - 1].name != name {
      var before := values[..|values| - 1];
      LookupMentions(before, name);
      if i :| 0 <= i < |before| && before[i].name == name { assert values[i].name == name; }
    }
  }

  lemma OneFamily(values: seq<Evidence>, claude: string, codex: string)
    requires OneClient(values) && ClaudeName(claude) && CodexName(codex)
    ensures Lookup(values, claude) == "" || Lookup(values, codex) == ""
  {
    hide ClaudeName, CodexName;
    LookupMentions(values, claude);
    LookupMentions(values, codex);
    if i :| 0 <= i < |values| && values[i].name == claude { assert ClaudeName(values[i].name); }
    if i :| 0 <= i < |values| && values[i].name == codex { assert CodexName(values[i].name); }
  }

  /** The evidence's only thread name is the given one. */
  predicate OnlyThread(values: seq<Evidence>, thread: string) {
    CodexName(thread) && forall i | 0 <= i < |values| :: ThreadName(values[i].name) <==> values[i].name == thread
  }

  lemma {:induction false} NativeThreadNamed(values: seq<Evidence>, thread: string)
    requires NamesAscend(values) && NonEmpty(values) && OnlyThread(values, thread)
    ensures FirstThread(NativeIds(values)) == Lookup(values, thread)
  {
    hide ThreadName, CodexName, ClaudeName, Less, FirstThread;
    NoThread();
    if values != [] {
      var n := |values| - 1;
      NativeThreadNamed(values[..n], thread);
      LastFresh(values);
      var ids := NativeIds(values[..n]);
      FirstThreadAppend(ids, values[n]);
      NativeNonEmpty(values[..n]);
      assert ids + [] == ids;
      assert ThreadName(values[n].name) <==> values[n].name == thread;
    }
  }

  lemma NoThread()
    ensures NativeIds([]) == [] && FirstThread([]) == ""
  {
  }

  lemma NativeThread(values: seq<Evidence>)
    requires NamesAscend(values) && NoAliases(values) && NonEmpty(values)
    ensures FirstThread(NativeIds(values)) == Lookup(values, OPENAI_THREAD)
  {
    hide FirstThread, NativeIds, Lookup;
    NativeThreadNamed(values, OPENAI_THREAD);
  }

  lemma NativeNonEmpty(values: seq<Evidence>)
    requires NonEmpty(values)
    ensures NonEmpty(NativeIds(values))
  {
    var ids := NativeIds(values);
    forall i | 0 <= i < |ids| ensures ids[i].value != "" { assert ids[i] in values; }
  }

  lemma {:induction false} FirstThreadAppend(values: seq<Evidence>, x: Evidence)
    requires NonEmpty(values)
    ensures FirstThread(values + [x]) ==
      if FirstThread(values) != "" then FirstThread(values) else if ThreadName(x.name) then x.value else ""
  {
    hide ThreadName;
    if values == [] {
      assert values + [x] == [x];
    } else {
      assert (values + [x])[1..] == values[1..] + [x];
      FirstThreadAppend(values[1..], x);
    }
  }

  /** The scope read from the evidence is the scope of the identity that the evidence advertises. */
  lemma ScopeAgrees(values: seq<Evidence>, providerResponseId: string, observedAt: int)
    requires NoAliases(values) && Advertises(values, providerResponseId, observedAt)
    ensures ScopeOf(values) == ScopeOfIdentity(Advertised(values, providerResponseId, observedAt))
  {
    ScanByName(values);
    NativeThread(values);
  }

  /** What the two routes must not hear from the exchange for a Claude main stream. */
  predicate Unmarked(request: Request, response: Option<Response>) {
    CurrentSpeaker(request, response).Silent? && !AssertsSubagent(request)
  }

  /** Projecting through the advertised identity and projecting from the request evidence give the same facts
      exactly when the client is Codex, or an agent is named, or the exchange carries no actor or subagent marker;
      otherwise the two references differ in kind. */
  lemma RoutesAgree(input: Input, observedAt: int, providerResponseId: string)
    requires ValidInput(input) && input.request.Some?
    requires NoAliases(input.request.value.evidence)
    requires FromProtocol(input.request.value.evidence, providerResponseId, observedAt).Some?
    ensures
      var request := input.request.value;
      var identity := FromProtocol(request.evidence, providerResponseId, observedAt).value;
      Prepare(input.(identity := Some(identity))) == Prepare(input.(identity := None)) <==>
        input.captureRunId == "" || identity.client.Codex? || identity.actorId != "" ||
          Unmarked(request, input.response)
    ensures
      var identity := FromProtocol(input.request.value.evidence, providerResponseId, observedAt).value;
      var through, direct := Prepare(input.(identity := Some(identity))), Prepare(input.(identity := None));
      through.Some? && direct.Some? && (through != direct ==> through.value.kind.Main? && !direct.value.kind.Main?)
  {
    hide FromProtocol, ScopeOf, ScopeOfIdentity, ActorLeaf, CurrentSpeaker, AssertsSubagent, ProtocolActor, Valid,
      ValidText, NoAliases;
    AdvertisedFacts(input.request.value.evidence, providerResponseId, observedAt);
    SpeakerNamed(input.request.value, input.response);
  }

  /** What an advertised identity has in common with its evidence. */
  lemma AdvertisedFacts(values: seq<Evidence>, providerResponseId: string, observedAt: int)
    requires NoAliases(values) && FromProtocol(values, providerResponseId, observedAt).Some?
    ensures
      var identity := FromProtocol(values, providerResponseId, observedAt).value;
      && Valid(identity) && identity.actorId == ProtocolActor(values) && identity.actorLabel == ""
      && ScopeOfIdentity(identity) == ScopeOf(values)
      && ScopeOf(values).client == identity.client && ScopeOf(values).sessionId != ""
  {
    hide NoAliases, Valid, Lookup, NativeIds, FirstThread, ScopeOf, Mentions;
    ScopeAgrees(values, providerResponseId, observedAt);
  }
}
