/** From prepared facts to references: when one materializes, and which references are of one conversation. */
module ProjectionRefs {
  import opened Wrappers
  import opened Strings
  import opened IdentityEvidence
  import opened ClientIdentity
  import opened ProjectionNames
  import opened ProtocolIdentity
  import opened ProjectionFacts

  // ---------- Characters of identifiers ----------

  /** A letter, a digit, or one of four signs; the colon follows the digits. */
  predicate PlainChar(c: char) {
    '0' <= c <= ':' || 'A' <= c <= 'Z' || 'a' <= c <= 'z' || c == '.' || c == '-' || c == '_'
  }

  predicate Plain(s: string) {
    forall i | 0 <= i < |s| :: PlainChar(s[i])
  }

  /** The digest's alphabet is that of base64url. */
  ghost predicate PlainDigest(digest: Digest) {
    forall s :: Plain(digest(s))
  }

  lemma {:induction false} PlainLength(s: string)
    requires Plain(s)
    ensures Utf8Length(s) == |s|
  {
    if s != [] { PlainLength(s[1..]); }
  }

  lemma PlainConcat(a: string, b: string)
    ensures Plain(a + b) <==> Plain(a) && Plain(b)
  {
    hide PlainChar;
    assert forall i | 0 <= i < |a| :: (a + b)[i] == a[i];
    assert forall i | 0 <= i < |b| :: (a + b)[|a| + i] == b[i];
  }

  /** An identifier is acceptable exactly when it is plain, not empty and within the identity size. */
  lemma ValidIdExactly(id: string)
    ensures ValidProjectionId(id) <==> Plain(id) && 0 < |id| <= MAX_IDENTITY_BYTES
  {
    hide Utf8Length;
    if Plain(id) { PlainLength(id); }
  }

  // ---------- Which names have an acceptable identifier ----------

  const EXCHANGE_ROOM := MAX_IDENTITY_BYTES - 9
  const RUN_MAIN_ROOM := MAX_IDENTITY_BYTES - 17
  const RUN_ACTOR_ROOM := MAX_IDENTITY_BYTES - 19 - DIGEST_LENGTH

  /** Identifiers that spell out an exchange or a capture run take its characters and leave it this room; identifiers of
      client sessions are digests only. */
  predicate NameFits(n: Name) {
    match n
    case Exchange(id) => Plain(id) && |id| <= EXCHANGE_ROOM
    case RunMain(run) => Plain(run) && |run| <= RUN_MAIN_ROOM
    case RunActor(run, _) => Plain(run) && |run| <= RUN_ACTOR_ROOM
    case _ => true
  }

  lemma PlainWords()
    ensures Plain("exchange:") && Plain("capture_run:") && Plain(":main") && Plain(":agent:")
    ensures Plain("client_session:") && Plain(":thread:") && Plain(":") && Plain("claude") && Plain("codex") &&
      Plain("")
  {
  }

  lemma ExchangeFits(digest: Digest, id: string)
    ensures ValidProjectionId(Rendered(digest, Exchange(id))) <==> NameFits(Exchange(id))
  {
    hide Plain, ValidProjectionId;
    PlainWords();
    PlainConcat("exchange:", id);
    ValidIdExactly("exchange:" + id);
  }

  lemma RunMainFits(digest: Digest, run: string)
    ensures ValidProjectionId(Rendered(digest, RunMain(run))) <==> NameFits(RunMain(run))
  {
    hide Plain, ValidProjectionId;
    PlainWords();
    PlainConcat("capture_run:", run);
    PlainConcat("capture_run:" + run, ":main");
    ValidIdExactly("capture_run:" + run + ":main");
  }

  lemma RunActorFits(digest: Digest, run: string, actor: string)
    requires GoodDigest(digest) && PlainDigest(digest)
    ensures ValidProjectionId(Rendered(digest, RunActor(run, actor))) <==> NameFits(RunActor(run, actor))
  {
    hide Plain, ValidProjectionId;
    PlainWords();
    PlainConcat("capture_run:", run);
    PlainConcat("capture_run:" + run, ":agent:");
    PlainConcat("capture_run:" + run + ":agent:", digest(actor));
    ValidIdExactly("capture_run:" + run + ":agent:" + digest(actor));
  }

  lemma PrefixFits(digest: Digest, client: Client, sessionId: string)
    requires GoodDigest(digest) && PlainDigest(digest) && (client.Claude? || client.Codex?)
    ensures Plain(SessionPrefix(digest, client, sessionId)) && 0 < |SessionPrefix(digest, client, sessionId)| <= 65
  {
    hide Plain;
    PlainWords();
    var name := ClientName(client);
    assert Plain(name) && |name| <= 6;
    PlainConcat("client_session:", name);
    PlainConcat("client_session:" + name, ":");
    PlainConcat("client_session:" + name + ":", digest(sessionId));
  }

  lemma SessionFits(digest: Digest, n: Name)
    requires GoodDigest(digest) && PlainDigest(digest) && Nameable(n) && (n.SessionMain? || n.SessionActor?)
    ensures ValidProjectionId(Rendered(digest, n))
  {
    hide Plain, ValidProjectionId, SessionPrefix;
    PlainWords();
    PrefixFits(digest, n.client, n.sessionId);
    var prefix := SessionPrefix(digest, n.client, n.sessionId);
    if n.SessionMain? {
      var thread := if n.threadId == "" then "" else ":thread:" + digest(n.threadId);
      PlainConcat(":thread:", digest(n.threadId));
      PlainConcat(prefix, thread);
      PlainConcat(prefix + thread, ":main");
      ValidIdExactly(prefix + thread + ":main");
    } else {
      PlainConcat(prefix, ":agent:");
      PlainConcat(prefix + ":agent:", digest(n.actorId));
      ValidIdExactly(prefix + ":agent:" + digest(n.actorId));
    }
  }

  lemma NameFitsExactly(digest: Digest, n: Name)
    requires GoodDigest(digest) && PlainDigest(digest) && Nameable(n)
    ensures ValidProjectionId(Rendered(digest, n)) <==> NameFits(n)
  {
    hide Rendered, ValidProjectionId, GoodDigest, PlainDigest;
    match n
    case Exchange(id) => ExchangeFits(digest, id);
    case RunMain(run) => RunMainFits(digest, run);
    case RunActor(run, actor) => RunActorFits(digest, run, actor);
    case _ => SessionFits(digest, n);
  }

  // ---------- References ----------

  lemma PreparedNameable(digest: Digest, f: Facts)
    requires Prepared(f)
    ensures Nameable(NameOf(f))
  {
    hide Prepared;
    PreparedShape(digest, f);
  }

  /** Prepared facts become a reference exactly when the run or exchange that their identifier spells out fits it, and
      the actor and the display name are acceptable text; the reference says what was prepared. */
  lemma MaterializesExactly(digest: Digest, f: Facts)
    requires Prepared(f) && GoodDigest(digest) && PlainDigest(digest)
    ensures Materialize(digest, f).Some? <==>
      NameFits(NameOf(f)) && ValidText(f.displayName, true) && ValidText(f.actor, true)
    ensures Materialize(digest, f).Some? ==>
      Materialize(digest, f).value == Ref(Rendered(digest, NameOf(f)), f.displayName, f.kind, f.evidence, f.actor)
  {
    hide Prepared, ValidProjectionId, ValidText, NameOf, Rendered, ProjectionId, ValidShape, NameFits, GoodDigest,
      PlainDigest;
    PreparedShape(digest, f);
    PreparedNameable(digest, f);
    NameRenders(digest, f);
    NameFitsExactly(digest, NameOf(f));
  }

  // ---------- In terms of the input ----------

  /** The leaf of an actor's path can be shown. */
  predicate LeafShows(actor: string) {
    ValidText(ActorLeaf(actor), true)
  }

  /** On the request route: the actor of the evidence, or the current speaker, who was never validated. */
  predicate RequestShows(request: Request, response: Option<Response>) {
    var actor, scope := ProtocolActor(request.evidence), ScopeOf(request.evidence);
    if actor != "" then LeafShows(actor)
    else if scope.client.Codex? && scope.sessionId != "" then true
    else
      var speaker := CurrentSpeaker(request, response);
      speaker.Speaker? ==> ValidText(speaker.actor, true) && LeafShows(speaker.actor)
  }

  /** What can be seen of an input before it is projected: the name under which its actor would be shown. */
  predicate Presentable(input: Input) {
    if input.captureRunId == "" then true
    else if input.identity.Some? then
      var identity := input.identity.value;
      identity.actorId == "" || identity.actorLabel != "" || LeafShows(identity.actorId)
    else input.request.Some? ==> RequestShows(input.request.value, input.response)
  }

  lemma {:induction false} LookupValid(values: seq<Evidence>, name: string)
    requires forall i | 0 <= i < |values| :: ValidText(values[i].value, false)
    ensures ValidText(Lookup(values, name), true)
  {
    hide ValidText;
    if values == [] {
      EmptyText();
    } else {
      WeakerText(values[|values| - 1].value);
      LookupValid(values[..|values| - 1], name);
    }
  }

  lemma EmptyText()
    ensures ValidText("", true)
  {
  }

  lemma WeakerText(value: string)
    ensures ValidText(value, false) ==> ValidText(value, true)
  {
  }

  lemma ActorValid(values: seq<Evidence>)
    ensures ValidText(ProtocolActor(values), true)
  {
    hide ValidText, Lookup, NamesAscend, ValidName;
    EmptyText();
    if ValidProtocolEvidence(values) { LookupValid(values, CLAUDE_AGENT); }
  }

  ghost predicate Presents(f: Facts) {
    ValidText(f.displayName, true) && ValidText(f.actor, true)
  }

  lemma RequestPresents(input: Input, request: Request)
    requires ValidText(input.sourceDisplayName, true)
    ensures Presents(FromRequest(input, request)) <==> RequestShows(request, input.response)
  {
    hide ValidText, ActorLeaf, CurrentSpeaker, ProtocolActor, ScopeOf, AssertsSubagent;
    EmptyText();
    ActorValid(request.evidence);
  }

  lemma IdentityPresents(input: Input, identity: Identity)
    requires ValidText(input.sourceDisplayName, true) && Valid(identity)
    ensures Presents(FromIdentity(input, identity)) <==>
      identity.actorId == "" || identity.actorLabel != "" || LeafShows(identity.actorId)
  {
    hide ValidText, ActorLeaf, ScopeOfIdentity, Canonical;
    EmptyText();
  }

  /** An input whose facts can be prepared becomes a reference exactly when the run or exchange that the identifier
      spells out fits it and the actor can be shown. */
  lemma ProjectsExactly(digest: Digest, input: Input)
    requires Prepare(input).Some? && GoodDigest(digest) && PlainDigest(digest)
    ensures Materialize(digest, Prepare(input).value).Some? <==>
      NameFits(NameOf(Prepare(input).value)) && Presentable(input)
  {
    hide GoodDigest, PlainDigest, Materialize, NameFits, NameOf, FromRequest, FromIdentity, Valid, ValidText,
      RequestShows, LeafShows;
    var f := Prepare(input).value;
    assert Prepared(f);
    MaterializesExactly(digest, f);
    EmptyText();
    assert ValidText(input.sourceDisplayName, true);
    if input.identity.Some? && Valid(input.identity.value) { IdentityPresents(input, input.identity.value); }
    if input.request.Some? { RequestPresents(input, input.request.value); }
  }

  /** Two references share a projection exactly when their facts name the same conversation. */
  lemma SharedReference(digest: Digest, f: Facts, g: Facts)
    requires Prepared(f) && Prepared(g) && Materialize(digest, f).Some? && Materialize(digest, g).Some?
    requires GoodDigest(digest) && CollisionFree(digest, Digested(NameOf(f)) + Digested(NameOf(g)))
    ensures Materialize(digest, f).value.projectionId == Materialize(digest, g).value.projectionId <==>
      NameOf(f) == NameOf(g)
  {
    hide Prepared, GoodDigest, CollisionFree, ValidRef, ProjectionId, NameOf;
    SharedProjection(digest, f, g);
  }
}
