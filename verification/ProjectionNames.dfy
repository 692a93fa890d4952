/** Conversation projection identifiers: which two references share one. */
module ProjectionNames {
  import opened ClientIdentity

  datatype Scope = Scope(client: Client, sessionId: string, threadId: string)

  const NO_SCOPE := Scope(NoClient, "", "")

  datatype Kind = PendingExchange | Main | Agent | IsolatedSubagent | IsolatedExchange

  datatype EvidenceKind =
    | PendingEvidence | CaptureRun | ExplicitSession | ExplicitActor | ClientAssertedSubagent
    | AmbiguousActor | UndecodedExchange | ExchangeBoundary

  /** The digest of opaque identifiers: an arbitrary function with the shape of base64url SHA-256. */
  type Digest = string -> string

  const DIGEST_LENGTH := 43

  ghost predicate GoodDigest(digest: Digest) {
    forall s :: |digest(s)| == DIGEST_LENGTH && ':' !in digest(s)
  }

  function ClientName(client: Client): string {
    match client
    case NoClient => ""
    case Claude => "claude"
    case Codex => "codex"
    case OtherClient(name) => name
  }

  function SessionPrefix(digest: Digest, client: Client, sessionId: string): string {
    "client_session:" + ClientName(client) + ":" + digest(sessionId)
  }

  function MainProjection(digest: Digest, captureRunId: string, scope: Scope): (string, EvidenceKind) {
    if scope.sessionId == "" then ("capture_run:" + captureRunId + ":main", CaptureRun)
    else
      var thread := if scope.threadId == "" then "" else ":thread:" + digest(scope.threadId);
      (SessionPrefix(digest, scope.client, scope.sessionId) + thread + ":main", ExplicitSession)
  }

  function ActorProjection(digest: Digest, captureRunId: string, scope: Scope, actorId: string): string {
    (if scope.sessionId == "" then "capture_run:" + captureRunId
     else SessionPrefix(digest, scope.client, scope.sessionId)) + ":agent:" + digest(actorId)
  }

  function ExchangeProjection(exchangeId: string): string {
    "exchange:" + exchangeId
  }

  /** What an identifier stands for. */
  datatype Name =
    | Exchange(exchangeId: string)
    | RunMain(captureRunId: string)
    | SessionMain(client: Client, sessionId: string, threadId: string)
    | RunActor(captureRunId: string, actorId: string)
    | SessionActor(client: Client, sessionId: string, actorId: string)

  function Rendered(digest: Digest, n: Name): string {
    match n
    case Exchange(id) => ExchangeProjection(id)
    case RunMain(run) => MainProjection(digest, run, NO_SCOPE).0
    case SessionMain(client, session, thread) => MainProjection(digest, "", Scope(client, session, thread)).0
    case RunActor(run, actor) => ActorProjection(digest, run, NO_SCOPE, actor)
    case SessionActor(client, session, actor) => ActorProjection(digest, "", Scope(client, session, ""), actor)
  }

  /** Names that references can have: known clients and non-empty sessions. */
  predicate Nameable(n: Name) {
    n.SessionMain? || n.SessionActor? ==> (n.client.Claude? || n.client.Codex?) && n.sessionId != ""
  }

  /** The opaque values a name digests. */
  function Digested(n: Name): set<string> {
    match n
    case Exchange(_) => {}
    case RunMain(_) => {}
    case SessionMain(_, session, thread) => {session, thread}
    case RunActor(_, actor) => {actor}
    case SessionActor(_, session, actor) => {session, actor}
  }

  /** No two of the given values collide; that no two strings at all do is impossible for a fixed length. */
  ghost predicate CollisionFree(digest: Digest, values: set<string>) {
    forall x, y | x in values && y in values && digest(x) == digest(y) :: x == y
  }

  // ---------- Reading identifiers apart ----------

  /** Equal concatenations with equally long first parts agree part by part. */
  lemma SplitFront(a: string, b: string, c: string, d: string)
    requires a + b == c + d && |a| == |c|
    ensures a == c && b == d
  {
    assert a == (a + b)[..|a|] && c == (c + d)[..|c|];
    assert b == (a + b)[|a|..] && d == (c + d)[|c|..];
  }

  lemma SplitBack(a: string, b: string, c: string, d: string)
    requires a + b == c + d && |b| == |d|
    ensures a == c && b == d
  {
    assert |a| == |c|;
    SplitFront(a, b, c, d);
  }

  /** A colon-free tail of digest length cannot end in ":main". */
  lemma MainIsNotDigest(a: string, b: string, d: string)
    requires |d| == DIGEST_LENGTH && ':' !in d
    ensures a + ":main" != b + d
  {
    if |a| + 5 == |b| + DIGEST_LENGTH {
      var i := |a| - |b|;
      assert d[i] in d;
      assert (b + d)[|a|] == d[i] && (a + ":main")[|a|] == ':';
    }
  }

  lemma RunMainInjective(digest: Digest, a: string, b: string)
    requires Rendered(digest, RunMain(a)) == Rendered(digest, RunMain(b))
    ensures a == b
  {
    SplitBack("capture_run:" + a, ":main", "capture_run:" + b, ":main");
    SplitFront("capture_run:", a, "capture_run:", b);
  }

  lemma RunActorInjective(digest: Digest, a: string, x: string, b: string, y: string)
    requires GoodDigest(digest) && CollisionFree(digest, {x, y})
    requires Rendered(digest, RunActor(a, x)) == Rendered(digest, RunActor(b, y))
    ensures a == b && x == y
  {
    SplitBack("capture_run:" + a + ":agent:", digest(x), "capture_run:" + b + ":agent:", digest(y));
    SplitBack("capture_run:" + a, ":agent:", "capture_run:" + b, ":agent:");
    SplitFront("capture_run:", a, "capture_run:", b);
  }

  /** What follows the session digest. */
  function SessionRest(digest: Digest, n: Name): string
    requires n.SessionMain? || n.SessionActor?
  {
    if n.SessionActor? then ":agent:" + digest(n.actorId)
    else (if n.threadId == "" then "" else ":thread:" + digest(n.threadId)) + ":main"
  }

  lemma SessionShape(digest: Digest, n: Name)
    requires (n.SessionMain? || n.SessionActor?) && n.sessionId != ""
    ensures Rendered(digest, n) == SessionPrefix(digest, n.client, n.sessionId) + SessionRest(digest, n)
  {
    if n.SessionActor? {
      assert SessionPrefix(digest, n.client, n.sessionId) + ":agent:" + digest(n.actorId) ==
             SessionPrefix(digest, n.client, n.sessionId) + SessionRest(digest, n);
    } else {
      var thread := if n.threadId == "" then "" else ":thread:" + digest(n.threadId);
      assert SessionPrefix(digest, n.client, n.sessionId) + thread + ":main" ==
             SessionPrefix(digest, n.client, n.sessionId) + (thread + ":main");
    }
  }

  lemma SessionParts(digest: Digest, n: Name, m: Name)
    requires GoodDigest(digest) && Nameable(n) && Nameable(m)
    requires (n.SessionMain? || n.SessionActor?) && (m.SessionMain? || m.SessionActor?)
    requires Rendered(digest, n) == Rendered(digest, m)
    ensures n.client == m.client && digest(n.sessionId) == digest(m.sessionId)
    ensures SessionRest(digest, n) == SessionRest(digest, m)
  {
    SessionShape(digest, n);
    SessionShape(digest, m);
    hide Rendered, SessionRest, SessionPrefix;
    var rn, rm := SessionRest(digest, n), SessionRest(digest, m);
    var tn, tm := ":" + digest(n.sessionId) + rn, ":" + digest(m.sessionId) + rm;
    var cn, cm := ClientName(n.client), ClientName(m.client);
    assert "client_session:" + (cn + tn) == "client_session:" + (cm + tm) by {
      PrefixShape(digest, n.client, n.sessionId, rn);
      PrefixShape(digest, m.client, m.sessionId, rm);
    }
    SplitFront("client_session:", cn + tn, "client_session:", cm + tm);
    ClientsApart(n.client, tn, m.client, tm);
    SplitFront(cn, tn, cm, tm);
    assert tn == (":" + digest(n.sessionId)) + rn && tm == (":" + digest(m.sessionId)) + rm;
    SplitFront(":" + digest(n.sessionId), rn, ":" + digest(m.sessionId), rm);
    SplitFront(":", digest(n.sessionId), ":", digest(m.sessionId));
  }

  lemma PrefixShape(digest: Digest, client: Client, session: string, rest: string)
    ensures SessionPrefix(digest, client, session) + rest ==
            "client_session:" + (ClientName(client) + (":" + digest(session) + rest))
  {
  }

  lemma ClientsApart(a: Client, x: string, b: Client, y: string)
    requires (a.Claude? || a.Codex?) && (b.Claude? || b.Codex?) && ClientName(a) + x == ClientName(b) + y
    ensures a == b
  {
    assert (ClientName(a) + x)[1] == ClientName(a)[1] && (ClientName(b) + y)[1] == ClientName(b)[1];
  }

  lemma RestInjective(digest: Digest, n: Name, m: Name)
    requires GoodDigest(digest) && CollisionFree(digest, Digested(n) + Digested(m))
    requires (n.SessionMain? || n.SessionActor?) && (m.SessionMain? || m.SessionActor?)
    requires SessionRest(digest, n) == SessionRest(digest, m)
    ensures n.SessionMain? == m.SessionMain?
    ensures n.SessionMain? ==> n.threadId == m.threadId
    ensures n.SessionActor? ==> n.actorId == m.actorId
  {
    var a, b := SessionRest(digest, n), SessionRest(digest, m);
    RestSecond(digest, n);
    RestSecond(digest, m);
    if n.SessionActor? && m.SessionActor? {
      SplitFront(":agent:", digest(n.actorId), ":agent:", digest(m.actorId));
    } else if n.SessionMain? && m.SessionMain? && n.threadId != "" && m.threadId != "" {
      SplitBack(":thread:" + digest(n.threadId), ":main", ":thread:" + digest(m.threadId), ":main");
      SplitFront(":thread:", digest(n.threadId), ":thread:", digest(m.threadId));
    }
  }

  lemma RestSecond(digest: Digest, n: Name)
    requires n.SessionMain? || n.SessionActor?
    ensures |SessionRest(digest, n)| >= 2
    ensures SessionRest(digest, n)[1] == if n.SessionActor? then 'a' else if n.threadId == "" then 'm' else 't'
  {
  }

  /** Identifiers of different families differ in their first letters. */
  lemma FamiliesApart(digest: Digest, n: Name)
    requires Nameable(n)
    ensures var id := Rendered(digest, n);
      |id| >= 2 && id[0] == (if n.Exchange? then 'e' else 'c') &&
      (n.RunMain? || n.RunActor? ==> id[1] == 'a') && (n.SessionMain? || n.SessionActor? ==> id[1] == 'l')
  {
  }

  /** Two references share an identifier exactly when they name the same exchange, the same capture run's main
      stream, the same client session and thread, or the same actor in the same scope. */
  lemma SameIdentifierSameName(digest: Digest, n: Name, m: Name)
    requires GoodDigest(digest) && CollisionFree(digest, Digested(n) + Digested(m))
    requires Nameable(n) && Nameable(m)
    ensures Rendered(digest, n) == Rendered(digest, m) <==> n == m
  {
    hide Rendered, SessionRest;
    if Rendered(digest, n) == Rendered(digest, m) {
      FamiliesApart(digest, n);
      FamiliesApart(digest, m);
      match n
      case Exchange(id) => ExchangeInjective(digest, id, m.exchangeId);
      case RunMain(run) =>
        if m.RunActor? {
          RunMainNotActor(digest, run, m.captureRunId, m.actorId);
        } else {
          RunMainInjective(digest, run, m.captureRunId);
        }
      case RunActor(run, actor) =>
        if m.RunMain? {
          RunMainNotActor(digest, m.captureRunId, run, actor);
        } else {
          RunActorInjective(digest, run, actor, m.captureRunId, m.actorId);
        }
      case _ =>
        SessionParts(digest, n, m);
        RestInjective(digest, n, m);
    }
  }

  lemma ExchangeInjective(digest: Digest, a: string, b: string)
    requires Rendered(digest, Exchange(a)) == Rendered(digest, Exchange(b))
    ensures a == b
  {
    SplitFront("exchange:", a, "exchange:", b);
  }

  lemma RunMainNotActor(digest: Digest, a: string, b: string, actor: string)
    requires GoodDigest(digest)
    ensures Rendered(digest, RunMain(a)) != Rendered(digest, RunActor(b, actor))
  {
    MainIsNotDigest("capture_run:" + a, "capture_run:" + b + ":agent:", digest(actor));
  }
}
