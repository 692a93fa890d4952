/** Resolving a batch of Codex lookups over all rollout files, and why the prefilters never change an answer. */
module CodexBatch {
  import opened Wrappers
  import opened ClientIdentity
  import opened CodexRollout
  import opened CodexResolver
  import opened CodexIdentity

  // ---------- One target over many rollouts ----------

  datatype Resolution = Unresolved | Resolved(rollout: Rollout, turnId: string) | Ambiguous

  predicate SameThread(a: Rollout, b: Rollout) {
    a.meta.sessionId == b.meta.sessionId && a.meta.threadId == b.meta.threadId
  }

  function Advance(before: Resolution, r: Rollout, m: Match): Resolution {
    if before.Ambiguous? || m.AmbiguousTurn? then Ambiguous
    else if m.NoMatch? then before
    else if before.Resolved? && !(SameThread(before.rollout, r) && before.turnId == m.turnId) then Ambiguous
    else Resolved(r, m.turnId)
  }

  ghost function Resolve(t: Target, rollouts: seq<Rollout>): Resolution {
    if rollouts == [] then Unresolved
    else
      var n := |rollouts| - 1;
      Advance(Resolve(t, rollouts[..n]), rollouts[n], MatchOf(t, rollouts[n]))
  }

  ghost predicate Hit(t: Target, r: Rollout, turnId: string) {
    MatchOf(t, r) == Matched(turnId)
  }

  /** Two rollouts that hold the exchange in different sessions, threads or turns. */
  ghost predicate Conflict(t: Target, a: Rollout, b: Rollout) {
    MatchOf(t, a).Matched? && MatchOf(t, b).Matched? && !(SameThread(a, b) && MatchOf(t, a) == MatchOf(t, b))
  }

  ghost predicate Contested(t: Target, rollouts: seq<Rollout>) {
    || (exists i | 0 <= i < |rollouts| :: MatchOf(t, rollouts[i]).AmbiguousTurn?)
    || (exists i, j | 0 <= i < |rollouts| && 0 <= j < |rollouts| :: Conflict(t, rollouts[i], rollouts[j]))
  }

  /** A lookup is refused exactly when the rollouts contradict each other, and otherwise resolves exactly when some
      rollout matches: all that match then agree on session, thread and turn, and the last of them is used. */
  lemma {:induction false} ResolutionMeans(t: Target, rollouts: seq<Rollout>)
    ensures Resolve(t, rollouts).Ambiguous? <==> Contested(t, rollouts)
    ensures Resolve(t, rollouts).Unresolved? <==> forall i | 0 <= i < |rollouts| :: MatchOf(t, rollouts[i]).NoMatch?
    ensures Resolve(t, rollouts).Resolved? ==>
      IsLastHit(t, rollouts, Resolve(t, rollouts).rollout, Resolve(t, rollouts).turnId)
  {
    hide MatchOf;
    if rollouts != [] {
      var n := |rollouts| - 1;
      var before, last := rollouts[..n], rollouts[n];
      ResolutionMeans(t, before);
      if Contested(t, before) { StillContested(t, rollouts, n); }
      match Resolve(t, before)
      case Ambiguous =>
      case Unresolved => FirstHit(t, rollouts);
      case Resolved(r, turnId) => NextHit(t, rollouts, r, turnId);
    }
  }

  ghost predicate IsLastHit(t: Target, rollouts: seq<Rollout>, r: Rollout, turnId: string) {
    && (exists i | 0 <= i < |rollouts| ::
          && rollouts[i] == r && Hit(t, r, turnId)
          && forall j | i < j < |rollouts| :: MatchOf(t, rollouts[j]).NoMatch?)
    && forall j | 0 <= j < |rollouts| ::
         MatchOf(t, rollouts[j]).NoMatch? || (Hit(t, rollouts[j], turnId) && SameThread(rollouts[j], r))
  }

  lemma StillContested(t: Target, rollouts: seq<Rollout>, n: nat)
    requires n <= |rollouts| && Contested(t, rollouts[..n])
    ensures Contested(t, rollouts)
  {
    hide MatchOf;
    var before := rollouts[..n];
    if i :| 0 <= i < n && MatchOf(t, before[i]).AmbiguousTurn? {
      assert MatchOf(t, rollouts[i]).AmbiguousTurn?;
    } else {
      var i, j :| 0 <= i < n && 0 <= j < n && Conflict(t, before[i], before[j]);
      assert Conflict(t, rollouts[i], rollouts[j]);
    }
  }

  lemma FirstHit(t: Target, rollouts: seq<Rollout>)
    requires rollouts != []
    requires forall i | 0 <= i < |rollouts| - 1 :: MatchOf(t, rollouts[i]).NoMatch?
    ensures Contested(t, rollouts) <==> MatchOf(t, rollouts[|rollouts| - 1]).AmbiguousTurn?
    ensures MatchOf(t, rollouts[|rollouts| - 1]).Matched? ==>
      IsLastHit(t, rollouts, rollouts[|rollouts| - 1], MatchOf(t, rollouts[|rollouts| - 1]).turnId)
  {
    hide MatchOf;
  }

  lemma NextHit(t: Target, rollouts: seq<Rollout>, r: Rollout, turnId: string)
    requires rollouts != [] && IsLastHit(t, rollouts[..|rollouts| - 1], r, turnId)
    ensures
      var last := rollouts[|rollouts| - 1];
      match MatchOf(t, last)
      case NoMatch => !Contested(t, rollouts) && IsLastHit(t, rollouts, r, turnId)
      case AmbiguousTurn => Contested(t, rollouts)
      case Matched(u) =>
        if SameThread(r, last) && turnId == u then !Contested(t, rollouts) && IsLastHit(t, rollouts, last, u)
        else Contested(t, rollouts)
  {
    hide MatchOf, Contested, IsLastHit, SameThread;
    var n := |rollouts| - 1;
    match MatchOf(t, rollouts[n])
    case NoMatch => SkipHit(t, rollouts, r, turnId);
    case AmbiguousTurn => ContestedAt(t, rollouts, n);
    case Matched(u) =>
      if SameThread(r, rollouts[n]) && turnId == u {
        JoinHit(t, rollouts, r, turnId);
      } else {
        ClashHit(t, rollouts, r, turnId);
      }
  }

  lemma ContestedAt(t: Target, rollouts: seq<Rollout>, n: nat)
    requires n < |rollouts| && MatchOf(t, rollouts[n]).AmbiguousTurn?
    ensures Contested(t, rollouts)
  {
    hide MatchOf;
  }

  /** Rollouts that all miss or hit the same thread and turn do not contest it. */
  lemma HitsAgree(t: Target, rollouts: seq<Rollout>, r: Rollout, turnId: string)
    requires forall j | 0 <= j < |rollouts| ::
      MatchOf(t, rollouts[j]).NoMatch? || (Hit(t, rollouts[j], turnId) && SameThread(rollouts[j], r))
    ensures !Contested(t, rollouts)
  {
    hide MatchOf;
  }

  lemma SkipHit(t: Target, rollouts: seq<Rollout>, r: Rollout, turnId: string)
    requires rollouts != [] && IsLastHit(t, rollouts[..|rollouts| - 1], r, turnId)
    requires MatchOf(t, rollouts[|rollouts| - 1]).NoMatch?
    ensures !Contested(t, rollouts) && IsLastHit(t, rollouts, r, turnId)
  {
    hide MatchOf, Hit, SameThread, Contested;
    var before := rollouts[..|rollouts| - 1];
    var i :| 0 <= i < |before| && before[i] == r && Hit(t, r, turnId) && forall j | i < j < |before| ::
      MatchOf(t, before[j]).NoMatch?;
    assert forall j | 0 <= j < |before| :: rollouts[j] == before[j];
    assert rollouts[i] == r;
    HitsAgree(t, rollouts, r, turnId);
  }

  lemma JoinHit(t: Target, rollouts: seq<Rollout>, r: Rollout, turnId: string)
    requires rollouts != [] && IsLastHit(t, rollouts[..|rollouts| - 1], r, turnId)
    requires Hit(t, rollouts[|rollouts| - 1], turnId) && SameThread(r, rollouts[|rollouts| - 1])
    ensures !Contested(t, rollouts) && IsLastHit(t, rollouts, rollouts[|rollouts| - 1], turnId)
  {
    hide MatchOf, Contested, Hit;
    var n := |rollouts| - 1;
    var before := rollouts[..n];
    assert forall j | 0 <= j < n :: rollouts[j] == before[j];
    HitsAgree(t, rollouts, rollouts[n], turnId);
  }

  lemma ClashHit(t: Target, rollouts: seq<Rollout>, r: Rollout, turnId: string)
    requires rollouts != [] && IsLastHit(t, rollouts[..|rollouts| - 1], r, turnId)
    requires MatchOf(t, rollouts[|rollouts| - 1]).Matched?
    requires !(SameThread(r, rollouts[|rollouts| - 1]) && MatchOf(t, rollouts[|rollouts| - 1]).turnId == turnId)
    ensures Contested(t, rollouts)
  {
    hide MatchOf, SameThread;
    var n := |rollouts| - 1;
    var i :| 0 <= i < n && rollouts[..n][i] == r && Hit(t, r, turnId);
    assert Conflict(t, rollouts[i], rollouts[n]);
  }

  /** The rollout has the turn of the exchange, from its fields: session and thread agree where they are given, and the
      turn is the one that is named or, when none is, shares an item or a call. */
  ghost predicate Has(t: Target, r: Rollout, turn: string) {
    && (t.sessionId == "" || r.meta.sessionId == t.sessionId) && (t.threadId == "" || r.meta.threadId == t.threadId)
    && turn in r.turns
    && (turn == t.turnId || (t.turnId == "" && Shares(t, r.turns[turn])))
  }

  ghost predicate Shares(t: Target, turn: Turn) {
    (exists v :: v in turn.items && v in t.items) || (exists v :: v in turn.calls && v in t.calls)
  }

  /** Two turns that cannot both be the exchange's. */
  predicate Differ(a: Rollout, turn: string, b: Rollout, other: string) {
    turn != other || a.meta.sessionId != b.meta.sessionId || a.meta.threadId != b.meta.threadId
  }

  ghost predicate Clash(t: Target, a: Rollout, b: Rollout) {
    exists turn, other :: Has(t, a, turn) && Has(t, b, other) && Differ(a, turn, b, other)
  }

  /** The last rollout that has a turn of the exchange. */
  ghost predicate IsLast(t: Target, rollouts: seq<Rollout>, r: Rollout, turn: string) {
    exists i | 0 <= i < |rollouts| :: rollouts[i] == r && Has(t, r, turn) &&
      forall j, other | i < j < |rollouts| :: !Has(t, rollouts[j], other)
  }

  lemma HasMatches(t: Target, r: Rollout)
    requires "" !in r.turns
    ensures forall turn :: Has(t, r, turn) <==> Matches(t, r, turn)
  {
    forall turn ensures Has(t, r, turn) <==> Matches(t, r, turn) {
      if turn in r.turns {
        var items, calls := r.turns[turn].items * t.items, r.turns[turn].calls * t.calls;
        assert items != {} <==> exists v :: v in r.turns[turn].items && v in t.items by {
          if v :| v in items {}
          if v :| v in r.turns[turn].items && v in t.items { assert v in items; }
        }
        assert calls != {} <==> exists v :: v in r.turns[turn].calls && v in t.calls by {
          if v :| v in calls {}
          if v :| v in r.turns[turn].calls && v in t.calls { assert v in calls; }
        }
      }
    }
  }

  /** A lookup is refused exactly when two rollouts, or one, have turns of the exchange that differ in session, thread
      or turn; it is unresolved exactly when none has any; otherwise it resolves to the last that has one. */
  lemma ResolutionSays(t: Target, rollouts: seq<Rollout>)
    requires forall i | 0 <= i < |rollouts| :: "" !in rollouts[i].turns
    ensures Resolve(t, rollouts).Ambiguous? <==>
      exists i, j | 0 <= i < |rollouts| && 0 <= j < |rollouts| :: Clash(t, rollouts[i], rollouts[j])
    ensures Resolve(t, rollouts).Unresolved? <==> forall i, turn | 0 <= i < |rollouts| :: !Has(t, rollouts[i], turn)
    ensures Resolve(t, rollouts).Resolved? ==>
      IsLast(t, rollouts, Resolve(t, rollouts).rollout, Resolve(t, rollouts).turnId)
  {
    hide Has, Matches, Resolve, Differ;
    ResolutionMeans(t, rollouts);
    forall i | 0 <= i < |rollouts| ensures forall turn :: Has(t, rollouts[i], turn) <==> Matches(t, rollouts[i], turn) {
      HasMatches(t, rollouts[i]);
    }
    ClashMeans(t, rollouts);
  }

  lemma ClashMeans(t: Target, rollouts: seq<Rollout>)
    requires forall i, turn | 0 <= i < |rollouts| :: Has(t, rollouts[i], turn) <==> Matches(t, rollouts[i], turn)
    ensures Contested(t, rollouts) <==>
      exists i, j | 0 <= i < |rollouts| && 0 <= j < |rollouts| :: Clash(t, rollouts[i], rollouts[j])
  {
    hide Has, Matches, MatchOf;
    if i :| 0 <= i < |rollouts| && MatchOf(t, rollouts[i]).AmbiguousTurn? {
      assert Clash(t, rollouts[i], rollouts[i]);
    } else if i, j :| 0 <= i < |rollouts| && 0 <= j < |rollouts| && Conflict(t, rollouts[i], rollouts[j]) {
      assert Has(t, rollouts[i], MatchOf(t, rollouts[i]).turnId) && Has(t, rollouts[j], MatchOf(t, rollouts[j]).turnId);
      assert Clash(t, rollouts[i], rollouts[j]);
    }
    if i, j :| 0 <= i < |rollouts| && 0 <= j < |rollouts| && Clash(t, rollouts[i], rollouts[j]) {
      assert !MatchOf(t, rollouts[i]).NoMatch? && !MatchOf(t, rollouts[j]).NoMatch?;
      assert MatchOf(t, rollouts[i]).AmbiguousTurn? || MatchOf(t, rollouts[j]).AmbiguousTurn? ||
        Conflict(t, rollouts[i], rollouts[j]);
    }
  }

  // ---------- Filtered and unfiltered reading ----------

  ghost function ReadAll(filter: Filter, admits: Meta -> bool, files: seq<seq<Line>>): seq<Rollout> {
    if files == [] then []
    else
      var n := |files| - 1;
      var last := Read(n, filter, admits, files[n]);
      ReadAll(filter, admits, files[..n]) + if last.Some? then [last.value] else []
  }

  /** The same file, metadata, windows and turn; the evidence of that turn as far as the filter wants it. */
  ghost predicate SameAnswer(filter: Filter, full: Resolution, part: Resolution)
    requires filter.Wanted?
  {
    match full
    case Unresolved => part.Unresolved?
    case Ambiguous => part.Ambiguous?
    case Resolved(r, turnId) =>
      && part.Resolved? && part.turnId == turnId
      && part.rollout == r.(turns := part.rollout.turns)
      && KeepsTurn(filter, r.turns, part.rollout.turns, turnId)
  }

  /** Reading one file: the filtered scan matches as the full scan does, and a refused file would not have matched. */
  lemma FileAgrees(targets: Targets, t: Target, all: Meta -> bool, admits: Meta -> bool, path: nat, lines: seq<Line>)
    requires Covers(targets, t)
    requires forall m :: admits(m) ==> all(m)
    requires forall m :: all(m) && Agrees(t, m) ==> admits(m)
    ensures
      var full, part := Read(path, Everything, all, lines), Read(path, FilterOf(targets), admits, lines);
      if part.Some? then
        && full.Some? && MatchOf(t, full.value) == MatchOf(t, part.value)
        && part.value == full.value.(turns := part.value.turns)
        && Keeps(FilterOf(targets), full.value.turns, part.value.turns)
      else full.Some? ==> MatchOf(t, full.value).NoMatch?
  {
    hide Run, MatchOf, Keeps;
    RunAgrees(FilterOf(targets), all, admits, lines);
    AdmittedOnly(Everything, all, lines);
    var full, part := Read(path, Everything, all, lines), Read(path, FilterOf(targets), admits, lines);
    if part.Some? {
      FilterKeepsMatch(targets, t, full.value, part.value);
    } else if full.Some? {
      assert forall id :: !Matches(t, full.value, id);
    }
  }

  /** A rollout that was read passed admission. */
  lemma {:induction false} AdmittedOnly(filter: Filter, admits: Meta -> bool, lines: seq<Line>)
    ensures
      var end := Run(filter, admits, lines);
      end.Running? && end.scan.meta.Some? ==> admits(end.scan.meta.value)
  {
    if lines != [] { AdmittedOnly(filter, admits, lines[..|lines| - 1]); }
  }

  /** The prefilters never change an answer: reading only what the targets want, from the rollouts that may match,
      gives each target the resolution that reading everything gives. */
  lemma {:induction false} PrefilterSafe(
    targets: Targets, t: Target, all: Meta -> bool, admits: Meta -> bool, files: seq<seq<Line>>)
    requires Covers(targets, t)
    requires forall m :: admits(m) ==> all(m)
    requires forall m :: all(m) && Agrees(t, m) ==> admits(m)
    ensures SameAnswer(FilterOf(targets), Resolve(t, ReadAll(Everything, all, files)),
      Resolve(t, ReadAll(FilterOf(targets), admits, files)))
  {
    hide Read, MatchOf, Covers, Agrees, Keeps, Resolve, Advance, SameAnswer;
    if files == [] {
      NoFiles(targets, t);
    } else {
      var n := |files| - 1;
      var filter := FilterOf(targets);
      PrefilterSafe(targets, t, all, admits, files[..n]);
      FileAgrees(targets, t, all, admits, n, files[n]);
      var full, part := Read(n, Everything, all, files[n]), Read(n, filter, admits, files[n]);
      var before, before' := ReadAll(Everything, all, files[..n]), ReadAll(filter, admits, files[..n]);
      ResolveOptional(t, before, full);
      ResolveOptional(t, before', part);
      AdvanceSafe(filter, t, Resolve(t, before), Resolve(t, before'), full, part);
    }
  }

  lemma NoFiles(targets: Targets, t: Target)
    ensures SameAnswer(FilterOf(targets), Resolve(t, []), Resolve(t, []))
  {
  }

  function AdvanceOptional(before: Resolution, r: Option<Rollout>, m: Match): Resolution {
    if r.Some? then Advance(before, r.value, m) else before
  }

  ghost function MatchOptional(t: Target, r: Option<Rollout>): Match {
    if r.Some? then MatchOf(t, r.value) else NoMatch
  }

  lemma AdvanceSafe(
    filter: Filter, t: Target, full: Resolution, part: Resolution, fullRead: Option<Rollout>, partRead: Option<Rollout>)
    requires filter.Wanted? && SameAnswer(filter, full, part)
    requires partRead.Some? ==>
      && fullRead.Some? && partRead.value == fullRead.value.(turns := partRead.value.turns)
      && Keeps(filter, fullRead.value.turns, partRead.value.turns)
    requires MatchOptional(t, fullRead) == MatchOptional(t, partRead)
    ensures SameAnswer(filter, AdvanceOptional(full, fullRead, MatchOptional(t, fullRead)),
      AdvanceOptional(part, partRead, MatchOptional(t, partRead)))
  {
    hide MatchOf, KeepsTurn;
    if partRead.Some? && MatchOptional(t, fullRead).Matched? {
      assert KeepsTurn(filter, fullRead.value.turns, partRead.value.turns, MatchOptional(t, fullRead).turnId);
    }
  }

  lemma ResolveOptional(t: Target, rollouts: seq<Rollout>, r: Option<Rollout>)
    ensures Resolve(t, rollouts + if r.Some? then [r.value] else []) ==
      AdvanceOptional(Resolve(t, rollouts), r, MatchOptional(t, r))
  {
    hide MatchOf;
    if r.Some? {
      assert (rollouts + [r.value])[..|rollouts|] == rollouts;
    } else {
      assert rollouts + [] == rollouts;
    }
  }

  // ---------- The batch ----------

  /** Only rollouts of the workspace that may match a target. */
  function Admitting(targets: Targets, workspace: string, canonical: string -> string): Meta -> bool {
    (m: Meta) => canonical(m.cwd) == workspace && MayMatchAny(targets, m)
  }

  function InWorkspace(workspace: string, canonical: string -> string): Meta -> bool {
    (m: Meta) => canonical(m.cwd) == workspace
  }

  predicate BadRequest(workspace: string, lookups: seq<ClientLookup>) {
    workspace == "" || workspace[0] != '/' || lookups == []
  }

  method ReadRollout(path: nat, targets: Targets, workspace: string, canonical: string -> string, lines: seq<Line>)
    returns (r: Option<Rollout>)
    ensures r == Read(path, FilterOf(targets), Admitting(targets, workspace, canonical), lines)
  {
    hide Step, MayMatchAny, ValidMeta;
    ghost var admits := Admitting(targets, workspace, canonical);
    var filter := FilterOf(targets);
    var reader := new Reader();
    for i := 0 to |lines|
      invariant Run(filter, admits, lines[..i]) == Running(reader.State())
    {
      assert lines[..i + 1][..i] == lines[..i];
      var admitted := true;
      if lines[i].SessionMeta? && reader.meta.None? {
        var meta := Aliased(lines[i].meta);
        var may := MayMatch(targets, meta);
        admitted := canonical(meta.cwd) == workspace && may;
      }
      var goes := reader.ReadLine(filter, admitted, lines[i], admits);
      if !goes {
        RunStopped(filter, admits, lines, i + 1);
        return None;
      }
    }
    assert lines[..|lines|] == lines;
    if reader.meta.None? { return None; }
    return Some(Rollout(path, reader.meta.value, reader.turns, reader.windows));
  }

  method ReadRollouts(targets: Targets, workspace: string, canonical: string -> string, files: seq<seq<Line>>)
    returns (rollouts: seq<Rollout>)
    ensures rollouts == ReadAll(FilterOf(targets), Admitting(targets, workspace, canonical), files)
    ensures forall i | 0 <= i < |rollouts| :: "" !in rollouts[i].turns
  {
    hide Run;
    rollouts := [];
    for i := 0 to |files|
      invariant rollouts == ReadAll(FilterOf(targets), Admitting(targets, workspace, canonical), files[..i])
      invariant forall j | 0 <= j < |rollouts| :: "" !in rollouts[j].turns
    {
      assert files[..i + 1][..i] == files[..i];
      var rollout := ReadRollout(i, targets, workspace, canonical, files[i]);
      NoEmptyTurn(FilterOf(targets), Admitting(targets, workspace, canonical), files[i]);
      if rollout.Some? { rollouts := rollouts + [rollout.value]; }
    }
    assert files[..|files|] == files;
  }

  method ResolveTarget(t: Target, rollouts: seq<Rollout>) returns (r: Resolution)
    requires forall i | 0 <= i < |rollouts| :: "" !in rollouts[i].turns
    ensures r == Resolve(t, rollouts)
  {
    hide MatchOf;
    r := Unresolved;
    for i := 0 to |rollouts|
      invariant r == Resolve(t, rollouts[..i]) && !r.Ambiguous?
    {
      assert rollouts[..i + 1][..i] == rollouts[..i];
      var m := MatchedTurn(t, rollouts[i]);
      if m.AmbiguousTurn? {
        AmbiguityStays(t, rollouts, i + 1);
        return Ambiguous;
      }
      if m.NoMatch? { continue; }
      if r.Resolved? && (!SameThread(r.rollout, rollouts[i]) || r.turnId != m.turnId) {
        AmbiguityStays(t, rollouts, i + 1);
        return Ambiguous;
      }
      r := Resolved(rollouts[i], m.turnId);
    }
    assert rollouts[..|rollouts|] == rollouts;
  }

  lemma {:induction false} AmbiguityStays(t: Target, rollouts: seq<Rollout>, n: nat)
    requires n <= |rollouts| && Resolve(t, rollouts[..n]).Ambiguous?
    ensures Resolve(t, rollouts).Ambiguous?
  {
    hide MatchOf;
    if n == |rollouts| {
      assert rollouts[..n] == rollouts;
    } else {
      assert rollouts[..|rollouts| - 1][..n] == rollouts[..n];
      AmbiguityStays(t, rollouts[..|rollouts| - 1], n);
    }
  }

  /** What some rollouts say about one lookup. */
  ghost function Answer(targets: Targets, lookup: ClientLookup, rollouts: seq<Rollout>): Resolution {
    if lookup.responseId in targets.byResponseId then Resolve(targets.byResponseId[lookup.responseId], rollouts)
    else Unresolved
  }

  /** The rollouts as they are, and as far as the targets want them. */
  datatype Archive = Archive(everything: seq<Rollout>, wanted: seq<Rollout>)

  ghost predicate Faithful(targets: Targets, ev: Archive) {
    forall lookup :: SameAnswer(FilterOf(targets), Answer(targets, lookup, ev.everything),
      Answer(targets, lookup, ev.wanted))
  }

  /** The identity that the rollout and turn of all evidence establish for a lookup, on the wanted evidence of the
      turn. */
  ghost predicate Establishes(targets: Targets, ev: Archive, lookup: ClientLookup, identity: Identity) {
    var found := Answer(targets, lookup, ev.wanted);
    && Answer(targets, lookup, ev.everything).Resolved? && found.Resolved?
    && IsIdentity(found.rollout, targets.byResponseId[lookup.responseId], found.turnId, lookup, identity)
  }

  /** The lookup is not contested, and if it resolves then to a valid identity. */
  ghost predicate Answerable(targets: Targets, ev: Archive, lookup: ClientLookup) {
    var truth := Answer(targets, lookup, ev.everything);
    !truth.Ambiguous? && (truth.Resolved? ==>
      exists identity :: Establishes(targets, ev, lookup, identity) && Valid(identity))
  }

  /** The identity of the last lookup of a response. */
  ghost predicate LastEstablishes(
    targets: Targets, ev: Archive, lookups: seq<ClientLookup>, id: string, identity: Identity) {
    exists k | 0 <= k < |lookups| ::
      && lookups[k].responseId == id && Establishes(targets, ev, lookups[k], identity)
      && forall j | k < j < |lookups| :: lookups[j].responseId != id
  }

  /** What a batch over some lookups must say: an identity for each lookup that resolves, and for no other. */
  ghost predicate BatchOk(targets: Targets, ev: Archive, lookups: seq<ClientLookup>, m: map<string, Identity>) {
    && (forall i | 0 <= i < |lookups| :: Answerable(targets, ev, lookups[i]))
    && (forall i | 0 <= i < |lookups| :: Answer(targets, lookups[i], ev.everything).Resolved? <==>
      lookups[i].responseId in m)
    && (forall id | id in m :: LastEstablishes(targets, ev, lookups, id, m[id]) && Valid(m[id]))
  }

  /** All rollouts of the workspace, whole and as far as the targets want them. */
  ghost function ArchiveOf(
    targets: Targets, workspace: string, canonical: string -> string, files: seq<seq<Line>>): Archive {
    Archive(ReadAll(Everything, InWorkspace(workspace, canonical), files),
             ReadAll(FilterOf(targets), Admitting(targets, workspace, canonical), files))
  }

  method ResolveBatch(workspace: string, lookups: seq<ClientLookup>, files: seq<seq<Line>>, canonical: string -> string)
    returns (r: Option<map<string, Identity>>, ghost targets: Targets)
    ensures workspace == "" || workspace[0] != '/' || lookups == [] || !Coherent(lookups) ==> r.None?
    ensures workspace != "" && workspace[0] == '/' && lookups != [] && Coherent(lookups) ==>
      var ev := ArchiveOf(targets, canonical(workspace), canonical, files);
      && Tabulates(lookups, targets.byResponseId) && Covered(targets) && Faithful(targets, ev)
      && match r
         case Some(m) => BatchOk(targets, ev, lookups, m)
         case None => exists i | 0 <= i < |lookups| :: !Answerable(targets, ev, lookups[i])
  {
    hide Coherent, Tabulates, ReadAll, Resolve, Covers, Covered, ArchiveOf, Faithful, BatchOk, Answerable, Establishes,
      IsIdentity, Valid;
    targets := Targets(map[], {}, {}, {});
    if BadRequest(workspace, lookups) { return None, targets; }
    var built := LookupTargets(lookups);
    if built.None? { return None, targets; }
    var table := built.value;
    targets := table;
    ghost var ev := ArchiveOf(table, canonical(workspace), canonical, files);
    ArchiveFaithful(table, canonical(workspace), canonical, files);
    var rollouts := ReadRollouts(table, canonical(workspace), canonical, files);
    var resolved: map<string, Identity> := map[];
    NothingAnswered(table, ev);
    for i := 0 to |lookups|
      invariant BatchOk(table, ev, lookups[..i], resolved)
    {
      assert lookups[..i + 1] == lookups[..i] + [lookups[i]];
      var lookup := lookups[i];
      var found, identity := ResolveLookup(table, rollouts, lookup, ev);
      if found.Unresolved? {
        SkipLookup(table, ev, lookups[..i], resolved, lookup);
      } else if identity.None? {
        return None, targets;
      } else {
        AddLookup(table, ev, lookups[..i], resolved, lookup, identity.value);
        resolved := resolved[lookup.responseId := identity.value];
      }
    }
    assert lookups[..|lookups|] == lookups;
    return Some(resolved), targets;
  }

  /** One lookup: what it resolves to, and the identity that this establishes. */
  method ResolveLookup(targets: Targets, rollouts: seq<Rollout>, lookup: ClientLookup, ghost ev: Archive)
    returns (found: Resolution, identity: Option<Identity>)
    requires Faithful(targets, ev) && rollouts == ev.wanted && forall i | 0 <= i < |rollouts| ::
      "" !in rollouts[i].turns
    ensures found == Answer(targets, lookup, ev.wanted)
    ensures found.Unresolved? <==> Answer(targets, lookup, ev.everything).Unresolved?
    ensures found.Unresolved? ==> Answerable(targets, ev, lookup)
    ensures !found.Unresolved? ==> (identity.Some? <==> Answerable(targets, ev, lookup))
    ensures identity.Some? ==> Establishes(targets, ev, lookup, identity.value) && Valid(identity.value)
  {
    hide Resolve, IsIdentity, Valid, KeepsTurn;
    assert SameAnswer(FilterOf(targets), Answer(targets, lookup, ev.everything), Answer(targets, lookup, ev.wanted));
    if lookup.responseId !in targets.byResponseId { return Unresolved, None; }
    var target := targets.byResponseId[lookup.responseId];
    found := ResolveTarget(target, rollouts);
    if !found.Resolved? { return found, None; }
    identity := BuildIdentity(found.rollout, target, found.turnId, lookup);
    ghost var built :| IsIdentity(found.rollout, target, found.turnId, lookup, built) &&
      (identity.Some? <==> Valid(built)) &&
      (identity.Some? ==> identity.value == built);
    forall other | Establishes(targets, ev, lookup, other) ensures other == built {
      IdentityUnique(found.rollout, target, found.turnId, lookup, other, built);
    }
    assert Establishes(targets, ev, lookup, built);
  }

  lemma ArchiveFaithful(targets: Targets, workspace: string, canonical: string -> string, files: seq<seq<Line>>)
    requires Covered(targets)
    ensures Faithful(targets, ArchiveOf(targets, workspace, canonical, files))
    ensures ArchiveOf(targets, workspace, canonical, files).wanted ==
      ReadAll(FilterOf(targets), Admitting(targets, workspace, canonical), files)
  {
    hide ReadAll, Resolve, Covered, KeepsTurn;
    var ev := ArchiveOf(targets, workspace, canonical, files);
    forall lookup ensures SameAnswer(FilterOf(targets), Answer(targets, lookup, ev.everything),
      Answer(targets, lookup, ev.wanted)) {
      if lookup.responseId in targets.byResponseId {
        TargetSafe(targets, lookup.responseId, workspace, canonical, files);
      }
    }
  }

  lemma TargetSafe(targets: Targets, id: string, workspace: string, canonical: string -> string, files: seq<seq<Line>>)
    requires Covered(targets) && id in targets.byResponseId
    ensures SameAnswer(FilterOf(targets),
      Resolve(targets.byResponseId[id], ReadAll(Everything, InWorkspace(workspace, canonical), files)),
      Resolve(targets.byResponseId[id], ReadAll(FilterOf(targets), Admitting(targets, workspace, canonical), files)))
  {
    hide ReadAll, Resolve, SameAnswer, Covers, Agrees;
    assert forall m | Agrees(targets.byResponseId[id], m) :: MayMatchAny(targets, m);
    PrefilterSafe(targets, targets.byResponseId[id], InWorkspace(workspace, canonical),
      Admitting(targets, workspace, canonical), files);
  }

  lemma NothingAnswered(targets: Targets, ev: Archive)
    ensures BatchOk(targets, ev, [], map[])
  {
  }

  lemma EstablishedResolves(targets: Targets, ev: Archive)
    ensures forall lookup, identity | Establishes(targets, ev, lookup, identity) ::
      Answer(targets, lookup, ev.everything).Resolved?
  {
    hide Resolve, IsIdentity;
  }

  lemma SkipLookup(
    targets: Targets, ev: Archive, lookups: seq<ClientLookup>, m: map<string, Identity>, lookup: ClientLookup)
    requires BatchOk(targets, ev, lookups, m) && Answerable(targets, ev, lookup)
    requires Answer(targets, lookup, ev.everything).Unresolved?
    ensures BatchOk(targets, ev, lookups + [lookup], m)
  {
    hide Resolve, Establishes, Answerable, Valid;
    var more := lookups + [lookup];
    EstablishedResolves(targets, ev);
    forall id | id in m ensures id != lookup.responseId && LastEstablishes(targets, ev, more, id, m[id]) {
      var k :| 0 <= k < |lookups| && lookups[k].responseId == id && Establishes(targets, ev, lookups[k], m[id]) &&
        forall j | k < j < |lookups| :: lookups[j].responseId != id;
      assert Answer(targets, lookups[k], ev.everything).Resolved?;
      assert more[k] == lookups[k];
    }
  }

  lemma AddLookup(
    targets: Targets, ev: Archive, lookups: seq<ClientLookup>, m: map<string, Identity>, lookup: ClientLookup,
    identity: Identity)
    requires BatchOk(targets, ev, lookups, m) && Answerable(targets, ev, lookup)
    requires Establishes(targets, ev, lookup, identity) && Valid(identity)
    ensures BatchOk(targets, ev, lookups + [lookup], m[lookup.responseId := identity])
  {
    hide Resolve, Establishes, Answerable, Valid;
    var more, m' := lookups + [lookup], m[lookup.responseId := identity];
    EstablishedResolves(targets, ev);
    assert more[|lookups|] == lookup;
    forall id | id in m' ensures LastEstablishes(targets, ev, more, id, m'[id]) && Valid(m'[id]) {
      if id != lookup.responseId {
        var k :| 0 <= k < |lookups| && lookups[k].responseId == id && Establishes(targets, ev, lookups[k], m[id]) &&
          forall j | k < j < |lookups| :: lookups[j].responseId != id;
        assert more[k] == lookups[k];
      }
    }
    forall i | 0 <= i < |more|
      ensures Answer(targets, more[i], ev.everything).Resolved? <==> more[i].responseId in m'
    {
      if i < |lookups| { assert more[i] == lookups[i]; }
    }
  }

  // ---------- Whole identities ----------

  /** The turn that a target names is the turn that it resolves to. */
  lemma NamedTurn(t: Target, rollouts: seq<Rollout>)
    requires t.turnId != "" && Resolve(t, rollouts).Resolved?
    ensures Resolve(t, rollouts).turnId == t.turnId
  {
    hide Resolve;
    ResolutionMeans(t, rollouts);
    var r, turnId := Resolve(t, rollouts).rollout, Resolve(t, rollouts).turnId;
    assert Hit(t, r, turnId) && Matches(t, r, turnId);
  }

  /** An identity is the one that the unfiltered rollout establishes whenever its turn is wanted; so it always is for a
      target that names its turn. */
  lemma WholeIdentity(targets: Targets, ev: Archive, lookup: ClientLookup, identity: Identity)
    requires Covered(targets) && Faithful(targets, ev) && Establishes(targets, ev, lookup, identity)
    requires
      || Answer(targets, lookup, ev.everything).turnId in targets.turns
      || targets.byResponseId[lookup.responseId].turnId != ""
    ensures
      var full := Answer(targets, lookup, ev.everything);
      IsIdentity(full.rollout, targets.byResponseId[lookup.responseId], full.turnId, lookup, identity)
  {
    hide Resolve, IsIdentity, Covers, Keeps;
    var t := targets.byResponseId[lookup.responseId];
    var full, part := Answer(targets, lookup, ev.everything), Answer(targets, lookup, ev.wanted);
    assert SameAnswer(FilterOf(targets), full, part);
    if t.turnId != "" { WantedTurn(targets, lookup.responseId, ev.everything); }
    SameEvidence(full.rollout, part.rollout, t, full.turnId, lookup, identity);
  }

  lemma WantedTurn(targets: Targets, id: string, rollouts: seq<Rollout>)
    requires Covered(targets) && id in targets.byResponseId && targets.byResponseId[id].turnId != ""
    requires Resolve(targets.byResponseId[id], rollouts).Resolved?
    ensures Resolve(targets.byResponseId[id], rollouts).turnId in targets.turns
  {
    hide Resolve;
    NamedTurn(targets.byResponseId[id], rollouts);
    assert Covers(targets, targets.byResponseId[id]);
  }

  /** The identity reads one turn of a rollout only. */
  lemma SameEvidence(full: Rollout, part: Rollout, t: Target, turnId: string, lookup: ClientLookup, identity: Identity)
    requires part == full.(turns := part.turns) && TurnAt(full.turns, turnId) == TurnAt(part.turns, turnId)
    requires IsIdentity(part, t, turnId, lookup, identity)
    ensures IsIdentity(full, t, turnId, lookup, identity)
  {
    hide ThreadIds, WindowIds, TurnIds, One, Attributes, ActorLabel, Described, IsSubagent;
  }
}
