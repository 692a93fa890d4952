/** Codex rollout files: what a scan of one file keeps, under a filter of wanted identifiers and without one. */
module CodexRollout {
  import opened Wrappers

  /** What one turn of a rollout was seen to carry. */
  datatype Turn = Turn(items: set<string>, reasoning: set<string>, calls: set<string>, hashes: set<string>)

  const NO_EVIDENCE := Turn({}, {}, {}, {})

  type Turns = map<string, Turn>

  /** Times are nanoseconds since Go's zero time; 0 is the zero time. */
  datatype Window = Window(at: int, windowId: string, previousId: string, firstId: string)

  /** Where a thread comes from: a plain name, or the parent that spawned it; the depth is in decimal. */
  datatype Source =
    | NoSource
    | NamedSource(kind: string)
    | SpawnSource(parentThreadId: string, depth: Option<string>, agentPath: string, agentNickname: string,
      agentRole: string)

  /** What describes a thread beyond its identifiers. */
  datatype Profile = Profile(
    forkedFromId: string, parentThreadId: string, windowId: string, originator: string, cliVersion: string,
    threadSource: string, agentNickname: string, agentPath: string, agentRole: string, modelProvider: string)

  datatype Meta = Meta(sessionId: string, threadId: string, cwd: string, source: Source, profile: Profile)

  /** One decoded line; blank, undecodable and unknown lines are Ignored. */
  datatype Line =
    | SessionMeta(at: int, meta: Meta)
    | Event(at: int, opensTurn: bool, turnId: string, hash: string, itemId: string, itemKind: string,
      itemTurnId: string)
    | ResponseItem(at: int, kind: string, itemId: string, callId: string, internalTurnId: string,
      metadataTurnId: string)
    | Compacted(window: Window)
    | Ignored

  /** The identifiers worth keeping. */
  datatype Filter = Everything | Wanted(turns: set<string>, items: set<string>, calls: set<string>)

  predicate WantsTurn(filter: Filter, id: string) {
    filter.Everything? || id in filter.turns
  }

  predicate WantsItem(filter: Filter, id: string) {
    filter.Everything? || id in filter.items
  }

  predicate WantsCall(filter: Filter, id: string) {
    filter.Everything? || id in filter.calls
  }

  // ---------- Evidence of one turn ----------

  function TurnAt(turns: Turns, id: string): Turn {
    if id in turns then turns[id] else NO_EVIDENCE
  }

  predicate IsReasoning(kind: string, itemId: string) {
    kind == "reasoning" || "rs_" <= itemId
  }

  function WithItem(turn: Turn, kind: string, itemId: string, callId: string): Turn {
    turn.(items := if itemId != "" then turn.items + {itemId} else turn.items,
          reasoning := if itemId != "" && IsReasoning(kind, itemId) then turn.reasoning + {itemId} else turn.reasoning,
          calls := if callId != "" then turn.calls + {callId} else turn.calls)
  }

  function WithHash(turn: Turn, hash: string): Turn {
    if hash != "" then turn.(hashes := turn.hashes + {hash}) else turn
  }

  function AddItem(filter: Filter, turns: Turns, id: string, kind: string, itemId: string, callId: string): Turns {
    if id != "" && (WantsTurn(filter, id) || WantsItem(filter, itemId) || WantsCall(filter, callId))
    then turns[id := WithItem(TurnAt(turns, id), kind, itemId, callId)] else turns
  }

  function AddHash(filter: Filter, turns: Turns, id: string, hash: string): Turns {
    if id != "" && WantsTurn(filter, id) then turns[id := WithHash(TurnAt(turns, id), hash)] else turns
  }

  // ---------- Scanning one file ----------

  datatype Scan = Scan(meta: Option<Meta>, createdAt: int, current: string, turns: Turns, windows: seq<Window>)

  const NEW_SCAN := Scan(None, 0, "", map[], [])

  /** A scan goes on, or stops at metadata that is not wanted or not valid. */
  datatype Progress = Running(scan: Scan) | Unrelated | Malformed

  /** A rollout that spawned from a parent starts with copied history, which keeps its earlier timestamps. */
  predicate Copied(s: Scan, at: int) {
    s.meta.Some? && s.meta.value.source.SpawnSource? && s.createdAt != 0 && at != 0 && at <= s.createdAt
  }

  /** Older clients have one identifier for the session and its root thread. */
  function Aliased(meta: Meta): Meta {
    if meta.sessionId == "" then meta.(sessionId := meta.threadId) else meta
  }

  predicate ValidMeta(meta: Meta) {
    meta.sessionId != "" && meta.threadId != "" && meta.cwd != "" && meta.cwd[0] == '/'
  }

  function FirstOf(a: string, b: string, c: string): string {
    if a != "" then a else if b != "" then b else c
  }

  function OnMeta(admits: Meta -> bool, s: Scan, line: Line): Progress
    requires line.SessionMeta?
  {
    if s.meta.Some? then Running(s)
    else if !ValidMeta(Aliased(line.meta)) then Malformed
    else if !admits(Aliased(line.meta)) then Unrelated
    else Running(s.(meta := Some(Aliased(line.meta)), createdAt := line.at))
  }

  function Opened(filter: Filter, s: Scan, line: Line): Scan
    requires line.Event?
  {
    if line.turnId != "" && line.opensTurn
    then s.(current := line.turnId, turns := AddHash(filter, s.turns, line.turnId, line.hash)) else s
  }

  function OnEvent(filter: Filter, s: Scan, line: Line): Scan
    requires line.Event?
  {
    var begun := Opened(filter, s, line);
    if line.itemId == "" then begun
    else begun.(turns := AddItem(filter, begun.turns, FirstOf(line.itemTurnId, line.turnId, ""), line.itemKind,
      line.itemId, ""))
  }

  function OnItem(filter: Filter, s: Scan, line: Line): Scan
    requires line.ResponseItem?
  {
    s.(turns := AddItem(filter, s.turns, FirstOf(line.internalTurnId, line.metadataTurnId, s.current),
                        line.kind, line.itemId, line.callId))
  }

  function OnCompacted(s: Scan, line: Line): Scan
    requires line.Compacted?
  {
    if line.window.windowId == "" && line.window.previousId == "" && line.window.firstId == "" then s
    else s.(windows := s.windows + [line.window])
  }

  function LineTime(line: Line): int {
    match line
    case Compacted(window) => window.at
    case Ignored => 0
    case _ => line.at
  }

  function Step(filter: Filter, admits: Meta -> bool, s: Scan, line: Line): Progress {
    if line.SessionMeta? then OnMeta(admits, s, line)
    else if line.Ignored? || Copied(s, LineTime(line)) then Running(s)
    else match line
      case Event(_, _, _, _, _, _, _) => Running(OnEvent(filter, s, line))
      case ResponseItem(_, _, _, _, _, _) => Running(OnItem(filter, s, line))
      case Compacted(_) => Running(OnCompacted(s, line))
  }

  function Run(filter: Filter, admits: Meta -> bool, lines: seq<Line>): Progress {
    if lines == [] then Running(NEW_SCAN)
    else
      var before := Run(filter, admits, lines[..|lines| - 1]);
      if before.Running? then Step(filter, admits, before.scan, lines[|lines| - 1]) else before
  }

  /** A scanned file that has metadata; the path identifies the file. */
  datatype Rollout = Rollout(path: nat, meta: Meta, turns: Turns, windows: seq<Window>)

  function Read(path: nat, filter: Filter, admits: Meta -> bool, lines: seq<Line>): Option<Rollout> {
    match Run(filter, admits, lines)
    case Running(s) => if s.meta.Some? then Some(Rollout(path, s.meta.value, s.turns, s.windows)) else None
    case _ => None
  }

  // ---------- The scan in place ----------

  class Reader {
    var meta: Option<Meta>
    var createdAt: int
    var current: string
    var turns: Turns
    var windows: seq<Window>

    function State(): Scan
      reads this
    {
      Scan(meta, createdAt, current, turns, windows)
    }

    constructor ()
      ensures State() == NEW_SCAN
    {
      meta, createdAt, current, turns, windows := None, 0, "", map[], [];
    }

    method EnsureTurnEvidence(id: string) returns (present: bool)
      modifies this`turns
      ensures present == (id != "")
      ensures turns == if present then old(turns)[id := TurnAt(old(turns), id)] else old(turns)
    {
      if id == "" { return false; }
      if id !in turns { turns := turns[id := NO_EVIDENCE]; }
      return true;
    }

    method EnsureTurn(filter: Filter, id: string) returns (present: bool)
      modifies this`turns
      ensures present == (id != "" && WantsTurn(filter, id))
      ensures turns == if present then old(turns)[id := TurnAt(old(turns), id)] else old(turns)
    {
      if !WantsTurn(filter, id) { return false; }
      present := EnsureTurnEvidence(id);
    }

    method AddTurnItem(filter: Filter, id: string, kind: string, itemId: string, callId: string)
      modifies this`turns
      ensures turns == AddItem(filter, old(turns), id, kind, itemId, callId)
    {
      hide IsReasoning;
      if !WantsTurn(filter, id) && !WantsItem(filter, itemId) && !WantsCall(filter, callId) { return; }
      var present := EnsureTurnEvidence(id);
      if !present { return; }
      var evidence := turns[id];
      if itemId != "" {
        evidence := evidence.(items := evidence.items + {itemId});
        if IsReasoning(kind, itemId) { evidence := evidence.(reasoning := evidence.reasoning + {itemId}); }
      }
      if callId != "" { evidence := evidence.(calls := evidence.calls + {callId}); }
      turns := turns[id := evidence];
    }

    method OpenTurn(filter: Filter, line: Line)
      requires line.Event?
      modifies this
      ensures State() == Opened(filter, old(State()), line)
    {
      if line.turnId != "" && line.opensTurn {
        current := line.turnId;
        var present := EnsureTurn(filter, line.turnId);
        if present && line.hash != "" {
          turns := turns[line.turnId := turns[line.turnId].(hashes := turns[line.turnId].hashes + {line.hash})];
        }
      }
    }

    /** One line; false means that the scan stops here. The caller has decided whether to admit metadata. */
    method ReadLine(filter: Filter, admitted: bool, line: Line, ghost admits: Meta -> bool) returns (goes: bool)
      requires line.SessionMeta? && meta.None? && ValidMeta(Aliased(line.meta)) ==>
        admitted == admits(Aliased(line.meta))
      modifies this
      ensures goes == Step(filter, admits, old(State()), line).Running?
      ensures goes ==> Running(State()) == Step(filter, admits, old(State()), line)
    {
      hide AddItem, Opened, ValidMeta;
      goes := true;
      match line
      case SessionMeta(at, found) =>
        if meta.None? {
          var aliased := Aliased(found);
          if !ValidMeta(aliased) || !admitted { return false; }
          meta, createdAt := Some(aliased), at;
        }
      case Event(at, _, turnId, _, itemId, itemKind, itemTurnId) =>
        if Copied(State(), at) { return; }
        OpenTurn(filter, line);
        if itemId != "" { AddTurnItem(filter, FirstOf(itemTurnId, turnId, ""), itemKind, itemId, ""); }
      case ResponseItem(at, kind, itemId, callId, internalTurnId, metadataTurnId) =>
        if Copied(State(), at) { return; }
        AddTurnItem(filter, FirstOf(internalTurnId, metadataTurnId, current), kind, itemId, callId);
      case Compacted(window) =>
        if Copied(State(), window.at) { return; }
        if window.windowId != "" || window.previousId != "" || window.firstId != "" { windows := windows + [window]; }
      case Ignored =>
    }
  }

  lemma {:induction false} RunStopped(filter: Filter, admits: Meta -> bool, lines: seq<Line>, n: nat)
    requires n <= |lines| && !Run(filter, admits, lines[..n]).Running?
    ensures Run(filter, admits, lines) == Run(filter, admits, lines[..n])
  {
    hide Step;
    if n == |lines| {
      assert lines[..n] == lines;
    } else {
      assert lines[..|lines| - 1][..n] == lines[..n];
      RunStopped(filter, admits, lines[..|lines| - 1], n);
    }
  }

  // ---------- What a filter keeps ----------

  /** For one turn: nothing invented; a wanted turn whole; every wanted item and call wherever it was. */
  ghost predicate KeepsTurn(filter: Filter, full: Turns, part: Turns, id: string)
    requires filter.Wanted?
  {
    var f, p := TurnAt(full, id), TurnAt(part, id);
    && p.items <= f.items && p.reasoning <= f.reasoning && p.calls <= f.calls && p.hashes <= f.hashes
    && (id in part ==> id in full)
    && (id in filter.turns ==> (id in full ==> id in part) && p == f)
    && f.items * filter.items <= p.items && f.calls * filter.calls <= p.calls
  }

  ghost predicate Keeps(filter: Filter, full: Turns, part: Turns)
    requires filter.Wanted?
  {
    forall id :: KeepsTurn(filter, full, part, id)
  }

  lemma AddItemKeeps(filter: Filter, full: Turns, part: Turns, id: string, kind: string, itemId: string, callId: string)
    requires filter.Wanted? && Keeps(filter, full, part)
    ensures Keeps(filter, AddItem(Everything, full, id, kind, itemId, callId),
      AddItem(filter, part, id, kind, itemId, callId))
  {
    hide IsReasoning;
    var full', part' := AddItem(Everything, full, id, kind, itemId, callId),
      AddItem(filter, part, id, kind, itemId, callId);
    forall t ensures KeepsTurn(filter, full', part', t) {
      assert KeepsTurn(filter, full, part, t);
    }
  }

  lemma AddHashKeeps(filter: Filter, full: Turns, part: Turns, id: string, hash: string)
    requires filter.Wanted? && Keeps(filter, full, part)
    ensures Keeps(filter, AddHash(Everything, full, id, hash), AddHash(filter, part, id, hash))
  {
    var full', part' := AddHash(Everything, full, id, hash), AddHash(filter, part, id, hash);
    forall t ensures KeepsTurn(filter, full', part', t) {
      assert KeepsTurn(filter, full, part, t);
    }
  }

  /** Two scans of the same lines, differing in the turn evidence only. */
  ghost predicate ScansAgree(filter: Filter, full: Scan, part: Scan)
    requires filter.Wanted?
  {
    part == full.(turns := part.turns) && Keeps(filter, full.turns, part.turns)
  }

  /** The filtered scan either keeps step with the full one or has refused its metadata. */
  ghost predicate InStep(filter: Filter, admits: Meta -> bool, full: Progress, part: Progress)
    requires filter.Wanted?
  {
    match part
    case Running(p) => full.Running? && ScansAgree(filter, full.scan, p)
    case Unrelated => full.Unrelated? || (full.Running? && full.scan.meta.Some? && !admits(full.scan.meta.value))
    case Malformed => full.Malformed?
  }

  lemma EventAgrees(filter: Filter, full: Scan, part: Scan, line: Line)
    requires filter.Wanted? && ScansAgree(filter, full, part) && line.Event?
    ensures ScansAgree(filter, OnEvent(Everything, full, line), OnEvent(filter, part, line))
  {
    hide Keeps, AddItem, AddHash;
    AddHashKeeps(filter, full.turns, part.turns, line.turnId, line.hash);
    AddItemKeeps(filter, Opened(Everything, full, line).turns, Opened(filter, part, line).turns,
                 FirstOf(line.itemTurnId, line.turnId, ""), line.itemKind, line.itemId, "");
  }

  lemma ItemAgrees(filter: Filter, full: Scan, part: Scan, line: Line)
    requires filter.Wanted? && ScansAgree(filter, full, part) && line.ResponseItem?
    ensures ScansAgree(filter, OnItem(Everything, full, line), OnItem(filter, part, line))
  {
    hide Keeps, AddItem;
    AddItemKeeps(filter, full.turns, part.turns, FirstOf(line.internalTurnId, line.metadataTurnId, full.current),
                 line.kind, line.itemId, line.callId);
  }

  /** Metadata, once found, stays. */
  lemma MetaStays(filter: Filter, admits: Meta -> bool, s: Scan, line: Line)
    requires s.meta.Some?
    ensures Step(filter, admits, s, line).Running? && Step(filter, admits, s, line).scan.meta == s.meta
  {
  }

  lemma {:induction false} StepAgrees(
    filter: Filter, all: Meta -> bool, admits: Meta -> bool, full: Scan, part: Scan, line: Line)
    requires filter.Wanted? && ScansAgree(filter, full, part)
    requires forall m :: admits(m) ==> all(m)
    ensures InStep(filter, admits, Step(Everything, all, full, line), Step(filter, admits, part, line))
  {
    hide Keeps, OnEvent, OnItem, ValidMeta;
    if line.Event? { EventAgrees(filter, full, part, line); }
    if line.ResponseItem? { ItemAgrees(filter, full, part, line); }
  }

  lemma {:induction false} RunAgrees(filter: Filter, all: Meta -> bool, admits: Meta -> bool, lines: seq<Line>)
    requires filter.Wanted?
    requires forall m :: admits(m) ==> all(m)
    ensures InStep(filter, admits, Run(Everything, all, lines), Run(filter, admits, lines))
  {
    hide Step, ScansAgree;
    if lines == [] {
      NothingRead(filter);
    } else {
      var n := |lines| - 1;
      RunAgrees(filter, all, admits, lines[..n]);
      var full, part := Run(Everything, all, lines[..n]), Run(filter, admits, lines[..n]);
      if part.Running? {
        StepAgrees(filter, all, admits, full.scan, part.scan, lines[n]);
      } else if full.Running? {
        MetaStays(Everything, all, full.scan, lines[n]);
      }
    }
  }

  lemma NothingRead(filter: Filter)
    requires filter.Wanted?
    ensures ScansAgree(filter, NEW_SCAN, NEW_SCAN)
  {
  }

  /** Scanning keeps empty turn identifiers out. */
  lemma {:induction false} NoEmptyTurn(filter: Filter, admits: Meta -> bool, lines: seq<Line>)
    ensures Run(filter, admits, lines).Running? ==> "" !in Run(filter, admits, lines).scan.turns
  {
    if lines != [] { NoEmptyTurn(filter, admits, lines[..|lines| - 1]); }
  }

  // ---------- When the evidence of a turn is whole ----------

  /** The evidence a scan holds for one turn. */
  function Evidence(filter: Filter, admits: Meta -> bool, lines: seq<Line>, id: string): Turn {
    match Run(filter, admits, lines)
    case Running(s) => TurnAt(s.turns, id)
    case _ => NO_EVIDENCE
  }

  /** A rollout whose only turn opens with a compaction hash and then carries one item. */
  function HashedTurn(meta: Meta, id: string, itemId: string): seq<Line> {
    [SessionMeta(0, meta), Event(0, true, id, "hash", "", "", ""), ResponseItem(0, "message", itemId, "", id, "")]
  }

  lemma HashedRun(filter: Filter, admits: Meta -> bool, meta: Meta, id: string, itemId: string)
    requires ValidMeta(meta) && admits(meta) && id != "" && itemId != "" && WantsItem(filter, itemId)
    ensures Evidence(filter, admits, HashedTurn(meta, id, itemId), id).items == {itemId}
    ensures Evidence(filter, admits, HashedTurn(meta, id, itemId), id).hashes ==
      if WantsTurn(filter, id) then {"hash"} else {}
  {
    hide IsReasoning;
    var lines := HashedTurn(meta, id, itemId);
    assert lines[..2][..1] == [lines[0]] && [lines[0]][..0] == [];
    assert lines[..2][1] == lines[1];
    assert Run(filter, admits, []) == Running(NEW_SCAN);
    var begun := NEW_SCAN.(meta := Some(meta));
    assert Run(filter, admits, [lines[0]]) == Running(begun);
    assert Run(filter, admits, lines[..2]) == Running(OnEvent(filter, begun, lines[1]));
    assert Run(filter, admits, lines) == Running(OnItem(filter, OnEvent(filter, begun, lines[1]), lines[2]));
  }

  ghost predicate WholeFor(filter: Filter, admits: Meta -> bool, id: string, lines: seq<Line>) {
    Evidence(filter, admits, lines, id) == Evidence(Everything, admits, lines, id)
  }

  /** The filter keeps the whole evidence of a turn in every rollout exactly when the turn itself is wanted: a turn
      that is reached through a wanted item alone is matched, and yet may lose its other evidence. */
  lemma WholeEvidence(filter: Filter, admits: Meta -> bool, meta: Meta, id: string, itemId: string)
    requires filter.Wanted? && ValidMeta(meta) && admits(meta)
    requires id != "" && itemId != "" && itemId in filter.items
    ensures (forall lines :: WholeFor(filter, admits, id, lines)) <==> id in filter.turns
    ensures itemId in Evidence(filter, admits, HashedTurn(meta, id, itemId), id).items
  {
    hide Step, Run, HashedTurn, ValidMeta;
    HashedRun(filter, admits, meta, id, itemId);
    HashedRun(Everything, admits, meta, id, itemId);
    if id in filter.turns {
      forall lines ensures WholeFor(filter, admits, id, lines) {
        RunAgrees(filter, admits, admits, lines);
        SameAdmission(filter, admits, lines);
        if Run(filter, admits, lines).Running? {
          assert KeepsTurn(filter, Run(Everything, admits, lines).scan.turns, Run(filter, admits, lines).scan.turns,
            id);
        }
      }
    } else {
      assert !WholeFor(filter, admits, id, HashedTurn(meta, id, itemId));
    }
  }

  /** Under one admission rule the two scans stop together. */
  lemma {:induction false} SameAdmission(filter: Filter, admits: Meta -> bool, lines: seq<Line>)
    requires filter.Wanted?
    ensures Run(filter, admits, lines).Running? <==> Run(Everything, admits, lines).Running?
  {
    hide Step;
    if lines != [] {
      var n := |lines| - 1;
      SameAdmission(filter, admits, lines[..n]);
      RunAgrees(filter, admits, admits, lines[..n]);
      var full, part := Run(Everything, admits, lines[..n]), Run(filter, admits, lines[..n]);
      if part.Running? { SameStop(filter, admits, full.scan, part.scan, lines[n]); }
    }
  }

  lemma SameStop(filter: Filter, admits: Meta -> bool, full: Scan, part: Scan, line: Line)
    requires full.meta == part.meta
    ensures Step(filter, admits, part, line).Running? <==> Step(Everything, admits, full, line).Running?
  {
  }
}
