/** What a scan of a whole rollout file holds, in terms of its lines alone. */
module CodexScan {
  import opened Wrappers
  import opened CodexRollout

  // ---------- The lines that count ----------

  /** The first session metadata, with its time. */
  function FirstMeta(lines: seq<Line>): Option<(int, Meta)> {
    if lines == [] then None
    else
      var before, last := FirstMeta(lines[..|lines| - 1]), lines[|lines| - 1];
      if before.Some? then before else if last.SessionMeta? then Some((last.at, last.meta)) else None
  }

  /** When a line was written. */
  function WrittenAt(line: Line): int {
    match line
    case SessionMeta(at, _) => at
    case Event(at, _, _, _, _, _, _) => at
    case ResponseItem(at, _, _, _, _, _) => at
    case Compacted(window) => window.at
    case Ignored => 0
  }

  /** After the metadata of a spawned thread with a time, only lines without a time or with a later one count: earlier
      ones are its parent's. */
  predicate Counts(before: seq<Line>, line: Line) {
    && (line.Event? || line.ResponseItem? || line.Compacted?)
    && (FirstMeta(before).Some? && FirstMeta(before).value.1.source.SpawnSource? && FirstMeta(before).value.0 != 0 ==>
          WrittenAt(line) == 0 || WrittenAt(line) > FirstMeta(before).value.0)
  }

  predicate Opens(line: Line) {
    line.Event? && line.opensTurn && line.turnId != ""
  }

  /** The turn that was begun last. */
  function CurrentTurn(lines: seq<Line>): string {
    if lines == [] then ""
    else
      var before, last := lines[..|lines| - 1], lines[|lines| - 1];
      if Counts(before, last) && Opens(last) then last.turnId else CurrentTurn(before)
  }

  /** What a line says about a turn. */
  datatype Gift = Gift(turn: string, item: string, kind: string, call: string, hash: string)

  /** An opening event gives its turn and hash; an event with an item gives it to the item's turn or else its own; a
      response item gives itself to the turn in its metadata or else to the current one. */
  function Gifts(line: Line, current: string): seq<Gift> {
    match line
    case Event(_, opensTurn, turnId, hash, itemId, itemKind, itemTurnId) =>
      (if opensTurn && turnId != "" then [Gift(turnId, "", "", "", hash)] else []) +
      (if itemId != "" then [Gift(if itemTurnId != "" then itemTurnId else turnId, itemId, itemKind, "", "")] else [])
    case ResponseItem(_, kind, itemId, callId, internalTurnId, metadataTurnId) =>
      var turn :=
        if internalTurnId != "" then internalTurnId else if metadataTurnId != "" then metadataTurnId else current;
      [Gift(turn, itemId, kind, callId, "")]
    case _ => []
  }

  /** Everything that the counting lines give to named turns. */
  function AllGifts(lines: seq<Line>): seq<Gift> {
    if lines == [] then []
    else
      var before, last := lines[..|lines| - 1], lines[|lines| - 1];
      AllGifts(before) + if Counts(before, last) then Named(Gifts(last, CurrentTurn(before))) else []
  }

  function Named(gifts: seq<Gift>): seq<Gift> {
    if gifts == [] then []
    else Named(gifts[..|gifts| - 1]) + if gifts[|gifts| - 1].turn != "" then [gifts[|gifts| - 1]] else []
  }

  predicate IsReasoningGift(g: Gift) {
    g.kind == "reasoning" || "rs_" <= g.item
  }

  /** The evidence of a turn: the items, reasoning items, calls and hashes that were given to it. */
  function Given(gifts: seq<Gift>, turn: string): Turn {
    Turn(set g | g in gifts && g.turn == turn && g.item != "" :: g.item,
         set g | g in gifts && g.turn == turn && g.item != "" && IsReasoningGift(g) :: g.item,
         set g | g in gifts && g.turn == turn && g.call != "" :: g.call,
         set g | g in gifts && g.turn == turn && g.hash != "" :: g.hash)
  }

  function GivenTurns(gifts: seq<Gift>): set<string> {
    set g | g in gifts :: g.turn
  }

  predicate SaysWindow(line: Line) {
    line.Compacted? && (line.window.windowId != "" || line.window.previousId != "" || line.window.firstId != "")
  }

  /** The compaction windows of the counting lines, in order. */
  function AllWindows(lines: seq<Line>): seq<Window> {
    if lines == [] then []
    else
      var before, last := lines[..|lines| - 1], lines[|lines| - 1];
      AllWindows(before) + if Counts(before, last) && SaysWindow(last) then [last.window] else []
  }

  // ---------- The scan ----------

  /** Older clients have one identifier for the session and its root thread. */
  function SessionOf(meta: Meta): string {
    if meta.sessionId != "" then meta.sessionId else meta.threadId
  }

  predicate MetaAs(scan: Scan, first: Option<(int, Meta)>) {
    match first
    case None => scan.meta == None && scan.createdAt == 0
    case Some((at, meta)) => scan.meta == Some(meta.(sessionId := SessionOf(meta))) && scan.createdAt == at
  }

  ghost predicate Holds(turns: Turns, gifts: seq<Gift>) {
    turns.Keys == GivenTurns(gifts) && forall id :: TurnAt(turns, id) == Given(gifts, id)
  }

  ghost predicate Says(scan: Scan, lines: seq<Line>) {
    && MetaAs(scan, FirstMeta(lines)) && scan.current == CurrentTurn(lines)
    && Holds(scan.turns, AllGifts(lines)) && scan.windows == AllWindows(lines)
  }

  lemma CopiedCounts(scan: Scan, before: seq<Line>, line: Line)
    requires MetaAs(scan, FirstMeta(before)) && (line.Event? || line.ResponseItem? || line.Compacted?)
    ensures Counts(before, line) <==> !Copied(scan, LineTime(line))
  {
    hide FirstMeta;
  }

  /** Giving one gift. */
  function Give(turns: Turns, g: Gift): Turns {
    if g.turn == "" then turns
    else
      var t := TurnAt(turns, g.turn);
      turns[g.turn := Turn(
        t.items + (if g.item != "" then {g.item} else {}),
        t.reasoning + (if g.item != "" && IsReasoningGift(g) then {g.item} else {}),
        t.calls + (if g.call != "" then {g.call} else {}),
        t.hashes + (if g.hash != "" then {g.hash} else {}))]
  }

  lemma GivenAppend(gifts: seq<Gift>, g: Gift, turn: string)
    ensures Given(gifts + [g], turn) ==
      if g.turn != turn then Given(gifts, turn)
      else
        var t := Given(gifts, turn);
        Turn(t.items + (if g.item != "" then {g.item} else {}),
             t.reasoning + (if g.item != "" && IsReasoningGift(g) then {g.item} else {}),
             t.calls + (if g.call != "" then {g.call} else {}),
             t.hashes + (if g.hash != "" then {g.hash} else {}))
  {
    hide IsReasoningGift;
    assert forall x :: x in gifts + [g] <==> x in gifts || x == g;
  }

  lemma GiveHolds(turns: Turns, gifts: seq<Gift>, g: Gift)
    requires Holds(turns, gifts)
    ensures Holds(Give(turns, g), gifts + Named([g]))
  {
    hide Given, IsReasoningGift;
    assert [g][..0] == [];
    if g.turn == "" {
      assert gifts + Named([g]) == gifts;
    } else {
      assert gifts + Named([g]) == gifts + [g];
      forall id ensures TurnAt(Give(turns, g), id) == Given(gifts + [g], id) { GivenAppend(gifts, g, id); }
      assert forall x :: x in gifts + [g] <==> x in gifts || x == g;
    }
  }

  lemma ItemGives(turns: Turns, id: string, kind: string, itemId: string, callId: string)
    ensures AddItem(Everything, turns, id, kind, itemId, callId) == Give(turns, Gift(id, itemId, kind, callId, ""))
  {
    assert IsReasoning(kind, itemId) <==> IsReasoningGift(Gift(id, itemId, kind, callId, ""));
    hide IsReasoning, IsReasoningGift;
    var t := TurnAt(turns, id);
    assert t.items + {} == t.items && t.reasoning + {} == t.reasoning;
    assert t.calls + {} == t.calls && t.hashes + {} == t.hashes;
  }

  lemma HashGives(turns: Turns, id: string, hash: string)
    ensures AddHash(Everything, turns, id, hash) == Give(turns, Gift(id, "", "", "", hash))
  {
    hide IsReasoningGift;
    var t := TurnAt(turns, id);
    assert t.items + {} == t.items && t.reasoning + {} == t.reasoning;
    assert t.calls + {} == t.calls && t.hashes + {} == t.hashes;
  }

  lemma NamedAppend(gifts: seq<Gift>, g: Gift)
    ensures Named(gifts + [g]) == Named(gifts) + Named([g])
  {
    assert (gifts + [g])[..|gifts|] == gifts && [g][..0] == [];
  }

  lemma NoGifts(gifts: seq<Gift>)
    ensures Named([]) == [] && gifts + [] == gifts
  {
  }

  lemma EventGives(s: Scan, gifts: seq<Gift>, line: Line)
    requires line.Event? && Holds(s.turns, gifts)
    ensures Holds(OnEvent(Everything, s, line).turns, gifts + Named(Gifts(line, s.current)))
    ensures OnEvent(Everything, s, line).current == if Opens(line) then line.turnId else s.current
    ensures OnEvent(Everything, s, line) ==
      s.(turns := OnEvent(Everything, s, line).turns, current := OnEvent(Everything, s, line).current)
  {
    hide Holds, AddItem, AddHash, Give, Named;
    var opening, itemTurn := Gift(line.turnId, "", "", "", line.hash), FirstOf(line.itemTurnId, line.turnId, "");
    var item := Gift(itemTurn, line.itemId, line.itemKind, "", "");
    var begun := if Opens(line) then Give(s.turns, opening) else s.turns;
    var given := if Opens(line) then [opening] else [];
    HashGives(s.turns, line.turnId, line.hash);
    ItemGives(begun, itemTurn, line.itemKind, line.itemId, "");
    NoGifts(gifts);
    GiveHolds(s.turns, gifts, opening);
    if line.itemId != "" {
      GiveHolds(begun, gifts + Named(given), item);
      NamedAppend(given, item);
      assert gifts + Named(given) + Named([item]) == gifts + (Named(given) + Named([item]));
      assert Gifts(line, s.current) == given + [item];
    } else {
      assert Gifts(line, s.current) == given + [];
      assert given + [] == given;
    }
  }

  lemma ItemLineGives(s: Scan, gifts: seq<Gift>, line: Line)
    requires line.ResponseItem? && Holds(s.turns, gifts)
    ensures Holds(OnItem(Everything, s, line).turns, gifts + Named(Gifts(line, s.current)))
    ensures OnItem(Everything, s, line) == s.(turns := OnItem(Everything, s, line).turns)
  {
    hide Holds, AddItem, Give, Named;
    var turn := FirstOf(line.internalTurnId, line.metadataTurnId, s.current);
    ItemGives(s.turns, turn, line.kind, line.itemId, line.callId);
    GiveHolds(s.turns, gifts, Gift(turn, line.itemId, line.kind, line.callId, ""));
  }

  /** What one more line adds. */
  lemma SaysLast(lines: seq<Line>, line: Line)
    ensures FirstMeta(lines + [line]) ==
      if FirstMeta(lines).Some? then FirstMeta(lines)
      else if line.SessionMeta? then Some((line.at, line.meta)) else None
    ensures CurrentTurn(lines + [line]) ==
      if Counts(lines, line) && Opens(line) then line.turnId else CurrentTurn(lines)
    ensures AllGifts(lines + [line]) ==
      AllGifts(lines) + if Counts(lines, line) then Named(Gifts(line, CurrentTurn(lines))) else []
    ensures AllWindows(lines + [line]) ==
      AllWindows(lines) + if Counts(lines, line) && SaysWindow(line) then [line.window] else []
  {
    hide Counts, Opens, Named, Gifts, SaysWindow;
    assert (lines + [line])[..|lines|] == lines;
  }

  lemma QuietSays(scan: Scan, lines: seq<Line>, line: Line)
    requires Says(scan, lines) && !Counts(lines, line) && (line.SessionMeta? ==> FirstMeta(lines).Some?)
    ensures Says(scan, lines + [line])
  {
    hide Counts, Opens, Named, Gifts, SaysWindow, FirstMeta, CurrentTurn, AllGifts, AllWindows, Holds, MetaAs;
    SaysLast(lines, line);
    assert AllGifts(lines) + [] == AllGifts(lines) && AllWindows(lines) + [] == AllWindows(lines);
  }

  lemma CountingSays(scan: Scan, lines: seq<Line>, line: Line)
    requires Says(scan, lines) && Counts(lines, line)
    ensures
      var next := match line
        case Event(_, _, _, _, _, _, _) => OnEvent(Everything, scan, line)
        case ResponseItem(_, _, _, _, _, _) => OnItem(Everything, scan, line)
        case Compacted(_) => OnCompacted(scan, line)
        case _ => scan;
      Says(next, lines + [line])
  {
    assert line.Event? || line.ResponseItem? || line.Compacted?;
    hide Counts, Named, FirstMeta, CurrentTurn, AllGifts, AllWindows, Holds, MetaAs, OnEvent, OnItem;
    SaysLast(lines, line);
    assert AllGifts(lines) + [] == AllGifts(lines) && AllWindows(lines) + [] == AllWindows(lines);
    NoGifts(AllGifts(lines));
    if line.Event? { EventGives(scan, AllGifts(lines), line); }
    if line.ResponseItem? { ItemLineGives(scan, AllGifts(lines), line); }
    SameMetaAs(scan, OnEventOrItem(scan, line), FirstMeta(lines));
  }

  function OnEventOrItem(scan: Scan, line: Line): Scan {
    match line
    case Event(_, _, _, _, _, _, _) => OnEvent(Everything, scan, line)
    case ResponseItem(_, _, _, _, _, _) => OnItem(Everything, scan, line)
    case Compacted(_) => OnCompacted(scan, line)
    case _ => scan
  }

  lemma SameMetaAs(s: Scan, t: Scan, first: Option<(int, Meta)>)
    ensures t.meta == s.meta && t.createdAt == s.createdAt && MetaAs(s, first) ==> MetaAs(t, first)
  {
  }

  lemma MetaSays(admits: Meta -> bool, scan: Scan, lines: seq<Line>, line: Line)
    requires Says(scan, lines) && line.SessionMeta? && OnMeta(admits, scan, line).Running?
    ensures Says(OnMeta(admits, scan, line).scan, lines + [line])
  {
    hide Named, Gifts, SaysWindow, CurrentTurn, AllGifts, AllWindows, Holds, ValidMeta, FirstMeta;
    SaysLast(lines, line);
    assert AllGifts(lines) + [] == AllGifts(lines) && AllWindows(lines) + [] == AllWindows(lines);
  }

  lemma StepSays(admits: Meta -> bool, scan: Scan, lines: seq<Line>, line: Line)
    requires Says(scan, lines) && Step(Everything, admits, scan, line).Running?
    ensures Says(Step(Everything, admits, scan, line).scan, lines + [line])
  {
    hide Says, OnMeta, OnEvent, OnItem, OnCompacted, Copied, LineTime;
    if line.SessionMeta? {
      MetaSays(admits, scan, lines, line);
    } else {
      SaysCounts(scan, lines, line);
      if !line.Ignored? && !Copied(scan, LineTime(line)) {
        CountingSays(scan, lines, line);
      } else {
        QuietSays(scan, lines, line);
      }
    }
  }

  lemma SaysCounts(scan: Scan, lines: seq<Line>, line: Line)
    requires Says(scan, lines) && !line.SessionMeta?
    ensures Counts(lines, line) <==> !line.Ignored? && !Copied(scan, LineTime(line))
  {
    hide FirstMeta, CurrentTurn, AllGifts, AllWindows, Holds;
    if !line.Ignored? {
      hide MetaAs, Copied, LineTime, Counts;
      CopiedCounts(scan, lines, line);
    }
  }

  /** A scan that goes on holds exactly what the lines say: the first metadata, the current turn, for every turn the
      items, reasoning items, calls and hashes that the counting lines give it, and their windows in order. */
  lemma {:induction false} ScanSays(admits: Meta -> bool, lines: seq<Line>)
    ensures Run(Everything, admits, lines).Running? ==> Says(Run(Everything, admits, lines).scan, lines)
  {
    if lines == [] {
      NothingSaid();
    } else {
      hide Says, Step;
      var n := |lines| - 1;
      ScanSays(admits, lines[..n]);
      assert lines[..n] + [lines[n]] == lines;
      if Run(Everything, admits, lines).Running? {
        StepSays(admits, Run(Everything, admits, lines[..n]).scan, lines[..n], lines[n]);
      }
    }
  }

  lemma NothingSaid()
    ensures Says(NEW_SCAN, [])
  {
  }

  // ---------- One file ----------

  predicate MetaFits(meta: Meta) {
    SessionOf(meta) != "" && meta.threadId != "" && meta.cwd != "" && meta.cwd[0] == '/'
  }

  /** The scan goes on exactly while the first metadata, if there is any, is valid and admitted. */
  lemma {:induction false} RunsExactly(admits: Meta -> bool, lines: seq<Line>)
    ensures Run(Everything, admits, lines).Running? <==>
      match FirstMeta(lines)
      case None => true
      case Some((_, meta)) => MetaFits(meta) && admits(meta.(sessionId := SessionOf(meta)))
  {
    if lines != [] {
      hide Says;
      var n := |lines| - 1;
      RunsExactly(admits, lines[..n]);
      ScanSays(admits, lines[..n]);
      if Run(Everything, admits, lines[..n]).Running? {
        MetaKnown(Run(Everything, admits, lines[..n]).scan, lines[..n]);
      }
    }
  }

  lemma MetaKnown(scan: Scan, lines: seq<Line>)
    requires Says(scan, lines)
    ensures scan.meta.Some? <==> FirstMeta(lines).Some?
  {
    hide FirstMeta, CurrentTurn, AllGifts, AllWindows, Holds;
  }

  /** A file becomes a rollout exactly when its first metadata is valid and admitted; the rollout then is what the
      file's counting lines say. */
  lemma ReadSays(path: nat, admits: Meta -> bool, lines: seq<Line>)
    ensures
      var r := Read(path, Everything, admits, lines);
      && (r.Some? <==>
            FirstMeta(lines).Some? && MetaFits(FirstMeta(lines).value.1) &&
            admits(FirstMeta(lines).value.1.(sessionId := SessionOf(FirstMeta(lines).value.1))))
      && (r.Some? ==>
            && r.value.path == path
            && r.value.meta == FirstMeta(lines).value.1.(sessionId := SessionOf(FirstMeta(lines).value.1))
            && Holds(r.value.turns, AllGifts(lines)) && r.value.windows == AllWindows(lines))
  {
    hide Run, FirstMeta, CurrentTurn, AllGifts, AllWindows, Holds;
    RunsExactly(admits, lines);
    ScanSays(admits, lines);
  }
}
