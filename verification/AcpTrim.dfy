/** Trimming as the least removal that fits: what goes, in which order, and that no more goes than must. */
module AcpTrim {
  import opened AcpSnapshot

  // ---------- The order in which things go ----------

  /** A prompt after k removals: its agent text goes first, its user text second. */
  function Stripped(p: Prompt, k: nat): Prompt {
    p.(agentText := if k >= 1 then [] else p.agentText, userText := if k >= 2 then [] else p.userText)
  }

  function StrippedWeight(p: Prompt, k: nat): nat {
    (if k >= 1 then EscapedLength(p.agentText) else 0) + (if k >= 2 then EscapedLength(p.userText) else 0)
  }

  function Less(k: nat, n: nat): nat {
    if k <= n then 0 else k - n
  }

  /** The prompts after k text removals, from the newest prompt down. */
  function WithoutTexts(prompts: seq<Prompt>, k: nat): (r: seq<Prompt>)
    ensures |r| == |prompts|
  {
    if prompts == [] then []
    else
      var n := |prompts| - 1;
      WithoutTexts(prompts[..n], Less(k, 2)) + [Stripped(prompts[n], k)]
  }

  function TextsWeight(prompts: seq<Prompt>, k: nat): nat {
    if prompts == [] then 0
    else
      var n := |prompts| - 1;
      StrippedWeight(prompts[n], k) + TextsWeight(prompts[..n], Less(k, 2))
  }

  /** The sessions after k workspace removals, from the newest down. */
  function WithoutWorkspaces(sessions: seq<Session>, k: nat): (r: seq<Session>)
    ensures |r| == |sessions|
  {
    if sessions == [] then []
    else
      var n := |sessions| - 1;
      WithoutWorkspaces(sessions[..n], Less(k, 1)) + [if k >= 1 then sessions[n].(cwd := []) else sessions[n]]
  }

  function WorkspacesWeight(sessions: seq<Session>, k: nat): nat {
    if sessions == [] || k == 0 then 0
    else
      var n := |sessions| - 1;
      EscapedLength(sessions[n].cwd) + WorkspacesWeight(sessions[..n], k - 1)
  }

  function PromptsWeight(prompts: seq<Prompt>, k: nat): nat
    requires k <= |prompts|
  {
    if k == 0 then 0
    else PromptLength(prompts[|prompts| - 1]) + PromptsWeight(prompts[..|prompts| - 1], k - 1)
  }

  /** How much of each kind goes: texts, workspaces, whole prompts. */
  datatype Cuts = Cuts(texts: nat, workspaces: nat, prompts: nat)

  predicate Possible(s: Snapshot, c: Cuts) {
    && c.texts <= 2 * |s.prompts| && c.workspaces <= |s.sessions| && c.prompts <= |s.prompts|
    && (c.workspaces > 0 ==> c.texts == 2 * |s.prompts|)
    && (c.prompts > 0 ==> c.texts == 2 * |s.prompts| && c.workspaces == |s.sessions|)
  }

  predicate Everything(s: Snapshot, c: Cuts) {
    c == Cuts(2 * |s.prompts|, |s.sessions|, |s.prompts|)
  }

  /** The snapshot after these removals, marked incomplete. */
  function CutBy(s: Snapshot, c: Cuts): Snapshot
    requires Possible(s, c)
  {
    s.(incomplete := true, sessions := WithoutWorkspaces(s.sessions, c.workspaces),
       prompts := WithoutTexts(s.prompts, c.texts)[..|s.prompts| - c.prompts])
  }

  /** The size that is left by the removals' own account. */
  function SizeAfter(s: Snapshot, c: Cuts): int
    requires Possible(s, c)
  {
    EncodedLength(s) - TextsWeight(s.prompts, c.texts) - WorkspacesWeight(s.sessions, c.workspaces) -
    PromptsWeight(WithoutTexts(s.prompts, c.texts), c.prompts)
  }

  /** One removal fewer: the last thing that went comes back. */
  function OneFewer(c: Cuts): Cuts {
    if c.prompts > 0 then c.(prompts := c.prompts - 1)
    else if c.workspaces > 0 then c.(workspaces := c.workspaces - 1)
    else c.(texts := if c.texts > 0 then c.texts - 1 else 0)
  }

  // ---------- The loops remove no more and no less ----------

  /** The text loop: it stops as soon as the size fits. */
  lemma {:induction false} TextLoop(prompts: seq<Prompt>, size: int) returns (k: nat)
    ensures k <= 2 * |prompts|
    ensures ClearPrompts(prompts, size) == (WithoutTexts(prompts, k), size - TextsWeight(prompts, k))
    ensures k < 2 * |prompts| ==> size - TextsWeight(prompts, k) < MAX_SNAPSHOT_BYTES
    ensures k > 0 ==> size - TextsWeight(prompts, k - 1) >= MAX_SNAPSHOT_BYTES
    ensures k == 0 ==> ClearPrompts(prompts, size) == (prompts, size)
  {
    hide EscapedLength;
    if size < MAX_SNAPSHOT_BYTES {
      k := 0;
      TextsIdle(prompts, size);
    } else if prompts == [] {
      k := 0;
    } else {
      var n := |prompts| - 1;
      var last := ClearPrompt(prompts[n], size);
      var j := LastTexts(prompts[n], size);
      if j < 2 {
        k := j;
        TextsIdle(prompts[..n], last.1);
      } else {
        var rest := TextLoop(prompts[..n], last.1);
        k := 2 + rest;
        OneTextFewer(prompts, k);
      }
    }
  }

  lemma {:induction false} TextsIdle(prompts: seq<Prompt>, size: int)
    ensures WithoutTexts(prompts, 0) == prompts && TextsWeight(prompts, 0) == 0
    ensures size < MAX_SNAPSHOT_BYTES ==> ClearPrompts(prompts, size) == (prompts, size)
  {
    hide EscapedLength;
    if prompts != [] {
      var n := |prompts| - 1;
      TextsIdle(prompts[..n], size);
      assert prompts[..n] + [prompts[n]] == prompts;
    }
  }

  /** How many of one prompt's texts go. */
  lemma LastTexts(p: Prompt, size: int) returns (j: nat)
    requires size >= MAX_SNAPSHOT_BYTES
    ensures 1 <= j <= 2 && ClearPrompt(p, size) == (Stripped(p, j), size - StrippedWeight(p, j))
    ensures j < 2 ==> size - StrippedWeight(p, j) < MAX_SNAPSHOT_BYTES
    ensures j == 2 ==> size - StrippedWeight(p, 1) >= MAX_SNAPSHOT_BYTES
  {
    assert EscapedLength([]) == 0;
    j := if size - EscapedLength(p.agentText) < MAX_SNAPSHOT_BYTES then 1 else 2;
  }

  lemma OneTextFewer(prompts: seq<Prompt>, k: nat)
    requires prompts != [] && k >= 2
    ensures TextsWeight(prompts, k) ==
      StrippedWeight(prompts[|prompts| - 1], 2) + TextsWeight(prompts[..|prompts| - 1], k - 2)
    ensures TextsWeight(prompts, k - 1) ==
      if k == 2 then StrippedWeight(prompts[|prompts| - 1], 1)
      else StrippedWeight(prompts[|prompts| - 1], 2) + TextsWeight(prompts[..|prompts| - 1], k - 3)
  {
    hide EscapedLength;
    TextsIdle(prompts[..|prompts| - 1], 0);
  }

  /** The workspace loop. */
  lemma {:induction false} WorkspaceLoop(sessions: seq<Session>, size: int) returns (k: nat)
    ensures k <= |sessions|
    ensures ClearSessions(sessions, size) == (WithoutWorkspaces(sessions, k), size - WorkspacesWeight(sessions, k))
    ensures k < |sessions| ==> size - WorkspacesWeight(sessions, k) < MAX_SNAPSHOT_BYTES
    ensures k > 0 ==> size - WorkspacesWeight(sessions, k - 1) >= MAX_SNAPSHOT_BYTES
    ensures size < MAX_SNAPSHOT_BYTES ==> k == 0
  {
    assert EscapedLength([]) == 0;
    hide EscapedLength;
    if size < MAX_SNAPSHOT_BYTES {
      k := 0;
      WorkspacesIdle(sessions, size);
    } else if sessions == [] {
      k := 0;
    } else {
      var n := |sessions| - 1;
      var rest := WorkspaceLoop(sessions[..n], size - EscapedLength(sessions[n].cwd));
      k := 1 + rest;
    }
  }

  lemma {:induction false} WorkspacesIdle(sessions: seq<Session>, size: int)
    ensures WithoutWorkspaces(sessions, 0) == sessions && WorkspacesWeight(sessions, 0) == 0
    ensures size < MAX_SNAPSHOT_BYTES ==> ClearSessions(sessions, size) == (sessions, size)
  {
    hide EscapedLength;
    if sessions != [] {
      var n := |sessions| - 1;
      WorkspacesIdle(sessions[..n], size);
      assert sessions[..n] + [sessions[n]] == sessions;
    }
  }

  /** The prompt loop. */
  lemma {:induction false} PromptLoop(prompts: seq<Prompt>, size: int) returns (k: nat)
    ensures k <= |prompts| && DropPrompts(prompts, size) == (prompts[..|prompts| - k], size - PromptsWeight(prompts, k))
    ensures k < |prompts| ==> size - PromptsWeight(prompts, k) < MAX_SNAPSHOT_BYTES
    ensures k > 0 ==> size - PromptsWeight(prompts, k - 1) >= MAX_SNAPSHOT_BYTES
    ensures size < MAX_SNAPSHOT_BYTES ==> k == 0
  {
    hide PromptLength;
    if size >= MAX_SNAPSHOT_BYTES && prompts != [] {
      var n := |prompts| - 1;
      var rest := PromptLoop(prompts[..n], size - PromptLength(prompts[n]));
      k := 1 + rest;
      assert prompts[..n][..n - rest] == prompts[..|prompts| - k];
    } else {
      k := 0;
      assert prompts[..|prompts|] == prompts;
    }
  }

  /** What is published is the snapshot after the least removal that fits: agent text before user text, newest prompt
      first, then workspaces, then whole prompts, each newest first. With one removal fewer the size would still reach
      the bound. */
  lemma TrimmedLeast(s: Snapshot) returns (c: Cuts)
    requires EncodedLength(s) >= 786_432
    ensures Possible(s, c) && Trimmed(s) == CutBy(s, c)
    ensures SizeAfter(s, c) < 786_432 || Everything(s, c)
    ensures Possible(s, OneFewer(c)) && SizeAfter(s, OneFewer(c)) >= 786_432
  {
    hide EncodedLength, ClearPrompts, ClearSessions, DropPrompts, WithoutTexts, WithoutWorkspaces, TextsWeight,
      WorkspacesWeight, PromptsWeight;
    var size := EncodedLength(s);
    var texts := TextLoop(s.prompts, size);
    var left := ClearPrompts(s.prompts, size).1;
    var workspaces := WorkspaceLoop(s.sessions, left);
    var rest := ClearSessions(s.sessions, left).1;
    var prompts := PromptLoop(WithoutTexts(s.prompts, texts), rest);
    c := Cuts(texts, workspaces, prompts);
    NoWeights(s, texts);
    if texts > 0 { NoWeights(s, texts - 1); }
  }

  lemma NoWeights(s: Snapshot, texts: nat)
    ensures TextsWeight(s.prompts, 0) == 0 && WorkspacesWeight(s.sessions, 0) == 0
    ensures PromptsWeight(WithoutTexts(s.prompts, texts), 0) == 0
  {
    hide EscapedLength, PromptLength;
    TextsIdle(s.prompts, 0);
  }
}
