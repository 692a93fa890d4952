# Vibermate core protocols, modelled and proved in Dafny

This project models the parts of Vibermate whose correctness depends on several structures or several
concurrent actors staying in step, and proves what those parts are for. `dafny verify dfyconfig.toml` checks it.

| component | files | main results |
|---|---|---|
| ACP observer: two raw byte streams, a bounded projection, trimmed snapshots | `Utf8`, `AcpSnapshot`, `AcpMessages`, `AcpInvariant`, `AcpExact`, `AcpComplete`, `AcpFraming`, `AcpRecords`, `AcpRuns`, `AcpTrim`, `AcpJson`, `AcpObserver` | `AcpRuns.RecordsInEveryRun`, `IncompleteExactly`, `CompleteObservationIsExact`, `PublishedLegal`, `PublishedFits`, `RevisionDeterminesSnapshot`, `AcpTrim.TrimmedLeast`, `AcpFraming.Framing`, `AcpObserver.Observer.Feed` (the chunk-wise loop is the byte-wise observer; `ChunkingIrrelevant` then follows at once) |
| ACP relay: two pumps and a coordinator as interleaved steps | `AcpRelay`, `AcpRelayTrace` | `SuccessfulRelay`, `ReturnedRelay`, `ReturnedTrace`, `RelaySafety`, `StoppingTerminates`, `StoppingProgress` |
| Client identity: the evidence merge as a partial join | `Strings`, `IdentityEvidence`, `ClientIdentity` | `JoinIsLeastUpperBound`, `JoinAccepts`, `JoinAssociative`, `JoinAllPermutation`, `ChangedMeansMore` |
| Conversation projections: names, facts, references, two routes to one reference | `ProjectionNames`, `ProtocolIdentity`, `ProjectionFacts`, `ProjectionRefs`, `ProjectionSays` | `SharedReference`, `PrepareSays`, `ProjectsExactly`, `PreparedShape`, `RoutesAgree` |
| Codex resolver: an exact join behind prefilters | `CodexRollout`, `CodexScan`, `CodexResolver`, `CodexIdentity`, `CodexBatch` | `PrefilterSafe`, `ReadSays`, `ResolutionSays`, `IdentitySays`, `ResolveBatch`, `WholeEvidence`, `WholeIdentity`, `BuiltSelfConsistent` |
| Admission gates: two implementations of one abstract gate | `AdmissionGate`, `LifecycleGate`, `ActivityGate` | `RunRefines`, `RunTraced`, `DrainedForever`, `DrainExact`, `ShutdownForever`, `NoLostWakeup` |
| Model catalog rewrite under aliases | `CatalogRewrite`, `CatalogMeaning`, `CatalogOutcome` | `RewriteSays`, `TouchedSays`, `RewriteMeansOneHop`, `NamesExact`, `UnaffectedSame` |
| Release evidence: crash-ordered publication | `EvidencePublication` | `WriteEvidence`, `CrashSafe`, `CrashShowsOrphan` |
| Marker search over streamed text | `MarkerSearch` | `SearchExact`, `SearchCondition` |

Code that updates state in place is a class or a method with loops, proved against a function on values; the
theorems are then about that function, and say what it comes to on inputs, histories or action sequences alone, with
names and bounds written out. Concurrent code is a state machine whose actions are the critical sections,
channel operations and I/O results, taken in any order. `Wrappers` and `FiniteSets` are shared helpers.

## Properties that hold only under a condition

Some natural statements are not true of the code. Each has a lemma with the exact condition; `Counterexamples` holds
concrete inputs.

- A published snapshot passes the validator, in runs of fewer than 2^63 - 1 bytes and calls, exactly when the first
  `Finish` has an exit code in 0..255 (`AcpRuns.PublishedLegal`); the method itself accepts any exit code, and its
  present caller passes an 8-bit one.
- An input that can be prepared does not always become a reference: the capture run or exchange that an identifier
  spells out must be plain and short enough, the leaf of an unlabelled actor's path must be acceptable text, and so must
  a speaker that only a message names (`ProjectionRefs.ProjectsExactly`); the actor `a/ b` has the leaf ` b`, which is
  not (`Counterexamples.Unmaterialized`).
- Merging a valid identity with itself fails when one stable name carries two values: validation admits such
  evidence and the merge does not (`ClientIdentity.JoinIdempotent`).
- Projecting a Claude exchange through its advertised identity and from its request evidence give different
  references when the request or response names an actor or asserts a subagent (`ProjectionFacts.RoutesAgree`).
- The Codex prefilters never change which turn is matched, but a turn that is reached through an item or call alone
  may lose other evidence, such as its compaction hashes; it is whole in every rollout exactly when the turn itself
  is wanted (`CodexRollout.WholeEvidence`).
- A lifecycle drain that starts while admission is still open may succeed while an operation is active; it is a
  promise exactly when admission was closed first (`LifecycleGate.DrainExact`). `Manager.Drain` closes first.
- A rollback after the manifest was linked leaves a moment at which a crash keeps the manifest without its checksum,
  exactly when the checksum's removal succeeded (`EvidencePublication.WriteEvidence`, `CrashShowsOrphan`). The
  checksum had nevertheless been durable before, which is what the source promises.
- Streaming marker search equals whole-text search for every splitting exactly for markers of 1 to 65 bytes
  (`MarkerSearch.SearchCondition`).

## Model

| member | source | states |
|---|---|---|
| `Utf8.Truncate` | internal/acpobservation/observer.go:104-113 | the truncation loop returns the longest prefix within the limit that is well-formed UTF-8 |
| `Utf8.ValidConcat` | internal/acpobservation/observer.go:322-329 | appending well-formed text to well-formed text stays well-formed, so growing texts never break a character |
| `AcpSnapshot.Validate` | internal/acpobservation/observation.go:87-142 | the validator's loops accept exactly the legal snapshots: unique bounded sessions, increasing sequences, known sessions, text budget, nothing pending once final |
| `AcpSnapshot.ValidateSessions` | internal/acpobservation/observation.go:94-108 | accepts exactly sessions with bounded valid text and no identifier twice |
| `AcpSnapshot.ValidatePrompts` | internal/acpobservation/observation.go:109-137 | accepts exactly increasing, well-formed prompts of known sessions, and totals their text |
| `AcpSnapshot.Trim` | internal/acpobservation/observer.go:331-371 | the three trimming loops with their running size compute the trimmed snapshot, which `AcpTrim.TrimmedLeast` describes without them |
| `AcpSnapshot.TrimTexts` | internal/acpobservation/observer.go:349-359 | clears agent then user text from the newest prompt down while the running size is too large; `AcpTrim.TextLoop` says how many texts that are |
| `AcpSnapshot.TrimWorkspaces` | internal/acpobservation/observer.go:360-362 | clears workspaces from the newest session down while the running size is too large |
| `AcpSnapshot.TrimPrompts` | internal/acpobservation/observer.go:363-368 | drops the newest prompts while the running size is too large |
| `AcpSnapshot.ClearPromptsSize` | internal/acpobservation/observer.go:349-359 | clearing texts lowers the running size by no more than the encoding shrinks, so the size stays an upper bound |
| `AcpSnapshot.ClearSessionsSize` | internal/acpobservation/observer.go:349-362 | clearing workspaces lowers the running size by no more than the encoding shrinks |
| `AcpSnapshot.DropPromptsSize` | internal/acpobservation/observer.go:363-368 | dropping prompts lowers the running size by no more than the encoding shrinks |
| `AcpSnapshot.TrimmedPriorities` | internal/acpobservation/observer.go:331-371 | trimming marks the copy incomplete exactly when it changes it, and loses texts before workspaces before prompts, newest prompts first |
| `AcpSnapshot.TrimmedFits` | internal/acpobservation/observer.go:331-371 | the encoded trimmed snapshot is strictly below the storage bound even at six output bytes per input byte |
| `AcpSnapshot.TrimmedLegal` | internal/acpobservation/observer.go:331-371 | trimming keeps a snapshot legal |
| `AcpTrim.TrimmedLeast` | internal/acpobservation/observer.go:331-371 | what is published is the snapshot after the least removal that fits: agent text before user text, newest prompt first, then workspaces, then whole prompts, newest first; with one removal fewer the size would still reach the bound |
| `AcpTrim.TextLoop` | internal/acpobservation/observer.go:349-359 | the text loop removes exactly the first texts of that order until the running size is below the bound |
| `AcpJson.SizeSays` | internal/acpobservation/observer.go:345-367 | the running size starts from, and is lowered by, lengths of the JSON text as it is written |
| `AcpJson.EscapeBack` | internal/acpobservation/observer.go:351-352 | the string encoding whose length is counted is undone by decoding, for all well-formed text |
| `AcpJson.PublishedTextFits` | internal/acpobservation/observer.go:331-371 | after any run below 2^63 - 1 bytes and calls the JSON text that readers get is shorter than 768 KiB |
| `AcpMessages.Retain` | internal/acpobservation/observer.go:322-329 | the kept text is the longest well-formed prefix that fits the remaining budget, is charged in full, and is the whole text unless marked lost |
| `AcpMessages.RetainBlocks` | internal/acpobservation/observer.go:166-172 | the texts of a prompt's blocks are kept in order within the budget |
| `AcpInvariant.MessageKeepsInv` | internal/acpobservation/observer.go:115-311 | every message keeps open requests and pending prompts in bijection, active entries on pending prompts of their session, sessions unique and the text budget exact |
| `AcpInvariant.ByteKeepsInv` | internal/acpobservation/observer.go:45-85 | every received byte keeps that invariant and the frame buffers bounded and newline-free |
| `AcpInvariant.FinishKeepsInv` | internal/acpobservation/observer.go:373-402 | finishing keeps the invariant and leaves nothing pending |
| `AcpInvariant.InvLegal` | internal/acpobservation/observation.go:87-142 | a state with the invariant holds a legal snapshot exactly when its revision and exit code are in range |
| `AcpInvariant.MessageEvolves` | internal/acpobservation/observer.go:115-311 | a message never lowers the revision, changes the snapshot only with a new revision, and never touches a settled prompt |
| `AcpInvariant.ByteEvolves` | internal/acpobservation/observer.go:45-85 | the same for every received byte; a final observer does not change |
| `AcpInvariant.EvolvesTransitive` | internal/acpobservation/observation.go:74-83 | the relation between an earlier and a later moment composes, so it holds over whole runs |
| `AcpInvariant.FinishEvolves` | internal/acpobservation/observer.go:373-402 | the same for finishing, which a second call does not repeat |
| `AcpExact.TracksMessage` | internal/acpobservation/observer.go:115-311 | each message of a complete observation keeps the tables equal to what the history alone says is open |
| `AcpExact.PromptIndicesComplete` | internal/acpobservation/observer.go:158-183 | the reference list of prompts holds every session/prompt request of the history, in order |
| `AcpComplete.MessageStep` | internal/acpobservation/observer.go:115-311 | a message marks the observation incomplete exactly when the history alone says that it cannot be followed: a request without an id of its own, oversized or beyond the limits, a prompt of an unknown or busy session, an undecodable reply or update, a session id that does not fit, or text beyond the budget |
| `AcpComplete.BusyActive` | internal/acpobservation/observer.go:158-183 | the active table lists exactly the sessions whose prompt awaits a reply |
| `AcpComplete.ReplyStanding` | internal/acpobservation/observer.go:185-265 | a reply publishes once, a successful initialize introduces the agent truncated, success of a login or prompt ends the need to authenticate and error -32000 starts it |
| `AcpComplete.MessageRunFollows` | internal/acpobservation/observer.go:115-311 | while messages arrive nothing is marked incomplete exactly as long as everything could be followed, and the tables, sessions and text budget are then those of the history |
| `AcpComplete.CompleteHistoryIsExact` | internal/acpobservation/observer.go:115-402 | a history ends incomplete exactly when the owner says so, something could not be followed or a tracked request stayed unanswered; otherwise every field of the snapshot is what the history says: prompts with texts, tool calls and outcomes, sessions of the successful replies in order, agent, protocol version, need to authenticate, revision and exit code |
| `AcpComplete.SnapshotDetermined` | internal/acpobservation/observer.go:115-402 | only one snapshot says what a history and an exit code say, so a complete snapshot is a function of them |
| `AcpRecords.EveryRunMirrors` | internal/acpobservation/observer.go:115-311 | after every history, complete or not: the sessions and open requests are those that the history took, and each prompt record has the session, outcome, tool calls and texts that the history says, each text being what fitted of what that prompt heard, in order, under the budget left by all earlier text |
| `AcpRecords.MessageStep` | internal/acpobservation/observer.go:115-311 | one more message keeps the records those of the history |
| `AcpRecords.RetainFits` | internal/acpobservation/observer.go:322-329 | what the budget keeps of a text is its longest well-formed prefix that fits what is left |
| `AcpRecords.RetainBlocksFits` | internal/acpobservation/observer.go:166-172 | the same for the text blocks of a prompt, each behind those before it |
| `AcpRecords.JoinedExactly` | internal/acpobservation/observer.go:222-241 | a reply opens the session it names, or for load and resume the requested one, if it succeeded, is new and there is room |
| `AcpRecords.OverlapSilences` | internal/acpobservation/observer.go:158-183 | once two prompts of a session overlap, no update is credited to any of its prompts until one of them is answered |
| `AcpFraming.Framing` | internal/acpobservation/observer.go:45-85 | any interleaving of two byte streams reaches the projection of their newline-split lines without the blank and oversized ones, plus one revision per oversized line |
| `AcpFraming.OnWireConcat` | internal/acpobservation/observer.go:45-85 | receiving a stream in two parts is receiving it whole |
| `AcpFraming.FrameShift` | internal/acpobservation/observer.go:115-311 | handling a frame does not depend on earlier missed lines or on buffered partial lines |
| `AcpFraming.ObservedLines` | internal/acpobservation/observer.go:45-121 | if nothing was missed then every line was decoded and of admissible size, and the state is that of its messages |
| `AcpFraming.DecodedLines` | internal/acpobservation/observer.go:45-121 | lines that all decode and fit leave the observer where their messages do |
| `AcpFraming.LinesAreMessages` | internal/acpobservation/observer.go:45-121 | whatever the lines are, they leave what their messages leave, with one more thing missed for each line that does not decode |
| `AcpRuns.ChunkingIrrelevant` | internal/acpobservation/observer.go:45-85 | feeding `a + b` reaches the same state as feeding `a` then `b`, from every state |
| `AcpRuns.RunKeepsInv` | internal/acpobservation/observer.go:45-402 | the coupling invariant holds after every sequence of `Feed` and `Finish` calls |
| `AcpRuns.RunEvolves` | internal/acpobservation/observer.go:45-402 | over a whole run: revisions never decrease, settled prompts are frozen, `Incomplete` is sticky, nothing changes after `Final` |
| `AcpRuns.RevisionDeterminesSnapshot` | internal/acpobservation/observation.go:74-83 | two reads of a run at equal revisions return identical snapshots |
| `AcpRuns.PublishedLegal` | internal/acpobservation/observer.go:331-402 | what `Snapshot` returns after any run of fewer than 2^63 - 1 bytes and calls passes the validator, if and only if the first `Finish` has an exit code in 0..255 |
| `AcpRuns.LegalInRange` | internal/acpobservation/observation.go:87-142 | but for the range of revision and exit code every published snapshot is legal |
| `AcpRuns.FinalHasFinish` | internal/acpobservation/observer.go:373-402 | an observer is final exactly when `Finish` was called, and keeps the first call's exit code |
| `AcpRuns.PublishedFits` | internal/acpobservation/observer.go:331-371 | what `Snapshot` returns after any run below 2^63 - 1 bytes and calls encodes strictly below the storage bound |
| `AcpRuns.RunRevision` | internal/acpobservation/observer.go:45-402 | the revision grows by at most one per byte or call |
| `AcpRuns.CompleteObservationIsExact` | internal/acpobservation/observer.go:45-402 | a published final snapshot that is not `Incomplete`: both streams were whole decodable lines, everything could be followed and was answered, no session had two open prompts, and every field of the snapshot is the one that the messages and the exit code determine |
| `AcpRuns.IncompleteExactly` | internal/acpobservation/observer.go:45-402 | a finished observer is `Incomplete` exactly when its owner said so or, from the received bytes alone, a line was partial, oversized or undecodable, a message could not be followed, or a request stayed unanswered |
| `AcpRuns.RecordsInEveryRun` | internal/acpobservation/observer.go:45-402 | in every run, complete or not: the sessions and the prompts, with their texts, tool calls and outcomes, are those of the received messages; a finished run has interrupted what was pending |
| `AcpRuns.PublishedIncomplete` | internal/acpobservation/observer.go:331-371 | readers see `Incomplete` exactly when the observer is or its encoding had to be trimmed |
| `AcpObserver.Observer.constructor` | internal/acpobservation/observer.go:41-43 | a new observer is the initial state and meets the invariant |
| `AcpObserver.Observer.Feed` | internal/acpobservation/observer.go:45-85 | the chunk-wise buffer loop does what the byte-wise specification does |
| `AcpObserver.Observer.FeedLine` | internal/acpobservation/observer.go:56-84 | one pass takes the bytes up to and including the next newline and does what the byte-wise specification does for them |
| `AcpObserver.Observer.Frame` | internal/acpobservation/observer.go:115-311 | a frame is decoded, classified and handled as specified; an undecodable one marks the run incomplete |
| `AcpObserver.Observer.OnAuthStatus` | internal/acpobservation/observer.go:266-277 | an authentication notice of kind none asks for authentication and publishes |
| `AcpObserver.Observer.OnClientRequest` | internal/acpobservation/observer.go:122-184 | a tracked request is entered in the table, with duplicate and overflow cases |
| `AcpObserver.Observer.OpenPrompt` | internal/acpobservation/observer.go:158-183 | a prompt request appends a pending prompt and makes it the session's active one, or marks an overlap |
| `AcpObserver.Observer.OnAgentResponse` | internal/acpobservation/observer.go:185-265 | a response settles the request it names and only that one |
| `AcpObserver.Observer.OnSessionUpdate` | internal/acpobservation/observer.go:278-311 | an update adds its text or tool call to the active prompt of its session |
| `AcpObserver.Observer.RetainText` | internal/acpobservation/observer.go:322-329 | keeps what `AcpMessages.Retain` keeps, the longest well-formed prefix that fits, charges it and marks what was lost |
| `AcpObserver.Observer.Read` | internal/acpobservation/observer.go:331-371 | returns the trimmed copy, below the storage bound, and changes nothing |
| `AcpObserver.Observer.Finish` | internal/acpobservation/observer.go:373-402 | interrupts what is pending, seals the snapshot and keeps the invariant |
| `AcpObserver.InterruptPrompts` | internal/acpobservation/observer.go:390-395 | interrupts exactly the pending prompts and says whether there were any |
| `AcpRelay.StepInv` | internal/acpbridge/relay.go:94-187 | every read, write, receive, cancellation and close, in any order, keeps the relay invariant |
| `AcpRelay.RunInv` | internal/acpbridge/relay.go:94-187 | the invariant holds after every interleaving |
| `AcpRelay.RelaySafety` | internal/acpbridge/relay.go:59-187 | each destination holds a prefix of its source, no stream is closed twice, and before the relay stops only client EOF has closed anything: the agent's output half |
| `AcpRelay.ReturnedRelay` | internal/acpbridge/relay.go:94-187 | at return both pumps are joined, all four streams were closed exactly once, the counts are the delivered lengths and the error is the first failure met; `AcpRelayTrace.ReturnedTrace` reads that failure off the I/O results |
| `AcpRelay.SuccessfulRelay` | internal/acpbridge/relay.go:120-187 | no error means the agent's stream was delivered whole to EOF and its output closed cleanly, and every client byte was accepted |
| `AcpRelay.FailureIsSticky` | internal/acpbridge/relay.go:132-186 | a step records a failure exactly when none was recorded and the step meets one |
| `AcpRelay.RunFailure` | internal/acpbridge/relay.go:132-186 | after every execution the recorded failure is the first one met; `AcpRelayTrace.RunTraced` ties its cause to what the streams reported |
| `AcpRelay.StoppingTerminates` | internal/acpbridge/relay.go:120-187 | if closing a half unblocks its I/O, a stopping relay has at most nine steps left |
| `AcpRelay.StoppingProgress` | internal/acpbridge/relay.go:120-187 | a stopping or cancelled relay that has not returned can always take a step |
| `AcpRelayTrace.RunTraced` | internal/acpbridge/relay.go:94-187 | in every execution, from the actions alone: each pump has read and delivered what they say, failed with the very error that a read or write reported or with a short write, and the relay has stopped with exactly the error that they decide |
| `AcpRelayTrace.ReturnedTrace` | internal/acpbridge/relay.go:94-187 | the returned error with its cause, the delivered bytes and both counts, from the sequence of I/O results, cancellations and close outcomes |
| `AcpRelayTrace.NeverStarted` | internal/acpbridge/relay.go:94-110 | a relay whose context is done before it starts moves nothing and returns that |
| `IdentityEvidence.Validate` | internal/agentconversation/projection.go:380-408 | the validation loop accepts exactly bounded, well-formed, strictly ordered lists, with unique names where demanded |
| `IdentityEvidence.SortedUnique` | internal/agentconversation/projection.go:380-408 | a canonical list is determined by its set of values |
| `IdentityEvidence.Collect` | internal/agentconversation/projection.go:340-360 | stops exactly at a stable name whose value changed |
| `IdentityEvidence.Merge` | internal/agentconversation/projection.go:327-378 | is defined exactly on consistent evidence, and is the canonical union whatever order the map is visited in |
| `ClientIdentity.MergeClientIdentity` | internal/agentconversation/projection.go:231-306 | the merge computes the join, and `changed` says whether the result differs from the stored identity |
| `ClientIdentity.JoinIsLeastUpperBound` | internal/agentconversation/projection.go:231-306 | the merged identity holds both inputs' evidence and is below every identity that does |
| `ClientIdentity.JoinDefined` | internal/agentconversation/projection.go:231-306 | the merge succeeds exactly when both observations are valid and some legal identity holds both |
| `ClientIdentity.JoinAccepts` | internal/agentconversation/projection.go:231-306 | two valid observations merge exactly when they are of one client, session and actor, give no label, type or provider identifier differently, none of the seven association names and no attribute has two values, and neither list grows beyond 8192 |
| `ClientIdentity.JoinSays` | internal/agentconversation/projection.go:231-306 | what the merge keeps, field by field: the union of both lists, text that either gives, local state if either has it, the earlier time in whole milliseconds |
| `ClientIdentity.ChangedMeansMore` | internal/agentconversation/projection.go:300-306 | `changed` is false exactly when the incoming identity adds nothing |
| `ClientIdentity.JoinCommutative` | internal/agentconversation/projection.go:231-306 | result and definedness do not depend on the order of the two |
| `ClientIdentity.JoinAssociative` | internal/agentconversation/projection.go:231-306 | result and definedness do not depend on the grouping |
| `ClientIdentity.JoinIdempotent` | internal/agentconversation/projection.go:231-306 | merging an identity with itself is defined exactly on self-consistent evidence and then changes nothing |
| `ClientIdentity.JoinAllPermutation` | internal/agentconversation/projection.go:231-306 | every order of the same observations gives the same identity, or fails |
| `ClientIdentity.LeqAntisymmetric` | internal/agentconversation/projection.go:205-229 | identities that hold each other's evidence are equal |
| `ProjectionNames.SameIdentifierSameName` | internal/agentconversation/projection.go:614-670 | two projection identifiers are equal exactly when they name the same exchange, run main stream, session and thread, or actor in its scope |
| `ProtocolIdentity.ProtocolScope` | internal/agentconversation/projection.go:553-597 | the scanning loop returns the scope that the evidence supports, empty when invalid, conflicting or without a session |
| `ProtocolIdentity.ScanNative` | internal/agentconversation/projection.go:127-164 | refuses exactly evidence of two clients, and otherwise collects the native names and nothing else |
| `ProtocolIdentity.IdentityFromProtocol` | internal/agentconversation/projection.go:117-194 | returns an identity exactly when the evidence advertises one client with a session, no parentless child, and the identity is valid |
| `ProjectionSays.AdvertisedExactly` | internal/agentconversation/projection.go:117-194 | evidence advertises an identity exactly when it is well-formed and of one client, gives that client's session and no parent without a child, and the time does not round to zero |
| `ProjectionSays.IdentityTells` | internal/agentconversation/projection.go:117-194 | the advertised identity, field by field, with every evidence name written out |
| `ProjectionSays.ScopeSays` | internal/agentconversation/projection.go:553-597 | a request has a scope exactly when its evidence is well-formed, no two values conflict in session, thread or client, and a session is named; the scope is what the evidence says |
| `ProjectionFacts.HeardMeans` | internal/agentconversation/projection.go:672-712 | a message is silent, has the one actor everyone names, or is ambiguous exactly when two differ |
| `ProjectionFacts.ExplicitCurrentActor` | internal/agentconversation/projection.go:672-712 | the backward search returns the response's actor, else that of the newest message that names any, or ambiguity |
| `ProjectionSays.SpeakerSays` | internal/agentconversation/projection.go:672-722 | someone speaks exactly when the deciding part, the response or else the newest message that names anyone, names just that actor; the verdict is ambiguous exactly when it names two |
| `ProjectionSays.LeafSays` | internal/agentconversation/projection.go:745-752 | an actor is shown by the last segment behind a slash, whatever slashes follow, and as it is when it has none |
| `ProjectionFacts.IdentityScope` | internal/agentconversation/projection.go:599-612 | the scope has the first thread of a Codex identity and no thread otherwise |
| `ProjectionFacts.PreparedShape` | internal/agentconversation/projection_facts.go:21-106 | every prepared reference has an admissible kind, evidence and actor, and its evidence is the one its main identifier computes |
| `ProjectionSays.PrepareSays` | internal/agentconversation/projection_facts.go:44-106 | when facts are prepared and what they say: kind, evidence, actor, display name and scope, each decided by conditions on the exchange |
| `ProjectionSays.IdentifierSays` | internal/agentconversation/projection.go:614-670 | the identifier of prepared facts, spelled out |
| `ProjectionFacts.SharedProjection` | internal/agentconversation/projection_facts.go:21-106 | two prepared references share a projection exactly when they name the same conversation |
| `ProjectionRefs.NameFitsExactly` | internal/agentconversation/projection.go:462-477 | an identifier passes validation exactly when the run or exchange that it spells out is plain and leaves room for the rest; session identifiers always do |
| `ProjectionRefs.MaterializesExactly` | internal/agentconversation/projection_facts.go:21-35 | the reference says what was prepared; on prepared facts, only the name's fit and the two texts decide whether there is one |
| `ProjectionRefs.ProjectsExactly` | internal/agentconversation/projection.go:479-545 | an input that can be prepared becomes a reference exactly when its run or exchange fits the identifier and its actor can be shown: no actor, a label, an acceptable leaf, and on the request route an acceptable speaker |
| `ProjectionRefs.SharedReference` | internal/agentconversation/projection_facts.go:21-35 | two references share a projection exactly when their facts name the same conversation |
| `ProjectionFacts.ScopeAgrees` | internal/agentconversation/projection.go:553-612 | without aliases, the scope read from evidence is the scope of the identity it advertises |
| `ProjectionFacts.RoutesAgree` | internal/agentconversation/projection_facts.go:67-105 | without aliases, projecting through the advertised identity equals projecting from the evidence exactly for Codex, for a named agent, or for an exchange without actor and subagent marker |
| `CodexRollout.Reader.AddTurnItem` | internal/agentconversation/codex_identity.go:557-583 | an item or call is recorded on its turn exactly when the turn, the item or the call is wanted |
| `CodexRollout.Reader.EnsureTurn` | internal/agentconversation/codex_identity.go:498-525 | a turn is entered exactly when it is named and wanted |
| `CodexRollout.Reader.ReadLine` | internal/agentconversation/codex_identity.go:347-470 | one line has the specified effect: first metadata only, copied history skipped, turns, items and windows recorded; `CodexScan.ScanSays` says which lines count and what they give |
| `CodexRollout.RunAgrees` | internal/agentconversation/codex_identity.go:331-478 | the filtered scan of any file agrees with the unfiltered one on metadata, windows, wanted turns, items and calls, or refused the metadata |
| `CodexRollout.NoEmptyTurn` | internal/agentconversation/codex_identity.go:508-525 | no scan records evidence for an empty turn identifier |
| `CodexScan.ScanSays` | internal/agentconversation/codex_identity.go:347-470 | what a scan of any file holds, from its lines alone: the first metadata, the current turn, for every turn the items, reasoning items, calls and hashes of the counting lines, and their windows in order; after the metadata of a spawned thread only lines without a time or with a later one count |
| `CodexScan.RunsExactly` | internal/agentconversation/codex_identity.go:347-400 | the scan goes on exactly while the first metadata, if there is any, is valid and admitted |
| `CodexScan.ReadSays` | internal/agentconversation/codex_identity.go:331-478 | a file becomes a rollout exactly when its first metadata is valid and admitted, and the rollout is what its counting lines say |
| `CodexRollout.WholeEvidence` | internal/agentconversation/codex_identity.go:498-583 | the filter keeps a turn's whole evidence in every rollout exactly when the turn is wanted |
| `CodexResolver.BuildTarget` | internal/agentconversation/codex_identity.go:168-203 | fails exactly when the exchange names two turns, and otherwise holds exactly what the exchange says |
| `CodexResolver.LookupTargets` | internal/agentconversation/codex_identity.go:155-225 | succeeds exactly on coherent lookups, tabulates every usable target and no other, and its prefilter sets hold exactly what the targets name |
| `CodexResolver.TargetMeans` | internal/agentconversation/codex_identity.go:168-203 | a target says what the exchange says, in the names of its evidence: session, thread, previous response and turn, and the items and calls of the output |
| `CodexResolver.TableSays` | internal/agentconversation/codex_identity.go:155-225 | the table has an entry for exactly the responses whose exchange names a turn, an item or a call, and it says what every such exchange of the response says |
| `CodexResolver.MayMatch` | internal/agentconversation/codex_identity.go:142-153 | true exactly when some target agrees with the metadata's session and thread |
| `CodexResolver.MatchedTurn` | internal/agentconversation/codex_identity.go:585-609 | in every visiting order: the one matching turn, none, or ambiguity exactly when two match |
| `CodexResolver.FilterKeepsMatch` | internal/agentconversation/codex_identity.go:557-609 | filtered evidence matches the same turn, or is ambiguous, as unfiltered evidence |
| `CodexIdentity.BuildIdentity` | internal/agentconversation/codex_identity.go:625-732 | builds the identity whose evidence lists are the canonical ones of the sets that rollout, turn and target say, whatever order maps are visited in, and returns it exactly when it is valid |
| `CodexIdentity.IdentityUnique` | internal/agentconversation/codex_identity.go:696-727 | there is only one such identity, so map order never shows |
| `CodexIdentity.BuiltSelfConsistent` | internal/agentconversation/codex_identity.go:663-695 | a resolved identity gives no association name two values, so it can be merged with itself |
| `CodexIdentity.IdentitySays` | internal/agentconversation/codex_identity.go:625-727 | a built identity, field by field and name by name: among them the windows of unknown time and those no later than the exchange, and an actor exactly for a subagent |
| `CodexBatch.ResolutionMeans` | internal/agentconversation/codex_identity.go:97-115 | a lookup fails exactly when rollouts contradict each other, and resolves exactly when some match: all then agree on session, thread and turn |
| `CodexBatch.ResolutionSays` | internal/agentconversation/codex_identity.go:97-115 | the same on the fields of rollouts and target: refused exactly when turns of the exchange differ in session, thread or turn, unresolved exactly when there is none, else the last rollout that has one |
| `CodexBatch.PrefilterSafe` | internal/agentconversation/codex_identity.go:73-115 | reading only wanted evidence of rollouts that may match gives each target the resolution of reading everything |
| `CodexBatch.ResolveTarget` | internal/agentconversation/codex_identity.go:97-115 | the match loop computes that resolution |
| `CodexBatch.ReadRollout` | internal/agentconversation/codex_identity.go:331-478 | the scanning loop, with the workspace and `mayMatch` tests at the first metadata, returns the scan of the whole file that `CodexScan.ReadSays` and `CodexRollout.RunAgrees` describe, or nothing for unrelated or malformed metadata |
| `CodexBatch.ReadRollouts` | internal/agentconversation/codex_identity.go:73-89 | reads every file, keeping the admitted rollouts in order |
| `CodexBatch.ResolveBatch` | internal/agentconversation/codex_identity.go:48-124 | for coherent lookups: succeeds exactly when no lookup is contested by the unfiltered rollouts, whose content `CodexScan.ReadSays` gives, and every resolved one has a valid identity; then holds an identity exactly for the lookups that resolve, that of the last lookup per response |
| `CodexBatch.WholeIdentity` | internal/agentconversation/codex_identity.go:498-583 | a resolved identity is the one of the unfiltered rollout whenever its turn is wanted, so always for a target that names its turn |
| `AdmissionGate.ClosedForever` | internal/captureassignment/lifecycle.go:50-54 | the abstract gate: closed stays closed, the active set only shrinks, and a returned lease never becomes active again |
| `LifecycleGate.LifecycleGate.Begin` | internal/captureassignment/lifecycle.go:21-36 | admits exactly while open, with a new channel when it leaves idle |
| `LifecycleGate.LifecycleGate.Release` | internal/captureassignment/lifecycle.go:37-48 | gives a lease back and closes the channel when it was the last |
| `LifecycleGate.StepRefines` | internal/captureassignment/lifecycle.go:15-69 | every step keeps the gate's invariant and is a step of the abstract gate |
| `LifecycleGate.RunRefines` | internal/captureassignment/lifecycle.go:15-69 | every interleaving is a run of the abstract gate |
| `LifecycleGate.CountIsExact` | internal/captureassignment/lifecycle.go:15-48 | the count is the number of unreleased leases and no channel is closed twice, in every reachable state |
| `LifecycleGate.ReleasedStays` | internal/captureassignment/lifecycle.go:37-48 | a released lease stays released: releasing it again changes nothing |
| `LifecycleGate.DrainedForever` | internal/captureassignment/lifecycle.go:50-69 | a drain that began after the close and succeeded: nothing is active, then or ever |
| `LifecycleGate.NoLostWakeup` | internal/captureassignment/lifecycle.go:56-69 | when nothing is active every waiting drain can return |
| `LifecycleGate.StartedDrain` | internal/captureassignment/lifecycle.go:56-69 | in every reachable state, a drain that starts can return at once exactly when no operation is active |
| `LifecycleGate.DrainExact` | internal/captureassignment/lifecycle.go:56-69 | a drain promises an idle gate, whatever follows, exactly when admission is closed when it starts |
| `LifecycleGate.ReleaseAll` | internal/captureassignment/lifecycle.go:37-48 | from every reachable state releases alone lead to an idle gate |
| `LifecycleGate.RunTraced` | internal/captureassignment/lifecycle.go:15-69 | what every run did, from its actions alone: the gate is open until it is closed, a lease is outstanding exactly when it was asked for before that and not given back, and a drain has returned, with success or not, exactly when it woke or was cancelled |
| `ActivityGate.ActivityGate.Begin` | internal/activity/manager.go:284-300 | admits exactly while not closing, and notifies |
| `ActivityGate.ActivityGate.Finish` | internal/activity/manager.go:301-309 | gives a lease back and notifies |
| `ActivityGate.ActivityGate.StartShutdown` | internal/activity/manager.go:265-272 | closes admission once and decides to return or to wait on the current channel |
| `ActivityGate.StepRefines` | internal/activity/manager.go:258-315 | every step keeps the gate's invariant and is a step of the abstract gate |
| `ActivityGate.RunRefines` | internal/activity/manager.go:258-315 | every interleaving is a run of the abstract gate |
| `ActivityGate.CountIsExact` | internal/activity/manager.go:284-315 | the count is the number of unfinished operations and no channel is closed twice, in every reachable state |
| `ActivityGate.ReleasedStays` | internal/activity/manager.go:301-309 | finishing an operation again changes nothing |
| `ActivityGate.ShutdownForever` | internal/activity/manager.go:258-282 | a successful `Shutdown`: nothing is active, then or ever |
| `ActivityGate.NoLostWakeup` | internal/activity/manager.go:270-282 | when nothing is active a waiting `Shutdown` returns by its own steps alone |
| `ActivityGate.RunTraced` | internal/activity/manager.go:258-315 | what every run did, from its actions alone: the gate closes with the first shutdown, and a lease is outstanding exactly when it was asked for before that and not given back |
| `ActivityGate.ChangesWake` | internal/activity/manager.go:284-315 | every change of the count and the close lets every waiting shutdown go on, and nothing else does |
| `CatalogRewrite.IndexModels` | internal/accountoperation/catalog_transform.go:34-46 | succeeds exactly when every model is an object with a valid slug and no slug repeats, and indexes them |
| `CatalogRewrite.SortSorts` | internal/accountoperation/catalog_transform.go:47-47 | sorting orders aliases by name and keeps each |
| `CatalogRewrite.SameTable` | internal/accountoperation/catalog_transform.go:47-51 | the alias table does not depend on the order of the aliases |
| `CatalogRewrite.KeepModels` | internal/accountoperation/catalog_transform.go:52-97 | keeps, redirects or drops each listed model in order within the limits, and says whether any was redirected |
| `CatalogRewrite.AddModels` | internal/accountoperation/catalog_transform.go:98-108 | appends the unlisted aliases whose target is listed, within the limits |
| `CatalogRewrite.Transform` | internal/accountoperation/catalog_transform.go:18-118 | on raw member texts, with its error cases: invalid body, invalid model, repeated slug, too many or too large models, too large result; `CatalogOutcome.ReadSays`, `TouchedSays` and `RewriteSays` say what that comes to |
| `CatalogMeaning.NamesExact` | internal/accountoperation/catalog_transform.go:81-108 | a name is in the result exactly once if its target is listed and not at all otherwise; new aliases come last in ascending order |
| `CatalogMeaning.RawMeaning` | internal/accountoperation/catalog_transform.go:62-80 | the text assembled from the target's raw members under a new name decodes to the target's original entry renamed; `CatalogOutcome.RenamedIsUnder` writes out which members that changes |
| `CatalogMeaning.RewriteMeansOneHop` | internal/accountoperation/catalog_transform.go:18-118 | the returned bytes decode to the same document whose every model is its target's original entry, renamed: one hop, never a chain; `CatalogOutcome.RewriteSays` states it on the documents |
| `CatalogMeaning.UnaffectedSame` | internal/accountoperation/catalog_transform.go:109-111 | a catalog that no alias touches is returned byte for byte and never refused |
| `CatalogOutcome.ReadSays` | internal/accountoperation/catalog_transform.go:23-46 | a catalog is read exactly when it is bounded and well-formed, repeats no member, and lists at most 16384 models, each with an acceptable slug of its own |
| `CatalogOutcome.RenamedIsUnder` | internal/accountoperation/catalog_transform.go:69-80 | a renamed entry has the new name as `slug`, as `id` and `display_name` exactly if it had those, and every other member as it was |
| `CatalogOutcome.RewriteSays` | internal/accountoperation/catalog_transform.go:18-118 | on the documents: nothing but the models changes; each is the listed model of its name's one-hop target, with `slug`, `id` and `display_name` renamed when that is another; every name that stands for a listed model is there once; listed names keep their order and new ones follow in ascending order |
| `CatalogOutcome.TouchedSays` | internal/accountoperation/catalog_transform.go:98-118 | a catalog comes back as it is when no alias redirects a listed name or adds one for a listed model; any other is written anew, and refused exactly for more than 16384 models or 4 MiB |
| `EvidencePublication.Stage` | cmd/vibermate-release-evidence/main.go:573-622 | the content of a staged file is on disk before another name can refer to it; every existing file keeps name and content at every point, also when staging fails |
| `EvidencePublication.PublishChecksum` | cmd/vibermate-release-evidence/main.go:520-527 | links and syncs the checksum before any trace of the manifest, or undoes it |
| `EvidencePublication.PublishManifest` | cmd/vibermate-release-evidence/main.go:528-558 | links and syncs the manifest after the checksum is durable; every crash point is safe |
| `EvidencePublication.RollBack` | cmd/vibermate-release-evidence/main.go:533-556 | undoes both names as far as removal works; an orphan manifest is possible exactly when the checksum's removal worked |
| `EvidencePublication.WriteEvidence` | cmd/vibermate-release-evidence/main.go:475-559 | at every crash point: every existing file keeps its name, content and synced content, and a manifest that may be seen is whole, as is its checksum, whose name had been durable before; success means both durable; the exact conditions for an orphan manifest after a crash and in sight of processes; which of the two names and the temporary ones are left, that they survive a crash once the last sync worked, and that no other name changes |
| `EvidencePublication.CrashSafe` | cmd/vibermate-release-evidence/main.go:517-533 | whatever directory a crash leaves, a visible manifest of this run has its whole content and had a durable checksum that is whole too |
| `EvidencePublication.CrashShowsOrphan` | cmd/vibermate-release-evidence/main.go:533-556 | the orphan condition is exactly that some crash state shows the manifest without the checksum |
| `MarkerSearch.AgentRun.ObserveTrustedText` | cmd/vibermate-acceptance/agent.go:822-832 | the tail is always the last 64 bytes of all text, and for markers of 1 to 65 bytes `markerSeen` is whole-text search |
| `MarkerSearch.SearchExact` | cmd/vibermate-acceptance/agent.go:822-832 | a marker that is seen occurs; one of 1 to 65 bytes that occurs is seen, for every splitting |
| `MarkerSearch.SearchCondition` | cmd/vibermate-acceptance/agent.go:822-832 | streaming search equals whole-text search for all splittings exactly for markers of 1 to 65 bytes |
| `Counterexamples.IllegalExitCode` | internal/acpobservation/observer.go:373-402 | `Finish` accepts the exit code 256, after which the published snapshot is refused by the validator |
| `Counterexamples.SelfMergeFails` | internal/agentconversation/projection.go:340-360 | a valid identity with two agent identifiers whose merge with itself fails |
| `Counterexamples.RoutesDiffer` | internal/agentconversation/projection_facts.go:67-105 | a Claude exchange whose two routes give different references |
| `Counterexamples.Unmaterialized` | internal/agentconversation/projection.go:479-484 | a valid identity whose unlabelled actor `a/ b` is prepared and then refused as a reference |
| `Counterexamples.DrainBeforeClose` | internal/captureassignment/lifecycle.go:56-69 | a drain that starts while admission is open and succeeds with an operation active |
| `Counterexamples.OrphanManifest` | cmd/vibermate-release-evidence/main.go:547-557 | a run whose rollback has a point where a crash keeps the manifest without its checksum |

## Left out

- JSON decoding is a parameter: the observer's decoder maps a frame to nothing or a message, rollout lines arrive decoded, and the catalog's codec is any one that reads an object's members and an array's elements as raw texts and undoes its assembly of a string, an object or an array from them, up to Go's nesting limit of 10000, as `encoding/json` does. A failed `session_meta` decode that leaves some fields set is not captured.
- Go strings in identity, projection and catalog code are sequences of Unicode scalar values, that is, valid UTF-8; the observer works on bytes and checks validity.
- The revision is unbounded; where 63 bits matter the condition is stated.
- Mutexes, channels and goroutines appear as atomic steps; the relay's and the gates' argument checks (nil context, nil stream) and context errors before admission are not modelled.
- The relay assumes that readers and writers keep within their buffers: a write accepts at most what it is given; a short write without an error is modelled.
- SHA-256 is any fixed-length, colon-free digest without a collision among the values that the two compared names digest.
- CodexBatch.ResolveBatch: symbolic-link resolution of workspaces is a parameter; directory walking, file errors and cancellation are not modelled, and the spawn depth arrives in decimal.
- EvidencePublication.WriteEvidence: one process writes the directory, a failing operation has no effect, a directory sync covers all names, and the random temporary names differ from the two published names; the canonical-path inspection is one fault.
- CatalogRewrite.Transform: alias names are unique, which environment validation guarantees; which route plan supplies them is not modelled.
- Claude's local identity resolver, the observation manager, account leases and readers, the account selector's script engine, activity search and summary, Anthropic stream codecs, the acceptance runner, the command-line programs and the user interfaces: process control, storage and rendering, or members that would only repeat easier cases.
- `Snapshot.ValidatePolicy`: a comparison of two mode fields.
