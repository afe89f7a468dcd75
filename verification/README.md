# Verification of the workspace server's durable core

A Dafny model of the parts of the repository that must not be wrong, with proofs of what they
are for. `dafny verify dfyconfig.toml` checks all of it.

## What is modelled

**Durable admission.** Three parties admit a transition: the Go authority validates a proposal
and computes the next projection, the Go event log chains an opaque event and forwards it, and
the Rust recorder re-verifies its ledger, deduplicates by id, appends one line and acknowledges.
Only then does the authority advance. Restart runs the other way.

| module | part |
|---|---|
| `Ledger`, `RecordCodec`, `RecordTexts`, `Sidecar` | the recorder: file bytes, records, replay, checkpoints, appends that stop part-way; `Sidecar.Recorder` is the object |
| `EventLog`, `LogService` | the Go log: chaining, forwarding, acknowledgement checks, the mirror file, reading history back; `LogService.Service` is the object |
| `Transition`, `AuthorityService`, `AuthorityRestart`, `Sorting` | the authority: canonical proposals, the projection, admission, replay and rebuild; `AuthorityService.Authority` is the object |
| `ProposalAnswers`, `Shapes` | what an admission answers and which events replay, field by field |
| `Checkpoints`, `CheckpointTheory`, `CheckpointRuns`, `ForeignCheckpoints` | the authority's checkpoints and their verification |
| `LedgerTheory`, `LedgerReading`, `HistoryHashes`, `EventLogTheory`, `HistoryReading`, `MirrorTheory`, `ProjectionTheory`, `TransitionTheory` | what each party keeps, reads and answers |
| `Protocol`, `Safety`, `Recovery`, `Retries`, `LostReplies`, `Restarts` | the three together, over whole runs |

**Representations that must agree.** Canonical JSON (`Json`, `JsonRoundTrip`, with `Decimal`,
`Bytes`, `Members`, `Order`), the envelope tree (`Envelopes`, `EnvelopeTheory`, `EnvelopeTrees`,
`EnvelopeRoundTrip`, `EnvelopeNames`, `EnvelopeChecks`), workspace files (`Workspaces`, `SafePaths`),
build-ledger replay against live workspaces (`LedgerReplay`, `LedgerViews`, `ServerOps`, `RecordedWrites`,
`ReplayEquivalence`, `ReplayGaps`, `Operations`) and the incremental context graph against a batch build (`Graphs`, `GraphTheory`, `GraphEdges`, `GraphStore`, `GraphHistory`).

**The line diff** (`Diff`, `LineEndings`, `Text`) and **the activation controller** (`Activations`,
`ActivationTheory`, `ActivationAnswers`, `DedupWindow`, `KeyUniqueness`, `ActorController`).

Each method of the source is a method here whose `ensures` ties the new state to a function of
the old one, and the theory modules prove what the source promises about those functions, over
every run. What can go wrong outside the code is a parameter: `Fault` says how a write to disk
ends, `Hazards` what becomes of one append (request lost, reply lost, disk fault, mirror fault),
and a spawn is given the process id it gets or none.

## What is assumed

- Hashes are uninterpreted functions. Recorder hashes, of records and of histories, are 64 hex digits
  (`Ledger.Good`), which is why none of them is `genesis`; event hashes are not empty where a mirror is
  loaded (`MirrorTheory.Hashes`). No recorder, event or projection hash is taken to be free of
  collisions: where one matters, the lemma exhibits the colliding pair (`Collision`, `HistoryCollision`,
  `EventCollision`), or asks that
  the pair at hand does not collide (`Telling`, `ToldApart`, the two hashes of `RetryMisaligns`).
  For graph ids it is asked of the edges and nodes of the build at hand (`EdgesApart`, `NodesApart`).
- The recorder's codecs of lines and checkpoints read back what they wrote. `LedgerTheory.JsonWorldIsGood`
  proves this and the hash conditions for canonical JSON over any SHA-256 with hex digests.
- Base64, the JSON text of one file's metadata and the JSON of a source packet read back what they wrote
  (`GoodCodecs`, `GoodMeta`, `GoodCodec`).
- `Params.reload` is what a number literal becomes when it is decoded into a Go float64 and written again.

## What the proofs found

- **When a restart is exact.** `Restarts.RestartExactlyAfterAppend` has the exact condition after one append
  under any hazard. An admission whose line reached the disk but which did not come back to Go is there
  after a restart although Go reported a failure; an opaque event in the same place does no harm. Left
  unmended, the recorder is one record ahead: any other append then makes the ledger unreadable for good
  (`LostReplies.LostReplyThenAnother`), and a retry is accepted with a hash that was never recorded
  (`LostReplies.RetryMisaligns`). Reading the log again or restarting before the next append mends it
  (`Restarts.MendedRunRestarts`). Safety holds regardless (`Safety.RunIsSafe`).
- **An append returned right after a torn mirror line is not in the mirror**: its text continues the torn
  line. `MirrorTheory.AppendLines` says so of one append, and without a recorder the log is then not
  loaded back (`MirrorTheory.LoadedExactly`).
- **Payload numbers must survive float64.** An event is hashed with raw JSON and reloaded into a map.
  `LostReplies.StableExactly` and `EventLogTheory.ReadableExactlyWhen` say exactly which payloads read back.
  One that does not is reported accepted, and no restart succeeds after it, whatever follows (`Restarts.UnstableIsLost`);
  a plain `1.0` is enough (`Restarts.FloatLiteralIsLost`).
- **A checkpoint with no accepted transition is always refused**, because a cloned empty node list is nil
  while the initial one is empty (`CheckpointTheory.CheckpointVerifies`), and for the same reason the last
  comparison of verification can fail only then (`CheckpointTheory.FinalComparisonExactly`).
- **An envelope loses a file below another file's path**; `EnvelopeRoundTrip.RoundTripExactly` has the exact
  condition. A component equal to the file marker is harmless in first place only.
- **Replay misses two operations exactly when they change the ledger unrecorded**: a blob admitted into the
  ledger and an import over a ledger that has other files (`ReplayGaps.AdmitBlobStepExactly`,
  `ReplayGaps.ImportStepExactly`); `ReplayGaps.BlobGap` and `ReplayGaps.ImportGap` are runs from the start that do.
- The comment at internal/replay/replay.go:83-85 says that opaque low-level events cannot change the replayed
  projection. The code replays them by their own action; `LedgerReplay.OtherKindReplaysExactly` says exactly
  which of them change nothing, `LedgerReplay.OtherKindsUnseenExactly` when a whole history has only such, and
  `LedgerReplay.OpaqueEventReplays` is one that does. No caller in the
  repository appends such an event, so the runs of `ReplayEquivalence` have none.
- A transition id used again over HTTP is always a conflict, since proposals are made on the current state
  (`ServerOps.ReusedIdConflicts`).
- **A dedup key is not unique to one active record.** `KeyUniqueness.KeyUniqueExactly` says exactly which step
  doubles a key. Three things can: completing an ended record again frees the key of another
  (`DedupWindow.RepeatedCompletionFreesAnother`), a child may take the subject of another lineage
  (`KeyUniqueness.ChildDoubles`), and at the very moment a record expires its window is shut while cleaning
  still leaves it (`KeyUniqueness.BoundaryDoubles`). Without these a key is unique (`KeyUniqueness.CarefulKeepsKeyUnique`).
- **A checkpoint's proposals are not compared.** Any proposal of the same id passes verification
  (`ForeignCheckpoints.AlteredStillFine`); only the request bytes of that entry differ afterwards
  (`ForeignCheckpoints.AlteredExactly`, `ForeignCheckpoints.FineAgrees`).
- **A rebuilt graph is the live graph of one workspace only while no other has packets**, because accepted
  history is not divided by workspace (`GraphHistory.LiveGraphIsRebuilt`, `GraphHistory.TwoWorkspaces`).
  No caller outside the tests rebuilds a store.

## Model

| member | source | states |
|---|---|---|
| `Recovery.RestartGivesBackTheLiveState` | internal/transition/rebuild.go:14-35 | for every benign run from the start (each append fails before the recorder commits or succeeds end to end), a reachable restart succeeds and yields exactly the live authority: projection, requests, results and durable bindings |
| `Recovery.RunInStep` | internal/transition/authority.go:147-203 | over every benign run recorder, log and authority describe one history, the authority is what that history rebuilds to, and the records are only extended |
| `Recovery.NextInStep` | internal/eventlog/eventlog.go:123-193 | every single benign step (proposal, opaque append, re-read, restart of either process, recorder checkpoint) keeps the three parties in step |
| `Recovery.AppendCommits` | internal/eventlog/eventlog.go:123-193 | a benign append on aligned parties either changes nothing or extends recorder history, Go history and log by the same event |
| `Recovery.AdmitInStep` | internal/transition/authority.go:180-202 | one proposal either leaves all histories as they are or adds its one event everywhere, and the new history rebuilds to the new authority |
| `Recovery.RestartRecovers` | internal/transition/rebuild.go:14-35 | from any state in step, a reachable restart gives exactly the live authority and leaves the parties in step |
| `Safety.RunIsSafe` | internal/transition/authority.go:182-202 | fail-closed safety over every run at all (lost replies, retries, torn writes on either side, restarts): every transition Go holds is in the ledger under its id at its sequence with the acknowledged hash and its payload, and records are only extended |
| `Safety.NextSafe` | internal/eventlog/eventlog.go:157-170 | no single step of the system, under any hazard, breaks that safety invariant |
| `Safety.AppendSafe` | internal/eventlog/eventlog.go:218-260 | an accepted event that Append returned is held by the record at the acknowledged sequence, whose hash is the acknowledged one |
| `Safety.RebuiltOnLedger` | internal/eventlog/list.go:56-122 | everything an authority rebuilt from the ledger holds is on that ledger |
| `Retries.AdmittedOnce` | internal/transition/authority.go:154-162 | over every run without a restart of Go, under any hazards: of two successes under one id the second gives the record of the first, marked as a duplicate |
| `Retries.RetryIsAnswered` | internal/transition/authority.go:154-160 | once a transition is held, the same request gets the held record as a duplicate after any further run, whatever goes wrong, and changes nothing |
| `Retries.OtherRequestConflicts` | internal/transition/authority.go:154-160 | another request under a held id is a conflict after any further run, and changes nothing |
| `Retries.RunKeepsHeld` | internal/transition/authority.go:147-203 | nothing that an authority holds is lost or changed by any run without a restart of Go |
| `Safety.DownChangesNothing` | internal/eventlog/eventlog.go:157-160 | while the recorder is down, proposals and appends change nothing anywhere |
| `Safety.NoStartOnMirrorAlone` | internal/eventlog/eventlog.go:83-121 | without a recorder Go refuses to start exactly when its mirror holds accepted history: the mirror never stands in for the recorder |
| `LostReplies.LostReplyThenAnother` | internal/eventlog/eventlog.go:157-160 | the concrete failure outside benign runs: a reply lost after commit and then any other event; both are reported failed, both are recorded, and no extension of that ledger is ever readable again |
| `LostReplies.RetryMisaligns` | internal/eventlog/eventlog.go:131-133 | a retry after a lost reply whose later time gives it another hash is accepted under the original acknowledgement but leaves the log with a hash that is not the recorded one |
| `Restarts.RestartExactlyAfterAppend` | internal/eventlog/eventlog.go:123-193 | exactly when a restart right after one append under any hazard gives the live authority: nothing of it reached the disk (not sent, id taken, write never began), or its whole line did, its payload reads back and, if it was an admission, nothing went wrong |
| `Restarts.RestartExactlyAfterCheckpoint` | sidecar/src/main.rs:349-358 | a restart right after a recorder checkpoint gives the live authority exactly if the write left no part of a new file |
| `Restarts.AppendOutcome` | internal/eventlog/eventlog.go:155-192 | the three outcomes of one append on disk under any hazard, decided by the hazard and whether the id is bound, and that it is returned exactly if it is new and nothing goes wrong |
| `Restarts.MendedRunRestarts` | internal/transition/rebuild.go:14-35 | over every run in which a torn line never occurs and whatever an append may have left behind is mended (re-read, Go restart, recorder restart) before the next append, a restart always succeeds, and gives exactly the live authority unless a half-way admission is still to be mended |
| `Restarts.StepHeld` | internal/eventlog/list.go:56-122 | every step of such a run keeps the ledger readable and rebuildable and extends the records, and a re-read or restart brings log, authority and recorder memory back in line with it |
| `Restarts.BenignIsMended` | internal/transition/rebuild.go:14-35 | benign runs are the runs of this kind that need no mending |
| `LostReplies.StableExactly` | internal/transition/authority.go:188-188 | exactly which payloads read back unchanged: those whose data fields, versions and zero binding keep their number literals through a reload |
| `LostReplies.ReloadExactly` | internal/eventlog/list.go:56-122 | a value reads back unchanged exactly if every number literal in it does, however deep |
| `Restarts.UnstableIsLost` | internal/transition/authority.go:188-188 | a proposal whose event does not read back is reported accepted although nothing went wrong, and from then on no restart succeeds and no extension of the ledger is readable |
| `Restarts.FloatLiteralIsLost` | internal/eventlog/eventlog.go:27-27 | the input: result data 1.0, which a reload through float64 writes as 1 |
| `EventLogTheory.ReadableExactlyWhen` | internal/eventlog/list.go:56-122 | an appended event leaves the history readable if and only if the log was aligned with the recorder and the event hashes the same once its numbers are reloaded, as it does with stable details |
| `EventLogTheory.EvidenceRoundTrip` | internal/eventlog/list.go:56-122 | decoding a posted event gives the event back, with reloaded numbers and no acknowledgement |
| `EventLogTheory.SemanticEvents` | sidecar/src/main.rs:274-285 | the recorder takes two posted events for the same evidence exactly when they agree in all but the fields a retry regenerates |
| `EventLogTheory.HistoryPrefix` | internal/eventlog/list.go:56-122 | every prefix of a readable ledger reads as the same prefix of its events |
| `LogService.Service.Append` | internal/eventlog/eventlog.go:123-193 | new sequence, chain head, mirror, recorder state and result are those of the append specification, with the sequence given back on every error |
| `LogService.Service.Forward` | internal/eventlog/eventlog.go:218-260 | an answer is taken only if it binds this event id and sequence with a SHA-256 hash |
| `LogService.Service.RustAcknowledgedEvents` | internal/eventlog/list.go:56-122 | returns the history the recorder stands for and rebases the log on it, or refuses and changes nothing |
| `LogService.Service.ValidateHistory` | internal/eventlog/list.go:168-194 | accepts exactly the histories whose sequences, chain, hashes and required acknowledgements are in order |
| `LogService.Load` | internal/eventlog/eventlog.go:83-121 | the mirror scan gives highest sequence and last hash, and refuses accepted history when no recorder is configured |
| `LogService.ForwardBinds` | internal/eventlog/eventlog.go:202-216 | whatever forward takes passes the later acknowledgement check |
| `HistoryReading.AnswerExactly` | internal/eventlog/eventlog.go:123-193 | Append returns an event exactly if it has an id, its line was written, and the recorder took it and an answer arrived that binds its id, its sequence and a SHA-256 (without a recorder: exactly if its kind needs no acknowledgement); and what it returns then |
| `HistoryReading.RefreshExactly` | internal/eventlog/list.go:56-122 | reading the recorder succeeds exactly if it is reached, opens and its records read as an event history, and the log then continues where that history ends; otherwise nothing changes |
| `HistoryReading.ValidExactly` | internal/eventlog/list.go:168-194 | a history is valid exactly if every event has the sequence of its place, the hash of the event before it, its own hash and, if accepted, its own acknowledgement |
| `HistoryReading.HistoryExactly` | internal/eventlog/list.go:56-122 | a recorder history reads exactly if every record is chained to the one before it and carries the event of its place, chained to the event before it; it then reads as those events, each with its record as acknowledgement |
| `HistoryReading.HashCovers` | internal/eventlog/eventlog.go:262-274 | an event hash covers every member but the hash itself and the acknowledgement, or two events hash alike |
| `HistoryReading.LastHashBinds` | internal/eventlog/list.go:168-194 | two valid event histories that end in one hash are the same event by event, or two events hash alike |
| `MirrorTheory.AppendLines` | internal/eventlog/eventlog.go:172-192 | one append under any hazard: every readable line of the mirror stays, and the returned event reads as the next one exactly if the file did not end inside a line |
| `MirrorTheory.MirrorHoldsReturned` | internal/eventlog/eventlog.go:172-192 | over any run of appends the readable lines of the mirror only grow; if no line is torn they are exactly the returned events, in order |
| `MirrorTheory.ReturnedEvent` | internal/eventlog/eventlog.go:123-153 | a returned event is the one given with the defaults filled in, next in the chain, hashed, and validly acknowledged where that is required; a failed append leaves the place in the chain |
| `MirrorTheory.ReturnedIsChained` | internal/eventlog/eventlog.go:123-193 | the events returned by a run form one chain from the place the log had to the place it has |
| `MirrorTheory.LoadedExactly` | internal/eventlog/eventlog.go:83-121 | without a recorder, loading the mirror after an append gives the live log exactly if the append did not write its event onto a torn line |
| `MirrorTheory.LoadGivesBackTheLog` | internal/eventlog/eventlog.go:83-121 | over any run from a new log without a recorder and without torn lines, loading the mirror gives back the live sequence and chain head, so that a restart continues the chain |
| `Shapes.EvidenceReadsExactly` | internal/eventlog/list.go:56-122 | evidence reads as an event exactly if it is an object whose members have their types |
| `Shapes.EvidenceMembers` | internal/eventlog/eventlog.go:17-35 | which members a written event always has, and which only when they are not empty |
| `AuthorityService.Authority.Propose` | internal/transition/authority.go:147-203 | new authority, log, recorder and result are those of the admission specification; nodes stay ordered and transitions stay under their ids |
| `RecordedWrites.EntranceDecides` | internal/transition/authority.go:216-224 | what is newly held has the operation of its entrance: a restoration or an import its own, whatever the proposal says |
| `ProposalAnswers.SuccessExactly` | internal/transition/authority.go:147-203 | for every authority, well-formed proposal and hazard: the answer is success exactly if the authority afterwards holds the transition under its id with this request; it is then that held record, marked as a duplicate exactly if it was held before |
| `ProposalAnswers.RefusalExactly` | internal/transition/authority.go:154-181 | a used id with another request is a conflict, a new id on another state is stale, a transition the policy rejects is refused as such, and any other refusal of a well-formed proposal is a failed append; each if and only if |
| `ProposalAnswers.RefusalKeeps` | internal/transition/authority.go:147-203 | a refusal and a duplicate leave the authority as it was, and log and recorder too unless the append itself failed |
| `ProposalAnswers.NewRecordExactly` | internal/transition/authority.go:180-202 | a newly held transition is the one proposed, with its admission data, its result the state it made, one version on, and a binding to its acknowledged event; no other held transition changes |
| `ProposalAnswers.NormalExactly` | internal/transition/authority.go:226-247 | a proposal is well formed exactly if all seven identities are there, the operation is one of three and its data are JSON; it is normalized without change but for absent admission data, and refused with the class of what is wrong |
| `ProposalAnswers.MalformedAnswer` | internal/transition/authority.go:147-153 | a proposal that is not well formed is answered with that class and changes nothing |
| `AuthorityService.Authority.Replay` | internal/transition/rebuild.go:37-82 | replays one event as specified; a refused event changes nothing |
| `Shapes.ReplayedExactly` | internal/transition/rebuild.go:37-82 | exactly which event of the authority's kind replays on a state: in the form that an admission gives it, its transition new, proposed on this state, stating the result that applying it has and the admission data it was proposed with |
| `Shapes.AcceptedReadsExactly` | internal/transition/rebuild.go:47-53 | JSON reads as an accepted transition exactly if it is an object whose members, and theirs, have their types |
| `Shapes.EventSays` | internal/transition/authority.go:186-192 | the event that an admission appends: its id, kind, action, status and workspace, with the payload as its only detail |
| `Shapes.StateCounts` | internal/transition/rebuild.go:24-35 | the state a history rebuilds to has the fixed id and a version that counts its accepted transitions, which are those of its accepted events |
| `AuthorityService.ApplyTo` | internal/transition/authority.go:249-271 | edit, append and sort give the specification that puts one key into an ordered node list, one version up, rehashed |
| `AuthorityService.Authority.TakeCheckpoint` | internal/transition/rebuild.go:91-109 | the entries sorted by id and the highest durable sequence with its hash |
| `AuthorityService.Authority.SameAcceptedAs` | internal/transition/rebuild.go:219-231 | sorting both lists and comparing positions decides whether the entries are exactly the accepted transitions in id, result and binding |
| `AuthorityService.PositionsDecide` | internal/transition/rebuild.go:219-231 | position-wise agreement of sorted lists is agreement as sets of entries, repeated ids included |
| `AuthorityRestart.RebuildAuthority` | internal/transition/rebuild.go:24-35 | succeeds exactly when the whole history checks and replays, with that authority |
| `AuthorityRestart.NewFromEventLog` | internal/transition/rebuild.go:14-20 | restart reads the recorder, rebases the log and rebuilds, or refuses |
| `AuthorityRestart.VerifyCheckpoint` | internal/transition/rebuild.go:113-159 | gives the verdict of the specification: which check refuses, in order |
| `AuthorityRestart.FromCheckpoint` | internal/transition/rebuild.go:179-214 | restores a checkpoint of any origin, its nodes in order or not, exactly if every entry normalizes, is new and is validly bound |
| `AuthorityRestart.RebuildFromCheckpoint` | internal/transition/rebuild.go:161-177 | succeeds exactly when the checkpoint verifies, with suffix replay on top of it |
| `Sorting.EditedIsPut` | internal/transition/authority.go:249-271 | sorting the edited nodes yields the ordered list with just the one key set |
| `TransitionTheory.ReplayMirrors` | internal/transition/rebuild.go:37-82 | replaying the event of an admitted transition does to the authority what admitting it did |
| `TransitionTheory.PayloadRoundTrip` | internal/transition/authority.go:175-191 | a payload decodes to the transition it was made from |
| `TransitionTheory.RequestInjective` | internal/transition/authority.go:226-247 | two requests have the same canonical bytes exactly when they are the same request |
| `TransitionTheory.RebuildTracks` | internal/transition/rebuild.go:24-82 | every rebuilt authority binds each id to its event, covers every accepted event, and has ordered, sealed nodes |
| `ServerOps.ReusedIdConflicts` | internal/transition/authority.go:155-162 | a transition id used again on top of the current state is a conflict, never a duplicate |
| `ProjectionTheory.ApplyIsUpdate` | internal/transition/authority.go:249-271 | apply refines a map update: only the proposed key changes, nodes stay strictly ordered, one version up |
| `ProjectionTheory.ApplyCommutes` | internal/transition/authority.go:249-271 | proposals on different keys commute up to equal projection and hash |
| `ProjectionTheory.HashCoversExactly` | internal/transition/authority.go:273-290 | the hashed texts of two projections are the same exactly when id, version and key map are |
| `ProjectionTheory.OrderedUnique` | internal/transition/authority.go:263-268 | there is one strictly ordered node list for a key map |
| `CheckpointTheory.CheckpointVerifies` | internal/transition/rebuild.go:91-177 | a checkpoint taken at any moment of a rebuildable history verifies against every extension, and rebuilding from it equals full replay, exactly if a transition had been accepted; otherwise it is refused because its state differs at the head |
| `CheckpointTheory.FinalComparisonExactly` | internal/transition/rebuild.go:154-157 | once every earlier check has passed, the last comparison passes exactly when some transition was accepted |
| `CheckpointRuns.CheckpointSurvives` | internal/transition/rebuild.go:91-177 | the same for a checkpoint of the live authority after any benign run, against the history read after any further benign steps |
| `CheckpointTheory.AlikeReplayAll` | internal/transition/rebuild.go:37-82 | authorities that agree up to nil nodes and proposal contents replay alike |
| `ForeignCheckpoints.FineExactly` | internal/transition/rebuild.go:109-155 | a checkpoint of any origin verifies if and only if the history rebuilds with some accepted transition and the checkpoint is its state and accepted set at its head, with proposals that normalize |
| `ForeignCheckpoints.FineAgrees` | internal/transition/rebuild.go:157-177 | rebuilding from any verified checkpoint succeeds, with the state of full replay and the same ids, results and bindings |
| `ForeignCheckpoints.VerdictExactly` | internal/transition/rebuild.go:113-144 | which of the first checks refuses a checkpoint of any origin, each exactly when those before it pass: history, own hash, head, prefix, agreement at the head |
| `ForeignCheckpoints.RestoresExactly` | internal/transition/rebuild.go:179-204 | entries of any origin restore an authority exactly if each normalizes, is new, and is bound to its own acknowledged event |
| `ForeignCheckpoints.AlteredExactly` | internal/transition/rebuild.go:226-246 | the request bytes of a checkpoint entry are those of full replay exactly if its proposal normalizes to the accepted one; transitions after the checkpoint are always exact |
| `ForeignCheckpoints.AlteredStillFine` | internal/transition/rebuild.go:226-246 | any proposal of the same id that normalizes may stand in an entry of a verified checkpoint without verification noticing |
| `CheckpointTheory.HeadExactly` | internal/transition/rebuild.go:91-109 | the head of a checkpoint is the binding of the first entry at the highest sequence, or genesis when none has one |
| `Json.WriteCanonical` | internal/transition/authority.go:327-379 | the recursive writer appends the canonical text of the value |
| `Order.Sort` | internal/transition/authority.go:355-359 | sorting the keys of a map gives their increasing list |
| `JsonRoundTrip.CanonicalRoundTrip` | internal/transition/authority.go:306-379 | a decoder for the writer's grammar inverts the writer on every value |
| `JsonRoundTrip.CanonicalInjective` | internal/transition/authority.go:306-379 | two values get equal text exactly when they are equal |
| `JsonRoundTrip.ValueRoundTrip` | internal/transition/authority.go:327-379 | the decoder reads a value back in any text that may follow it |
| `JsonRoundTrip.EscapeExactly` | internal/transition/authority.go:327-379 | a character is written as itself, as a short escape that reads back, or as its number in lower-case digits, and which |
| `JsonRoundTrip.CanonicalIsPlain` | internal/transition/authority.go:327-379 | canonical text has no control character, and with HTML escaping none of the five characters that it escapes |
| `LedgerTheory.CrashRecovery` | sidecar/src/main.rs:399-432 | a crash may cut a write after any number of bytes: reopening yields the old records, the old records and the new one, or TruncatedTail, and which depends on the cut alone |
| `LedgerTheory.AppendSound` | sidecar/src/main.rs:200-261 | one append under any fault: history grows by at most the new record, acknowledgement only from a state where disk and memory agree, retries get the original acknowledgement, conflicts change nothing |
| `LedgerTheory.RunSound` | sidecar/src/main.rs:200-336 | over every run of appends, checkpoints and restarts under any faults the disk is a replayable history with unique ids that extends the first one |
| `LedgerTheory.FaultlessRun` | sidecar/src/main.rs:200-261 | without faults sequence, count and number of records agree and memory is the replay of the disk |
| `LedgerTheory.HeadBindsHistory` | sidecar/src/main.rs:438-497 | two replayable ledgers with one head hash are the same, record by record, or hold two records with equal record hashes and different hash inputs |
| `LedgerTheory.CheckpointBindsPrefix` | sidecar/src/main.rs:508-559 | two ledgers for which one checkpoint is valid begin with the same records up to its sequence, or those prefixes hold such a collision |
| `LedgerTheory.ReplayAppend` | sidecar/src/main.rs:438-497 | replay is a fold that splits over concatenation |
| `LedgerTheory.BoundDirPasses` | sidecar/src/main.rs:508-559 | checkpoints that bind prefixes pass validation, and only half-written files fail it |
| `LedgerTheory.CheckpointSound` | sidecar/src/main.rs:303-380 | writing a checkpoint never touches the ledger and keeps every checkpoint bound; from a clean state the directory stays whole exactly if no new file is cut, and the call succeeds exactly if the file was there or the write had no fault |
| `LedgerTheory.SuffixReplay` | sidecar/src/main.rs:508-559 | suffix replay from a bound checkpoint ends in the state of full replay |
| `LedgerTheory.OpenSound` | sidecar/src/main.rs:387-393 | opening succeeds with the replayed state exactly if no line and no checkpoint is cut |
| `LedgerTheory.JsonWorldIsGood` | sidecar/src/main.rs:578-598 | the assumptions on hashes and codecs hold for canonical JSON over any SHA-256 with hex digests, and two records collide exactly if their two hashed texts are a collision of SHA-256 |
| `RecordCodec.HashInputInjective` | sidecar/src/main.rs:578-585 | the hashed bytes determine sequence, predecessor and evidence |
| `RecordCodec.RecordRoundTrip` | sidecar/src/main.rs:399-432 | a written record reads back from its one line |
| `RecordTexts.HashInputText` | sidecar/src/main.rs:578-598 | the hashed text letter by letter: version, sequence, predecessor and evidence, in this order |
| `RecordTexts.LineText` | sidecar/src/main.rs:240-261 | the text of a ledger line letter by letter, five members in order |
| `RecordTexts.CheckpointText` | sidecar/src/main.rs:349-358 | the text of a checkpoint file letter by letter, four members in order |
| `Sidecar.Recorder.AppendEvidence` | sidecar/src/main.rs:200-261 | the new disk, memory and answer are those of the append specification |
| `HistoryHashes.HistoryHashIs` | sidecar/src/main.rs:499-506 | the history hash after k records is the hash of the history hash and the record hash of the k-th, and genesis after none |
| `HistoryHashes.HistoryHashBinds` | sidecar/src/main.rs:499-506 | two replayable ledgers with one history hash have the same record hashes in order, or exhibit two different input pairs of the history hash with one value |
| `HistoryHashes.CheckpointBindsHashes` | sidecar/src/main.rs:508-559 | the same for the prefixes that one checkpoint binds, in two ledgers for which it is valid; its history hash is that of the prefix |
| `LedgerReading.DedupExactly` | sidecar/src/main.rs:210-233 | evidence whose id is bound is answered with the first record of that id if it says the same, and refused as a duplicate id otherwise |
| `LedgerReading.NewExactly` | sidecar/src/main.rs:210-233 | evidence is appended exactly if it has no id or no record has it |
| `LedgerReading.AppendAnswer` | sidecar/src/main.rs:200-261 | what the recorder answers to evidence, in every case: which refusal, which earlier record, or the next sequence with the id and hash of the new record |
| `Sidecar.Recorder.ReadRecords` | sidecar/src/main.rs:399-432 | reads exactly the records of the file or classifies the failure |
| `LedgerReading.ReadExactly` | sidecar/src/main.rs:399-432 | a file reads exactly as the records its lines spell, with no empty line between; an unfinished last line is a truncated tail, anything else malformed |
| `Sidecar.Recorder.ReplayRecords` | sidecar/src/main.rs:438-497 | one pass with a running state computes the replay fold |
| `LedgerReading.ReplayExactly` | sidecar/src/main.rs:438-497 | replay succeeds exactly if every record fits the ones before it, and otherwise fails with the class of the first misfit |
| `Sidecar.Recorder.ValidateCheckpoints` | sidecar/src/main.rs:508-559 | the first failing checkpoint file decides |
| `LedgerReading.EntryExactly` | sidecar/src/main.rs:508-559 | which checkpoint file passes: current version, a sequence within the ledger, and head hash and history hash of the prefix of that length |
| `LedgerReading.DirExactly` | sidecar/src/main.rs:508-559 | a directory passes exactly if every file does, and otherwise the first that fails decides |
| `LedgerReading.CheckpointAnswer` | sidecar/src/main.rs:303-380 | what the recorder answers when asked for a checkpoint, in every case, under which name it writes, and when a file of that name is taken for it |
| `Sidecar.Recorder.FindExisting` | sidecar/src/main.rs:210-233 | the deduplication loop finds the first record of the id and compares it |
| `Sidecar.Recorder.CreateCheckpoint` | sidecar/src/main.rs:303-336 | the new checkpoint directory and outcome are those of the specification |
| `Diff.FillTable` | internal/diff/diff.go:33-50 | after the backward loops every entry of the table is the common-subsequence length of the two suffixes |
| `Diff.Lines` | internal/diff/diff.go:26-108 | the greedy walk over the table produces the specified edit script |
| `Diff.TableIsLcs` | internal/diff/diff.go:33-50 | that length is the maximum over all common subsequences, and it is reached |
| `Diff.DiffIsMinimal` | internal/diff/diff.go:33-108 | the walk turns old into new, and no edit script that does so adds and removes fewer lines |
| `Diff.DiffIsFirst` | internal/diff/diff.go:60-108 | of the shortest edit scripts the diff is the first: it keeps lines as early as it can, and removes before it adds |
| `Diff.WalkNumbered` | internal/diff/diff.go:52-108 | line numbers count up without gaps on both sides |
| `Diff.Unified` | internal/diff/diff.go:111-129 | the printed text is the specified one |
| `Diff.UnifiedRoundTrip` | internal/diff/diff.go:111-129 | parsing the printed text back and applying it to the old lines gives the new lines |
| `Diff.HeaderNamesPath` | internal/diff/diff.go:111-116 | the text begins with two lines that name the path, one for each side |
| `LineEndings.SplitWritten` | internal/diff/diff.go:15-24 | a text written from lines, each ended by either line ending, splits into those lines, and a final line ending adds no line |
| `LineEndings.EveryTextIsWritten` | internal/diff/diff.go:15-24 | every text is written from some lines in this way, so that the lines of every text are determined |
| `LineEndings.NoLines` | internal/diff/diff.go:15-24 | the empty text and a single line ending have no lines |
| `Text.JoinSplit` | internal/diff/diff.go:15-24 | joining what a split gives restores the text |
| `Text.SplitJoin` | internal/diff/diff.go:15-24 | splitting joined pieces restores the pieces |
| `Text.SameLetters` | internal/workspace/parser.go:139-150 | two texts compare equal without case exactly if they differ at most in the case of letters, place by place |
| `ActivationTheory.LineageConservation` | internal/actorstub/actor.go:177-438 | over all runs every record with a lineage has depth plus remaining budget equal to the budget plus one, a depth equal to its parent-chain length and the lineage of its root, and one that was ever activated is within both limits |
| `ActivationTheory.LineageIsTree` | internal/actorstub/actor.go:268-271 | two records share a lineage exactly when they descend from the same root |
| `ActivationTheory.LiveBookkeeping` | internal/actorstub/actor.go:422-507 | over all runs live actors are exactly the active records until shutdown and none after it, timers belong to live actors, the active limit holds, and no lineage has two active records with one subject |
| `ActivationTheory.RunEvolves` | internal/actorstub/actor.go:476-581 | over all runs no record disappears, and a record changes at most once, from active to a final status |
| `ActivationTheory.RunKeeps` | internal/actorstub/actor.go:177-741 | every order of activations, expiries, completions, failures, results, stops, cleaning and shutdown keeps all invariants |
| `ActivationAnswers.AnswerExactly` | internal/actorstub/actor.go:177-438 | what one activation adds to the cleaned records, for every state, request and spawn: nothing, or one record with its place in the lineage and the status of the first check that fails |
| `ActivationAnswers.ExitExactly` | internal/actorstub/actor.go:422-733 | which record every other step ends, with which status; nothing else about the records, the counter or the shutdown changes |
| `ActivationAnswers.CounterExactly` | internal/actorstub/actor.go:177-198 | the counter moves on exactly if no open window suppresses the request |
| `ActivationAnswers.KeysApart` | internal/actorstub/actor.go:181-182 | where no workspace and no action holds a zero character, two subjects have one dedup key exactly if they are the same |
| `ActivationAnswers.KeysMeet` | internal/actorstub/actor.go:181-182 | the input that shows the condition is needed: two different subjects with one key |
| `ActivationAnswers.SixExactly` | internal/actorstub/actor.go:198-198 | an id spells its number in at least six digits, with no leading zero beyond six |
| `ActivationAnswers.DefaultsExactly` | internal/actorstub/actor.go:120-150 | every limit that is not positive gets its default, and no other changes |
| `ActivationTheory.ResultsExactly` | internal/actorstub/actor.go:559-581 | over any steps the results held are the last recorded of every actor, stamped with the time of recording |
| `DedupWindow.DuplicateSuppressed` | internal/actorstub/actor.go:177-189 | exactly when a root activation is suppressed after the latest granted one of its subject, over any steps in between: within its time, unless a step freed the key or an active record of the subject has outlived its own time |
| `DedupWindow.StepWindow` | internal/actorstub/actor.go:422-581 | what every step makes of the window of every key: a granted activation opens it, and an exit frees it exactly if it ends an active record of the subject or completes any record of it |
| `DedupWindow.RepeatedCompletionFreesAnother` | internal/actorstub/actor.go:523-541 | a run after which one subject has two active records: completing an ended record again frees the key of the next one |
| `KeyUniqueness.AdmittedExactly` | internal/actorstub/actor.go:177-420 | exactly when an activation, root or child, adds an active record, in terms of the state before it, and which record; otherwise the records are those that cleaning leaves and at most one that is not active |
| `KeyUniqueness.StepSingleExactly` | internal/actorstub/actor.go:177-420 | from at most one active record of a key, a step leaves at most one if and only if it is not an admitted activation of the key while an active record of it has not passed its time |
| `KeyUniqueness.KeyUniqueExactly` | internal/actorstub/actor.go:177-420 | over every run from the start, a key has at most one active record all along exactly if no step is such an activation |
| `KeyUniqueness.CarefulKeepsKeyUnique` | internal/actorstub/actor.go:177-189 | it is unique over every run that avoids three things: a child that takes the key, an activation at the very moment the active record expires, and completing an ended record while another is active |
| `KeyUniqueness.BoundaryDoubles` | internal/actorstub/actor.go:185-189 | two activations whose second comes exactly when the first expires leave two active records: the window is shut and the record not yet expired |
| `KeyUniqueness.ChildDoubles` | internal/actorstub/actor.go:290-297 | a child with the subject of an active record of another lineage leaves two active records |
| `DedupWindow.CleanFrees` | internal/actorstub/actor.go:629-638 | cleaning frees exactly the keys of the records it expires and keeps every other window |
| `ActorController.Controller.ActivateWithParent` | internal/actorstub/actor.go:177-438 | one activation takes the records, maps and counter to the specified state and returns the record it added, or null for a suppressed duplicate |
| `ActorController.Controller.CleanUp` | internal/actorstub/actor.go:629-638 | every active record past its time expires, and nothing else changes |
| `ActorController.Controller.CompleteActor` | internal/actorstub/actor.go:525-541 | completion as specified, freeing the key even of a record that had ended |
| `ActorController.Controller.RecordResult` | internal/actorstub/actor.go:559-581 | the result is stored; a finished active actor is completed and stopped |
| `ActorController.Controller.ExpireActor` | internal/actorstub/actor.go:476-492 | an active record expires, is stopped, and frees its key |
| `ActorController.Controller.Fail` | internal/actorstub/actor.go:544-556 | failure as specified, leaving the dedup key |
| `ActorController.Controller.HandleStopped` | internal/actorstub/actor.go:696-717 | an active record is passivated; live and timer entries go in any case |
| `ActorController.Controller.RecordFailure` | internal/actorstub/actor.go:719-733 | a panic fails an active record and unhooks it |
| `ActorController.Controller.Close` | internal/actorstub/actor.go:665-683 | shutdown clears live actors and timers and leaves every record |
| `ActorController.Controller.SpawnActor` | internal/actorstub/actor.go:440-474 | a closed system or a failed spawn fails the record; otherwise actor and timer are registered |
| `Workspaces.Workspace.UpsertFile` | internal/workspace/files.go:11-54 | fails exactly on unsafe paths and then changes nothing; otherwise the file is stored with what was known of it and the directories follow |
| `Workspaces.Workspace.AppendToFile` | internal/workspace/files.go:56-74 | the line ends up on a line of its own after the existing bytes |
| `Workspaces.Workspace.RecalcCounts` | internal/workspace/files.go:76-100 | the sorted directories above files and listed safe directories, and both counts |
| `Workspaces.AddParents` | internal/workspace/files.go:102-109 | adds exactly the directories above a path |
| `Workspaces.DirectoriesClosed` | internal/workspace/files.go:76-109 | the directory list is increasing, has every directory above a file, and is closed under parents |
| `Workspaces.AppendKeeps` | internal/workspace/files.go:56-74 | an append keeps every earlier byte and ends with the line and exactly one newline of its own |
| `SafePaths.SafeExactly` | internal/workspace/parser.go:330-359 | a path is safe exactly if it is relative, is its own cleaned form, has no NUL and nowhere two dots in a row; its segments are then proper names |
| `LedgerViews.DirectoriesExactly` | internal/workspace/files.go:76-109 | a recount lists exactly the cuts at slashes of the files' paths, the safe directories listed before, and their cuts |
| `EnvelopeRoundTrip.UpsertStores` | internal/workspace/files.go:11-54 | what an upsert stores: size, hash, encoding and declared hash of the new bytes, verified, with kind, language and media type kept where known |
| `EnvelopeRoundTrip.UpsertKeepsWellStored` | internal/workspace/files.go:11-54 | an upsert keeps every file stored as an envelope can carry it |
| `EnvelopeRoundTrip.RoundTripExactly` | internal/workspace/zip.go:152-245 | writing a workspace to an envelope and reading it back recovers exactly its files, verified, if and only if it is recoverable: something to write, no file path a directory prefix of another, and no refused name or file marker on the way to a file or live directory |
| `EnvelopeRoundTrip.RecoverableSurvives` | internal/workspace/parser.go:64-228 | a recoverable workspace comes back with its files and count, and with no issue but those about the declared source counts |
| `EnvelopeRoundTrip.NestedFileIsLost` | internal/workspace/zip.go:219-231 | the workspace with files a and a/b does not survive |
| `EnvelopeRoundTrip.TreeIsHonest` | internal/workspace/zip.go:185-245 | whatever the written tree holds at a path is the metadata of the file of that path |
| `EnvelopeTheory.SoundTop` | internal/workspace/parser.go:64-191 | the walk succeeds exactly on trees whose reached names are valid, nodes are maps and file markers are readable text |
| `EnvelopeTheory.TreeFinds` | internal/workspace/parser.go:64-191 | a successful walk of an honest tree gathers exactly the files that can be located in it, and reports no issue |
| `EnvelopeRoundTrip.ManifestQuiet` | internal/workspace/parser.go:230-299 | the manifest of a workspace has nothing to report about its own files |
| `EnvelopeRoundTrip.ContentSurvives` | internal/workspace/parser.go:301-312 | content as written, text or base64, decodes to the bytes of the file |
| `EnvelopeRoundTrip.EncodingsExactly` | internal/workspace/parser.go:301-312 | exactly which encodings decode, up to case and surrounding blanks, and to what |
| `EnvelopeNames.ReadExactly` | internal/workspace/parser.go:27-191 | an envelope is read exactly if it is of a supported kind, its tree is not empty, every name the walk comes to is a segment, every node a map, and the metadata and content of every file decode |
| `EnvelopeChecks.FilesAreTrue` | internal/workspace/parser.go:86-165 | without a manifest, every kept file comes from a node located in the tree, and is verified exactly if its declared path is empty or safe, its size is that of the decoded bytes and its hash is empty or theirs |
| `EnvelopeChecks.ReadTellsTheTruth` | internal/workspace/parser.go:27-299 | with or without a manifest, for every envelope that reads: every kept file is that of a located node, verified exactly if its own declarations and every manifest item of its path agree; every located file is kept or reported as a duplicate, and every failed check has its issue |
| `EnvelopeChecks.IssuesHaveCauses` | internal/workspace/parser.go:27-299 | every issue of a read has its cause in the envelope |
| `EnvelopeChecks.ManifestExactly` | internal/workspace/parser.go:230-299 | what the manifest does to each file and which issues it adds, item by item |
| `EnvelopeChecks.CountsAreTrue` | internal/workspace/parser.go:193-228 | the counted files and directories are those of the tree |
| `Envelopes.Write` | internal/workspace/zip.go:152-245 | directories first, then files in path order, builds the specified tree and manifest |
| `Envelopes.Read` | internal/workspace/parser.go:27-228 | reads an arbitrary envelope as specified, errors included |
| `Envelopes.ReadFileNode` | internal/workspace/parser.go:86-165 | path, size, hash and duplicate checks on one file, each with its issue |
| `Envelopes.ValidateManifest` | internal/workspace/parser.go:230-299 | every item against the tree, then every file against the items |
| `ReplayEquivalence.ReplayIsEquivalent` | internal/replay/replay.go:21-81 | over all runs of imports, state updates, event appends, document creations, blob admissions and other recorded transitions, replaying the history read back from the recorder gives every imported workspace its live ledger files, and equal projection hashes |
| `ReplayEquivalence.ActKeeps` | internal/server/operations.go:206-456 | every single server operation, admitted or rejected, keeps replay faithful for every workspace |
| `ReplayEquivalence.AdmitBlobExactly` | internal/server/quarantine_blobs.go:24-97 | admitting a quarantined blob keeps replay faithful exactly if it leaves the ledger as it is |
| `ReplayEquivalence.BaselineExactly` | internal/server/operations.go:86-101 | importing a workspace with a ledger keeps replay faithful exactly if it covers what the ledger held before |
| `ReplayEquivalence.EmptyImportExactly` | internal/server/operations.go:86-104 | the same for an import without a ledger |
| `ReplayGaps.AdmitBlobStepExactly` | internal/server/quarantine_blobs.go:24-97 | what the whole operation does to the replayed and to the live ledger, so that replay stays faithful exactly if it is refused or leaves the ledger as it is |
| `ReplayGaps.ImportStepExactly` | internal/server/operations.go:27-117 | what the whole import does to the replayed and to the live ledger, so that replay stays faithful exactly if it is refused or covers what the ledger held |
| `ReplayGaps.BlobGap` | internal/server/quarantine_blobs.go:24-97 | a run from the start after which the live ledger of a workspace has build-ledger/b and replay does not: a blob admitted there |
| `ReplayGaps.ImportGap` | internal/server/operations.go:27-117 | a run from the start after which replay of a workspace has build-ledger/b and its live ledger does not: an import over a ledger that held it |
| `ReplayGaps.PlainCommits` | internal/server/phase2.go:29-69 | a request under a new id with nothing in its way is admitted and recorded as exactly one record and one event |
| `ReplayEquivalence.ImportKeeps` | internal/server/operations.go:27-117 | an import that covers the old ledger keeps replay faithful, whether its two transitions succeed or not |
| `ReplayEquivalence.EffectOfWrite` | internal/replay/replay.go:54-76 | replaying a recorded write sets exactly the file it wrote |
| `ServerOps.RecordOutcome` | internal/server/phase2.go:29-69 | recording adds exactly one event that reads back as this action of this workspace, or nothing when it fails |
| `ServerOps.LegacyOfSaved` | internal/replay/replay.go:86-116 | the event of a recorded transition reads back as its action, details and workspace |
| `RecordedWrites.HeldForRequest` | internal/server/phase2.go:87-116 | a request under a new id that succeeds leaves the authority holding the transition that stands for it: its ids, the state it was made on, workspace, action, operation and details with their source |
| `RecordedWrites.WritesAreTold` | internal/server/operations.go:206-456 | every ledger write that succeeds, and none that fails, adds one event, from which it can be undone or done again: the file, its bytes and hashes before and after; no other file changes |
| `RecordedWrites.BaselineTells` | internal/server/operations.go:86-101 | the details of an import's baseline count its ledger files and hold the bytes of each |
| `RecordedWrites.DocumentsApart` | internal/server/operations.go:361-456 | different documents are different files, and none is the state or the event file |
| `LedgerViews.ActionExactly` | internal/replay/replay.go:86-116 | which action an event is to a replay: its own if it is not of the authority's kind, and otherwise that which the result data of its transition name |
| `LedgerReplay.BuildFiles` | internal/replay/replay.go:21-81 | the event loop computes the replay fold |
| `LedgerReplay.BuildFromFiles` | internal/projection/projection.go:29-70 | the projection of a file map, sorted and hashed |
| `LedgerViews.ViewExactly` | internal/projection/projection.go:29-70 | a projection has one entry for every file in order of path, with size, hash and language, the directories above them in order, the counts, and the hash of all that |
| `LedgerReplay.CollectLedger` | internal/projection/projection.go:72-82 | collects exactly the build-ledger files |
| `LedgerReplay.EquivalentExactly` | internal/projection/projection.go:84-86 | two projections whose own hashes do not collide are equivalent exactly when they are of the same files, content for content |
| `LedgerReplay.OtherKindReplaysExactly` | internal/replay/replay.go:83-92 | exactly when an event of another kind leaves the replayed files of a workspace as they are: not accepted, another workspace, or what its action and details would set is nothing or there already |
| `LedgerReplay.OtherKindsUnseenExactly` | internal/replay/replay.go:83-92 | over any history, replay sees only the admitted events at every moment if and only if every event of another kind is quiet at its place |
| `LedgerReplay.OpaqueEventReplays` | internal/replay/replay.go:83-92 | the input that contradicts the comment above the function: an accepted event of another kind that sets a ledger file |
| `Operations.MutateFile` | internal/server/operations.go:493-509 | candidate, transition, live file: nothing changes if the candidate fails, and once admitted the live upsert cannot fail |
| `Operations.UpdateState` | internal/server/operations.go:206-263 | the candidate never fails, and the live workspace becomes it and its file is returned exactly if the transition is admitted; otherwise the workspace is unchanged |
| `Operations.AppendEvent` | internal/server/operations.go:265-359 | the same for an appended ledger line |
| `Operations.CreateDocument` | internal/server/operations.go:361-456 | the same for a created document; an unsafe document path changes nothing |
| `Operations.VerifyReplay` | internal/server/replay.go:14-45 | reports whether live and replayed projections have one hash, or refuses when history does not read or rebuild |
| `GraphStore.Store.Apply` | internal/graph/store.go:35-71 | the stored packets change as specified and the graph is the batch build of all stored packets; the same bytes change nothing |
| `GraphStore.TakenExactly` | internal/graph/store.go:35-60 | which packet is stored: any valid one, over an earlier one of its source unless the content and source bytes are the same |
| `GraphStore.Store.RebuildFromAccepted` | internal/graph/store.go:73-95 | the graph is the batch build of the packets of history, and with distinct ids the store agrees with it |
| `GraphStore.ArrivalOrderIrrelevant` | internal/graph/store.go:35-71 | packets with distinct ids leave the same store and graph in whatever order they arrive |
| `GraphHistory.LiveGraphIsRebuilt` | internal/graph/store.go:71-95 | over every benign run of ingests among other transitions, the packets that accepted history decodes to are those stored live in all workspaces; they are those of one store exactly if no other store has any, and then the rebuilt graph is the live graph, also after a restart |
| `GraphHistory.TwoWorkspaces` | internal/graph/store.go:71-95 | a run from the start after which two workspaces have a packet each, so that a rebuild takes more than the store of either |
| `GraphHistory.IngestSays` | internal/ingest/transition.go:19-70 | what an ingest leaves held: an upsert of the source of the packet in its workspace, from which the packet reads back |
| `GraphTheory.BuildIgnoresOrder` | internal/graph/builder.go:15-23 | a batch build does not depend on the order of packets with distinct ids |
| `GraphTheory.BuiltGraph` | internal/graph/builder.go:15-241 | every built graph has strictly ordered edges, no edge but a hyperlink with a missing end, every packet with its nodes joined and its directories linked one by one to the top, and every node under its own id and brought by one of the packets |
| `GraphTheory.BuiltHeader` | internal/graph/builder.go:15-241 | a graph carries the hash of its own nodes and edges and the workspace of a packet with the least source id |
| `GraphEdges.EdgesExplained` | internal/graph/builder.go:41-217 | every edge of a built graph stands for something one of its packets says (two of its nodes, its file and its directory, a link, or two directories above it) and has that packet's provenance |
| `GraphEdges.FirstDecides` | internal/graph/builder.go:95-160 | the first packet that brings a node decides what it says |
| `GraphEdges.TypesInOrder` | internal/graph/builder.go:229-237 | edges with the same ends come in the order of the words of their types |
| `GraphEdges.SharedNodes` | internal/graph/builder.go:95-160 | two packets share a node of one kind exactly if they agree in source id, hash up to case, and locator, and never nodes of two kinds, if ids do not collide |
| `GraphTheory.BuiltNodes` | internal/graph/builder.go:95-160 | with distinct source ids the nodes at the three ids of a packet are exactly that packet's source, file and metadata nodes |
| `GraphTheory.SealedEdges` | internal/graph/builder.go:219-238 | deduplication and sorting lose no joined pair of nodes and leave no two edges with the same ends and type |
| `Graphs.Build` | internal/graph/builder.go:15-241 | the loops compute the specified graph |
| `Graphs.MakeDir` | internal/graph/builder.go:41-79 | ensures a directory and every directory above it, and returns its id |

## Left out

- HTTP handlers, routing, templates, the CLI, tokens, metrics, tasks, progress, receipts, capability checks, scoring and ingest adapters: plumbing or heuristics.
- SHA-256, base64, YAML and ZIP decoding: uninterpreted or assumed codecs, as listed above; `FromZipBytes` is not part of this model.
- Integer widths: versions, sequences and counts are unbounded naturals; wrap-around of 64-bit counters and file sizes beyond 2^53 are not modelled.
- JSON decoding beyond the written form: white space, repeated keys and case-insensitive Go field names are not modelled; the decoder reads what the writers write, and structs are read by exact name.
- Invalid number literals: `Numeral` has only valid ones, so the error branch of the canonical writer cannot be reached.
- Go's struct member order inside event hashes and HTML escaping inside opaque hashes: folded into the uninterpreted event hash.
- serde_json's own spelling of numbers: folded into `Params.reload`.
- Texts of errors and of actor notes: a failure is its class, a record has no notes.
- A nil policy function: the policy that allows everything.
- The order in which Go ranges over maps: the model sorts or proves that the order does not matter.
- The order of checkpoint files in a directory is a parameter (`Disk.dir`); files with other names are not in it.
- Concurrency inside one service: each method holds its mutex, so it is one step; handlers that race between reading the projection and proposing are not modelled, nor are server operations on one workspace at the same time.
- Proto.Actor mailboxes, supervision and timers: expiry, stop and failure are steps that may come in any order; message delivery (`Send`) changes no modelled state.
- `VerifyCheckpoint` sorts the caller's slice of accepted transitions in place; the model compares sorted copies.
- Tree nodes of an envelope are values here: the in-place update of nested Go maps is a functional insertion.
- `path.Clean` is modelled without `..`, which safe paths do not have (`SafePaths.SafeExactly`); directories of graph locators and of replayed paths are those of cleaned paths.
- Language and media type tables by file extension: parameters.
- Workspace identity, creation time, quarantine records and counts of an envelope beyond files and directories.
- Validation of request bodies (secrets, YAML, required fields): an operation stands for a request whose body has passed it; a rejected body changes nothing.
- Receipts: saving a receipt is taken to succeed, as replay equivalence needs.
- GraphStore.Store.RebuildFromAccepted: for a history that repeats a source id the source's sort leaves the order of the two open; the model keeps the order of history there and claims agreement with the stored packets only for distinct ids.
- CheckpointTheory.AlikeReplayAll: proposal contents and request bytes may differ between authorities that replay alike, since a checkpoint's entries are compared by id, result and binding only.
- Hyperlink extraction and packet validation: a packet carries its links, and validity is a parameter of the store.
