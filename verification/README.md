# Verification of the owner-approval, release, memory and messaging cores

This Dafny project models the parts of the agent repository that keep durable state across crashes,
retries and concurrent programs, and proves what those parts promise over all their runs.

Each component keeps the shape of the code: where the code changes things step by step there is a
method (usually of a class), proved against a specification function; what the component promises is
then proved about that function, for one call and for whole runs.

| component | files |
|---|---|
| Owner-approval lifecycle: leases, posting journal, producers, watchers, `--fresh`, consume, abandon | `Slug.dfy`, `ApprovalProtocol.dfy`, `ApprovalVerdicts.dfy`, `ApprovalGate.dfy`, `ApprovalWorld.dfy`, `ApprovalRuns.dfy`, `ApprovalExamples.dfy` |
| Managed-release channel: publisher chain, tag listing, verify/stage/mark loop, runs of passes | `ReleaseTags.dfy`, `ManagedSync.dfy`, `ManagedSyncRuns.dfy`, `ManagedSyncReports.dfy` |
| Memory files: parser, printer, compaction, reclaim accounting | `MemoryText.dfy`, `TextBlocks.dfy`, `Compaction.dfy`, `Reclaim.dfy` |
| Memory curator: deletion, marker, reconciliation, promotion, owner events, alerts | `MemoryDeletion.dfy`, `ReconcileVerdicts.dfy`, `DeletionMarker.dfy`, `CuratorCycle.dfy`, `CuratorSelections.dfy`, `CuratorAlerts.dfy`, `CuratorRuns.dfy` |
| Memory relocation into Obsidian notes | `Relocation.dfy`, `RelocationVerdicts.dfy`, `RelocationRuns.dfy`, `RelocationExamples.dfy` |
| Owner-DM busy queue | `OwnerDmQueue.dfy` |
| Bot loop guard | `LoopGuard.dfy`, `LoopGuardReasons.dfy` |
| Guarded external write | `GuardedWrite.dfy` |
| Text views of the repository scanner | `GenericViews.dfy` |
| Markdown chunker | `Chunker.dfy` (its splits are described in `TextBlocks.dfy`) |
| Scheduling coordination | `Coordination.dfy`, `CoordinationRuns.dfy` |

`Common.dfy` holds the one datatype they share.

How the surroundings enter: the message surface, git, signatures, archives, the resolver, the connector
and file-system faults answer through parameters (a record of answers, or a function from the step to
its answer), so every theorem holds for every pattern of failures. Hash functions, case folding, NFC,
decoders, similarity and date parsing are function parameters; where a theorem needs a hash to be
injective, or NFC to be idempotent, its precondition says so. In `ApprovalWorld` any number of
processes take turns one effect at a time and a crash may remove any of them anywhere.

Where the code does not keep what its comments promise, the model follows the code, and the lemmas say
exactly when the promise holds and give a run or an input on which it fails:

- `slug` is called collision-free; on the code points below n it is so exactly when n is at most 256
  (`CollisionFreeExactly`, `SlugCollision`).
- A decided request is destroyed exactly when the decision falls between the probe and the deletion that
  follows it (`DeletionsRespectDecisions`, `DecisionCanRaceDeletion`).
- The journal clean-up takes no lease; it loses a posted message in some continuation exactly when the
  reservation it unlinks is not covered (`CleanupLosesNothingExactly`, `OrphanWithoutTheGuard`), and
  keeping the lease for the whole clean-up is enough (`LeaseOverCleanupCovers`).
- The digest chain orders releases exactly when no release can be skipped (`InOrderExactly`,
  `CollisionSkips`): republishing earlier content allows it, unless a revocation comes in between
  (`RevocationPreventsSkipping`). Distinct digests suffice (`InOrderIffDistinct`).
- State is saved after each staged release so that none is staged again; one is staged again exactly when
  no save succeeded at or after its staging (`StagedAgainExactly`, `FailedSaveStagesTwice`).
- The projected reclaim is three characters too high exactly when all of several entries go
  (`ReclaimSumIs`).
- The deletion check can fail after the file was replaced: exactly when the removed text occurs again or
  the file cannot be read back (`DeleteEntry`); reconciliation never asks for the former
  (`AuthorizedIsUnique`).
- A due alert is sent only with something to show (`TellsExactly`). A deletion is reported exactly when
  nothing fails after it and its cycle reaches its save (`DeletionReportedExactly`, `LostDeletionRun`).
- The relocation watcher's final save undoes the channel that the lifecycle bound unless it is the loaded
  one (`ChannelSurvivesExactly`, `ChannelIsLost`), and the message unless the lifecycle returned
  (`MessageSurvivesExactly`, `MessageIsLost`). Because discovery proposes without a channel, a relocation it
  finds is never approved (`DiscoveredIsNeverApproved`, `ApprovalIsDiscarded`). A crash before that save leaves a record stuck (`StuckExactly`,
  `PostedButUnsaved`) or written without an entry (`WrittenStaysExactly`, `DeletedButUnsaved`).
- The loop guard needs a clock that does not go back (`GuardHolds`), not even by a little
  (`ClockMustNotGoBack`); it forgets a body exactly when the thread runs empty (`DuplicateExactly`,
  `DuplicateOutlivesWindow`).
- A routed event overtakes waiting ones exactly when it finds the slot free (`Route`); a merged event loses
  its media exactly when the tail has no media list (`MediaKeptExactly`).

## Model

| member | source | states |
|---|---|---|
| `Slug.UnslugSlug` | automation/interop/approval_lease.py:20-25 | decoding a slug gives back every key whose code points are below 256 |
| `Slug.SlugInjective` | automation/interop/approval_lease.py:23-25 | two such keys share a lease file or a journal file exactly when they are equal |
| `Slug.SlugCollision` | automation/interop/approval_lease.py:24-25 | the documented collision-freedom fails beyond that alphabet: U+0100 and the two-character key U+0010, '0' get one slug |
| `Slug.CollisionFreeExactly` | automation/interop/approval_lease.py:20-25 | for every n: no two keys over the code points below n share a slug if and only if n is at most 256 |
| `ApprovalProtocol.NothingAfterHoldBack` | automation/interop/approval_lifecycle.py:6-9 | L3 and L4: after a probe that is decided, unverifiable or mismatched, the same call neither deletes nor drops nor posts anything |
| `ApprovalProtocol.DeleteFollowsPendingProbe` | automation/interop/approval_lifecycle.py:122-148 | every message deletion directly follows, inside one lease hold, a probe that found that very request bound and pending |
| `ApprovalProtocol.DropIsJustified` | automation/interop/approval_lifecycle.py:122-148 | a record is dropped only right after its message was seen missing, deleted or decided (or in the discarding of the requests the snapshot found missing) |
| `ApprovalProtocol.ApplyFollowsDecision` | automation/interop/approval_lifecycle.py:224-239 | the watcher applies a decision only right after reading exactly that decision off the message |
| `ApprovalProtocol.SnapshotCovers` | automation/interop/approval_lifecycle.py:166-184 | when nothing holds the snapshot back, every listed request is missing, bound with the intent's hash, or bound with another hash |
| `ApprovalProtocol.SortedIsSorted` | automation/interop/approval_lifecycle.py:184-186 | the request kept by a collapse is the earliest by creation time and message id |
| `ApprovalGate.Gate.Destroy` | automation/interop/approval_lifecycle.py:122-148 | each doomed request is probed again; bound ones are deleted then dropped, missing ones dropped; the first other answer halts with the verdict of the automaton and the records are the old ones minus exactly what was cleared |
| `ApprovalGate.Gate.Snapshot` | automation/interop/approval_lifecycle.py:166-170 | every listed request is probed once, in order, and the records do not change |
| `ApprovalGate.Gate.Discard` | automation/interop/approval_lifecycle.py:181-182 | exactly the records of the missing requests are dropped, with reason `message_missing` |
| `ApprovalGate.Gate.Post` | automation/interop/approval_lifecycle.py:188-201 | reserve, post, commit, clear in that order; a failed post raises, commits nothing and leaves the reservation |
| `ApprovalGate.Gate.RequestOwnerApproval` | automation/interop/approval_lifecycle.py:151-201 | every effect carries the answer of the environment at its position, and the effects are a word of the lifecycle automaton that ends in the result; a lock, journal or store that stops the call, or a request seen decided, unverifiable or mismatched, gives exactly that verdict, clears nothing and leaves the records as they were; otherwise the records are the old ones minus exactly `cleared` plus the posted one, posted into an empty slot |
| `ApprovalVerdicts.VerdictIsExplained` | automation/interop/approval_lifecycle.py:151-201 | over every word of a producer call the verdict follows from its effects: the refusals of lock, journal and store; the strongest probe seen (decided before unverifiable before mismatched) with exactly the requests so found; a failed deletion; pending exactly if this content was seen outstanding, live being the earliest such request; otherwise posted |
| `ApprovalVerdicts.ClearedIsJustified` | automation/interop/approval_lifecycle.py:122-148 | every cleared request was seen missing, or its message was deleted, as a duplicate exactly when it has the intent's content and as outdated exactly when it has another |
| `ApprovalGate.Gate.ResolveOwnerDecision` | automation/interop/approval_lifecycle.py:224-239 | the call consumes exactly when the lease is granted and the surface, asked for this request, answers approved or cancelled; then that decision is applied and the record dropped, and otherwise nothing changes |
| `ApprovalGate.Gate.ClearOne` | automation/skill_gate_request.py:59-83 | one outstanding request is deleted and dropped, dropped, or survives untouched with the refusal's reason |
| `ApprovalGate.Gate.SupersedeOutstanding` | automation/skill_gate_request.py:86-99 | every effect carries the environment's answer and explains the refusal; success empties the key's slot, and records of other keys never change |
| `ApprovalVerdicts.RefusalIsExplained` | automation/skill_gate_request.py:59-99 | over every word of a `--fresh` call: the refusal is decided, unverifiable or mismatched exactly when such a request was seen, the lock, the store or a deletion exactly when that failed, and there is none exactly when nothing of this happened |
| `ApprovalGate.Gate.RetireRecord` | automation/skill_gate_retire.py:137-179 | consume and abandon remove the record exactly when the lease is granted, the store readable, the stored hash and message id the given ones, the audit line (abandon only) written and the unlink successful; each refusal comes exactly on its own answer and leaves the records unchanged |
| `ApprovalGate.WithoutAllContains` | automation/interop/approval_lifecycle.py:130-148 | clearing removes a record exactly when some cleared request has its key, hash and message id |
| `ApprovalGate.SlotEmptied` | automation/interop/approval_lifecycle.py:188-194 | once the missing and the differing requests are cleared, the key has no record left to overwrite |
| `ApprovalGate.CanonicalKept` | automation/interop/approval_lifecycle.py:184-187 | collapsing duplicates leaves exactly the canonical request among those with the intent's content |
| `ApprovalRuns.RunsAreSafe` | automation/interop/approval_lifecycle.py:151-201 | over every interleaving of producers, watchers, fresh, consume, abandon, journal clean-ups, owner reactions, owner deletions and crashes: at most one record per key; and while every clean-up so far was covered at its unlink, every posted message is recorded, deleted, consumed, audited, or its own reservation is outstanding |
| `ApprovalRuns.RunsExclude` | automation/interop/approval_lease.py:43-60 | L1: two processes are never inside the lease block of one key at the same time, in any run |
| `ApprovalRuns.RunsNeverReplace` | automation/interop/approval_lifecycle.py:4-5 | L2: no step of any run turns a key's record into a different record |
| `ApprovalRuns.CommitIntoEmptySlot` | automation/skill_gate_approval.py:302-309 | in every reachable world a commit finds the key's slot empty |
| `ApprovalRuns.DeletionsRespectDecisions` | automation/interop/approval_lifecycle.py:6-7 | L3 over runs: a deleted message was live and undecided at the deleting program's own preceding step; the deletion destroys a decision if and only if the owner reacted between the two and did not take it back |
| `ApprovalRuns.CleanupLosesNothingExactly` | automation/interop/approval_lease.py:95-106 | the clean-up is read, audit, unlink without a lease: the next unlink keeps every posted message accounted for in every continuation if and only if the reservation it unlinks is audited, or its messages are accounted for and nobody is about to post under it |
| `ApprovalRuns.LeaseOverCleanupCovers` | automation/interop/approval_lease.py:95-106 | an operator who keeps every program out of the key's lease from the read to the unlink always meets that condition |
| `ApprovalExamples.OrphanWithoutTheGuard` | automation/interop/approval_lease.py:95-106 | in a concrete run a producer posts between the clean-up's audit and its unlink and then crashes: the posted message has no record, no reservation and no audit line |
| `ApprovalExamples.DecisionCanRaceDeletion` | automation/interop/approval_lifecycle.py:133-147 | probe and deletion are two calls: in a concrete reachable run the owner's reaction falls between them and is destroyed |
| `ReleaseTags.ParseRender` | automation/managed_sync/fetch.py:130-137 | the subscriber's tag parser reads back the sequence of every tag the publisher prints (sequence at least one) |
| `ReleaseTags.RenderParse` | automation/managed_sync/fetch.py:130-137 | a name that parses is the printed tag of the sequence it parses to |
| `ReleaseTags.ListReleaseTags` | automation/managed_sync/fetch.py:140-165 | the tags come back ascending, as a permutation of the well-formed lines, and the malformed lines are counted |
| `ManagedSync.LatestIsNewest` | automation/managed_skills/publish_cli.py:116-129 | among the tags of a history, listed in any order, the publisher picks the last release |
| `ManagedSync.PublishExtends` | automation/managed_skills/publish_cli.py:116-173 | the next sequence and previous digest extend a chained history by one release, whatever the order of the tag list |
| `ManagedSync.RefusesExactly` | automation/managed_skills/publish_cli.py:127-135 | the publisher continues from the newest tag with its digest, and refuses exactly when that tag's manifest is for another skill or sequence |
| `ManagedSync.VerifiedExactly` | automation/managed_sync/verify.py:217-246 | a release verifies exactly when it is signed by the right principal, bound, of the tag's identity, newer and chained (unless a rollback), of the declared digest, and not revoked by state or manifest |
| `ManagedSync.SyncRun.SyncSkill` | automation/managed_sync/pipeline.py:122-189 | the loop with its skips, break and per-release failures leaves memory, state file and report exactly as the walk over the tags defines them |
| `ManagedSync.SyncRun.SyncAll` | automation/managed_sync/pipeline.py:192-225 | the pass over the sorted configuration threads memory and state file through every opted-in skill and reports the others as skipped |
| `ManagedSyncReports.RejectedForFirst` | automation/managed_sync/verify.py:217-246 | a release that is not accepted is rejected for the first of the ordered conditions that it misses |
| `ManagedSyncReports.VisitReports` | automation/managed_sync/pipeline.py:150-184 | each visit of a walk adds to the report, to memory and to the state file exactly what its answers and the state it meets demand: one failure if a handled release misses a condition, the staged release if it meets those up to the staging, the recorded state, and the save if that succeeds |
| `ManagedSyncReports.StoppedExactly` | automation/managed_sync/pipeline.py:157-160 | the walk has stopped exactly when a visit met a due release above the pin |
| `ManagedSyncReports.FailuresExactly` | automation/managed_sync/pipeline.py:161-184 | the failures of a walk are, in order and each with its tag name, exactly the handled releases that missed a condition of verification, staging or saving, with the reason of the first one missed |
| `ManagedSyncReports.LatestIsLast` | automation/managed_sync/pipeline.py:171-188 | a walk reports as staged the release it staged last going forward, as rolled back the one it staged last as a rollback, and none if there was none |
| `ManagedSyncReports.ReportIsComplete` | automation/managed_sync/pipeline.py:192-225 | the report of a whole pass is one part per configured skill, in order: the skill skipped if it is not opted in, one fetch failure if its tags cannot be listed, and otherwise its failures and its staged and rolled-back release |
| `ManagedSyncRuns.HistoryIsChained` | automation/managed_skills/publish_cli.py:116-173 | publishing any list of contents yields one chained history over them |
| `ManagedSyncRuns.VerifiedIsNext` | automation/managed_sync/verify.py:153-167 | unless the history can skip, the only forward release that verifies in a prefix state is the next one of the history |
| `ManagedSyncRuns.RecordingSucceeds` | automation/managed_sync/state.py:67-83 | recording after a forward verification never raises |
| `ManagedSyncRuns.ProcessCases` | automation/managed_sync/pipeline.py:160-184 | a processed release changes nothing but the failure list, or was acceptable and is staged, recorded unless it is a rollback, its revocations added, and the result saved when saving works |
| `ManagedSyncRuns.RunRecordsHistory` | automation/managed_sync/pipeline.py:150-184 | unless the history can skip: over every run of passes (failures, pins, failed saves, rollbacks, crashes) each walk starts from a prefix of the publisher's history, records exactly the releases that follow it, and leaves a prefix in memory and on disk, with exactly the digests revoked that the recorded releases revoke |
| `ManagedSyncRuns.InOrderExactly` | automation/managed_sync/verify.py:153-246 | whatever the releases revoke, they are always recorded in order if and only if no release can be skipped: two releases that have successors share a digest, a subscriber can come as far as the first, and nothing revokes the successor of the second |
| `ManagedSyncRuns.InOrderIffDistinct` | automation/managed_sync/verify.py:163-167 | distinct digests of the releases that have a successor always suffice, and without revocations they are necessary too |
| `ManagedSyncRuns.RevocationPreventsSkipping` | automation/managed_sync/verify.py:243-245 | a concrete history with equal digests that is recorded in order all the same, because its first release revokes the digest |
| `ManagedSyncRuns.CollisionSkips` | automation/managed_sync/verify.py:163-167 | where a history can skip there is a walk with honest answers that records a release whose predecessors were never verified and whose revocations were never learnt |
| `ManagedSyncRuns.DurableGrows` | automation/managed_sync/state.py:67-100 | over any runs `highest_sequence` never falls, the revoked set never shrinks, and an unchanged highest sequence keeps its digest |
| `ManagedSyncRuns.RevokedIsNeverStaged` | automation/managed_sync/verify.py:243-245 | a digest revoked in the state file is staged by no later pass, rollbacks included |
| `ManagedSyncRuns.WalkStagesEligible` | automation/managed_sync/pipeline.py:150-184 | no walk stages a release above the pin or with a digest revoked when the walk began |
| `ManagedSyncRuns.BreakSkipsNothing` | automation/managed_sync/pipeline.py:158-159 | every tag that the break leaves unvisited is above the pin, because the tags ascend |
| `ManagedSyncRuns.OptedOutUntouched` | automation/managed_sync/pipeline.py:210-215 | a pass leaves the state of a skill that is not opted in as it was, in memory and on disk |
| `ManagedSyncRuns.DurableExactly` | automation/managed_sync/pipeline.py:176-184 | over every run, the state file has come to release s if and only if, in some pass, a successful save came at or after a forward staging of s or of a later release |
| `ManagedSyncRuns.StagedAgainExactly` | automation/managed_sync/pipeline.py:150-184 | a release met with good answers is staged going forward, for the first time or again, if and only if no earlier pass saved successfully at or after staging it or a later release; so a staged release is staged again exactly when its pass failed to save, or crashed, from then on |
| `ManagedSyncRuns.RollbackAgainExactly` | automation/managed_sync/pipeline.py:151-176 | a rollback stages again exactly the requested release that the state file already covers, whatever was saved, and never moves the recorded sequence |
| `ManagedSyncRuns.FailedSaveStagesTwice` | automation/managed_sync/pipeline.py:179-184 | a concrete run of two passes stages one release twice, because the first pass could not save it |
| `MemoryText.ParseMemoryFile` | automation/memory_curator/curator.py:50-68 | the buffer-and-flush loop computes the parse of the text |
| `MemoryText.ParseIsCanonical` | automation/memory_curator/curator.py:50-68 | every parsed entry is non-empty, trimmed, broken at line feeds only and free of section lines |
| `MemoryText.ParseSerialize` | automation/memory_curator/curator.py:71-72 | printing any list of such entries and parsing it gives the list back |
| `MemoryText.ParseSerializeParse` | automation/memory_curator/curator.py:50-72 | for every text, parsing the serialization of its parse changes nothing |
| `TextBlocks.LinesExactly` | automation/memory_curator/curator.py:50-68 | the lines of any text are what its line breaks leave: no line holds a break, every line but perhaps the last ends in exactly one, and all together are the text |
| `TextBlocks.EntriesAreBlocks` | automation/memory_curator/curator.py:50-68 | the entries of any text are the blocks between its section lines, in order, without the white space at their ends and without the blank ones, so parsing loses nothing else |
| `Compaction.DedupeKeepsFirsts` | automation/memory_curator/curator.py:87-94 | deduplication keeps exactly the first entry of every key, in order |
| `Compaction.DedupeKeys` | automation/memory_curator/curator.py:87-94 | no key is lost, none appears twice, and every kept entry was there before |
| `Compaction.DedupeIdempotent` | automation/memory_curator/curator.py:84-94 | deduplicating twice is deduplicating once |
| `Compaction.CompactedIdempotent` | automation/memory_curator/apply.py:51-55 | the canonical form of a canonical form is itself |
| `Compaction.UnchangedExactly` | automation/memory_curator/apply.py:55 | no change is reported exactly for the printed form of trimmed, section-free entries with distinct keys |
| `Compaction.MemoryDisk.ApplyCuration` | automation/memory_curator/apply.py:44-66 | the file is replaced by its canonical form, with the original text in the backup, exactly when it differs and the run is not dry |
| `Compaction.MemoryDisk.ApplyTwice` | automation/memory_curator/apply.py:44-66 | a second application on what the first one wrote reports no change and leaves the first backup alone |
| `Compaction.SameKeyExactly` | automation/memory_curator/curator.py:75-77 | texts with the same words have the same key, and if the case folding is injective only those have |
| `Compaction.OnePerWording` | automation/memory_curator/curator.py:75-94 | no two kept entries have the same words, and every entry has a kept one with its key |
| `Reclaim.ReclaimableIs` | automation/memory_curator/reclaim.py:23-35 | removing one of several entries frees its text and one separator; removing the only entry frees its text |
| `Reclaim.ReclaimSumIs` | automation/memory_curator/shadow.py:103-142 | for any set of positions the projected sum is the true drop in size, except that removing all of two or more entries is overstated by the three characters of one separator |
| `Reclaim.BindKind` | automation/memory_curator/reclaim.py:50-58 | candidates are bound to distinct positions that hold their text; it fails exactly when a text is asked for more often than the file has it |
| `Reclaim.OrderByReclaim` | automation/memory_curator/reclaim.py:38-63 | the result is a permutation of the bound candidates sorted by reclaim, kind and digest, and it fails exactly when one of the files lacks a candidate |
| `MemoryDeletion.Disk.DeleteEntry` | automation/memory_curator/deletion.py:36-154 | the call succeeds exactly when file, index and backup name are as expected, no fault occurs and the removed text does not occur again; what it leaves on disk is stated for every fault, including the error after the file was already replaced |
| `ReconcileVerdicts.DiskExactly` | automation/memory_curator/deletion.py:86-154 | whatever fails: the file changes exactly when nothing failed up to its replacement, then it lost just the entry and the backup holds the old text; a backup is created exactly when lock and name were granted; nothing else on disk changes |
| `MemoryDeletion.DeletesExactly` | automation/memory_curator/reconcile.py:33-81 | deletion of entry i is decided exactly when the note is intact, its marker names this key, kind and digest, and i is the only entry with the digest |
| `MemoryDeletion.AuthorizedIsUnique` | automation/memory_curator/deletion.py:144-148 | an authorized entry's text occurs nowhere else in the file, so the check after the rewrite passes for it |
| `MemoryDeletion.AuthorizedIsDeleted` | automation/memory_curator/watch_steps.py:118-165 | when nothing interferes, an authorized entry leaves the file, the old text is in the backup, the record is reconciled and the deletion is reported with the characters it freed |
| `MemoryDeletion.UnconfirmedNeverDeletes` | automation/memory_curator/reconcile.py:52-53 | a record with an empty note hash deletes nothing |
| `MemoryDeletion.Disk.ReconcilePromotions` | automation/memory_curator/watch_steps.py:98-180 | the loop leaves files, records, deletions, blocks and reasons exactly as the fold of the per-record decisions |
| `ReconcileVerdicts.DecidesFirst` | automation/memory_curator/reconcile.py:33-81 | an open record is decided by the first condition it misses: it stays open for that reason, or is closed when its entry is gone |
| `ReconcileVerdicts.PassAnswers` | automation/memory_curator/watch_steps.py:98-180 | over a pass each open record is answered once, from the record as loaded: with the reason of the first condition missed and a block entry, or as closed, or as deleted exactly when the rewrite goes through (planned in a dry run), and ends as this answer left it; no other visit changes anything |
| `ReconcileVerdicts.DryPassDeletesNothing` | automation/memory_curator/watch_steps.py:124-137 | a dry pass leaves the files as they were and applies no deletion |
| `MemoryDeletion.PassDeletesAtMostOne` | automation/memory_curator/watch_steps.py:105-178 | whatever other writers do meanwhile, one pass removes at most one entry from each file, because the exclusive backup is named after the second of the pass |
| `MemoryDeletion.PassKeepsEntries` | automation/memory_curator/watch_steps.py:98-180 | each visit of a pass leaves a file as it was, as another writer made it, or with its old entries in order minus exactly the one that an intact note authorized |
| `MemoryDeletion.PassAlone` | automation/memory_curator/watch_steps.py:98-180 | without another writer, a whole pass leaves each file as it found it, or without one authorized entry |
| `MemoryDeletion.PassMoves` | automation/memory_curator/watch_steps.py:112-178 | a pass never changes a record's kind, entry digest or note hash, and moves its status only to reconciled |
| `MemoryDeletion.PassCloses` | automation/memory_curator/watch_steps.py:137-168 | the keys deleted for real are distinct, were open before, had some bytes hashing to the confirmed note hash, and are reconciled afterwards |
| `DeletionMarker.MatchesPrinted` | automation/memory_curator/binding.py:56-66 | the pattern, matched where a coherent marker is printed, reads all its fields back |
| `DeletionMarker.ParseExactly` | automation/memory_curator/binding.py:69-96 | a note parses to a marker exactly when it contains that marker as printed and no second opening |
| `DeletionMarker.OneMarker` | automation/memory_curator/binding.py:69-96 | no note carries two different markers |
| `DeletionMarker.DeletionIsSpelledOut` | automation/memory_curator/reconcile.py:61-80 | an entry is deleted only on a note that spells out its kind, its digest and the permission to delete |
| `CuratorCycle.SelectPromotions` | automation/memory_curator/candidates.py:23-81 | the loop with its skips and break promotes as the fold of the per-candidate steps and never attempts more than the maximum |
| `CuratorSelections.VisitSelects` | automation/memory_curator/candidates.py:37-81 | each visit does exactly what its inputs demand: it tries its candidate exactly when no legacy record covers it, its record is absent or prepared, and fewer than the maximum were tried; it posts it exactly when the run is not dry and a receipt came, and otherwise blocks it with the reason |
| `CuratorSelections.SelectionReports` | automation/memory_curator/candidates.py:33-82 | promoted and blocked list, in order, exactly the tried candidates that were posted and those that were not |
| `CuratorSelections.PostedExactly` | automation/memory_curator/candidates.py:62-81 | a record becomes posted, with the hash of the receipt, exactly when a try of its key was posted, which happens at most once; any other record keeps its status and its hash |
| `CuratorSelections.DryRunPromotesNothing` | automation/memory_curator/candidates.py:64-66 | in a dry run nothing is promoted, every loaded record stays exactly as it is, new records are prepared without a hash, and every tried candidate is blocked as a dry run |
| `CuratorCycle.MergeEvents` | automation/memory_curator/watch.py:182-186 | merging yields exactly the pending and the new events, and raises if and only if a new event differs from a pending one, or from an earlier new one, of its key |
| `CuratorCycle.Curator.RunCycle` | automation/memory_curator/watch.py:94-239 | the state file, the events told to the owner and the raised error are those of the cycle, for a cut at any checkpoint |
| `CuratorSelections.DryCycleIsSilent` | automation/memory_curator/watch.py:109-210 | a dry cycle deletes nothing, produces no event, tells the owner nothing, and leaves the pending events as they were |
| `CuratorSelections.RunPostsExactly` | automation/memory_curator/candidates.py:23-81 | over every run, a cycle turns an unposted key into a posted record if and only if it tries its candidate for real, gets a receipt and reaches its save; a dry cycle never does |
| `CuratorSelections.EventsTell` | automation/memory_curator/watch_steps.py:183-209 | the owner events are, in order, one per promotion with its text and draft and one per applied deletion with its text and the space it freed |
| `CuratorRuns.CycleKeepsInv` | automation/memory_curator/watch.py:182-186 | from a good state a cycle never raises "owner event payload changed" and saves a good state |
| `CuratorRuns.StatusSteps` | automation/memory_curator/watch_steps.py:98-180 | in every run a cycle moves a saved record at most from prepared to posted or from posted to reconciled |
| `CuratorRuns.EventsAreProducedOnce` | automation/memory_curator/watch_steps.py:183-209 | over a whole run each owner event is produced in at most one cycle that reaches its save |
| `CuratorRuns.EventsAreKeptOrTold` | automation/memory_curator/watch.py:187-215 | a pending event stays in the state file, unchanged, until an alert call that carried it returned True |
| `CuratorRuns.NewEventsAreKeptOrTold` | automation/memory_curator/watch.py:176-215 | an event produced in a cycle that reaches its save is saved, or told in that cycle |
| `CuratorRuns.PreparedNeverDeletes` | automation/memory_curator/reconcile.py:40-53 | in every run, whatever is deleted belongs to a record that was posted |
| `CuratorRuns.AlertStep` | automation/memory_curator/watch.py:187-229 | the remembered last alert changes only in a cycle whose alert call returned True and that completed its save |
| `CuratorRuns.AlertsAreApart` | automation/memory_curator/alerting.py:68-130 | two successive delivered alerts differ in signature and are a cooldown apart on whole-second clocks, and more than a cooldown minus one second apart on any clock |
| `CuratorRuns.AlertMovesExactly` | automation/memory_curator/watch.py:190-215 | the remembered alert moves in exactly those cycles that deliver a due alert and complete their save |
| `CuratorRuns.FailedAlertStaysDue` | automation/memory_curator/watch.py:190-215 | an alert that is due stays due for its signature over every run of cycles none of which delivers a due alert and saves it |
| `CuratorAlerts.DueExactly` | automation/memory_curator/alerting.py:68-130 | over every run, an alert is due exactly when the signature is not the quiet one and either none was delivered yet, or the last delivered one carried another signature and its cooldown is over |
| `CuratorAlerts.SavedAlert` | automation/memory_curator/watch.py:187-230 | a cycle that saves leaves its signature as observed, and as pending that signature exactly when the cooldown holds it back; a due alert clears it only by being delivered |
| `CuratorAlerts.TellsAll` | automation/memory_curator/watch.py:182-220 | a delivered report carries all pending and new events, each with its payload and nothing else; after it a cycle that comes to its end keeps no event, and a saving cycle that told nothing keeps them all |
| `CuratorAlerts.ToldOnce` | automation/memory_curator/watch.py:182-220 | over every run, an event that a completed cycle told the owner is never told again |
| `CuratorRuns.TellsExactly` | automation/memory_curator/watch.py:187-215 | the owner is told something if and only if the alert call is reached and succeeds, the run is not dry, and there is a pending or new event or a due alert with a freed or nearly full file; a due alert without those is never sent |
| `CuratorRuns.DeletionReportedExactly` | automation/memory_curator/watch_steps.py:137-168 | over every run in which nobody writes the entry back, the event of a removal is ever saved or told if and only if nothing failed after the removal and its cycle reached its save |
| `CuratorRuns.LostDeletionIsSilent` | automation/memory_curator/watch.py:176-207 | a removal whose cycle was cut before its save, or whose read-back failed, is saved or told by no cycle of the run |
| `CuratorRuns.LostRecordIsClosed` | automation/memory_curator/reconcile.py:76-77 | the first later cycle that finds the intact note and saves closes such a record as `entry_not_found` |
| `CuratorRuns.LostDeletionRun` | automation/memory_curator/watch.py:176-207 | a concrete run of three cycles in which a deletion is lost and the owner hears nothing of it |
| `Relocation.Store.SetMessageId` | automation/memory_relocate/effects_live.py:98-108 | a message and channel are bound only over an unbound record with the same action hash; nothing else changes |
| `Relocation.Store.ClearMessageId` | automation/memory_relocate/effects_live.py:110-113 | a binding is cleared only when action hash and message are the stored ones |
| `Relocation.Store.Update` | automation/memory_relocate/effects_live.py:115-119 | a record is replaced only when its action hash and message binding stay |
| `Relocation.Node.WriteObsidian` | automation/memory_relocate/effects_live.py:301-326 | the write effect leaves the upserted note and answers a receipt exactly when the remote, read back, hashes like it |
| `Relocation.Node.ApplyDelete` | automation/memory_relocate/apply.py:43-96 | every gate in order, then the guarded deletion; the native file, the log and the outcome for every fault |
| `Relocation.Node.ResolveTick` | automation/memory_relocate/watch_step.py:55-154 | the loop leaves records, result lists and environment exactly as the fold of the per-record steps |
| `RelocationVerdicts.VisitSteps` | automation/memory_relocate/watch_step.py:68-146 | each visit takes its record exactly the step that the answers allow (posted exactly when the request is committed and returned within the maximum; approved, abandoned or unbound exactly on that reading; written exactly for a confirmed note; reconciled exactly when every condition is met, else blocked for the first missed), changes only the fields of that step, reports it, and leaves all other records alone |
| `RelocationVerdicts.TickReports` | automation/memory_relocate/watch_step.py:62-154 | a tick reports, in order, exactly the records it posted, wrote, reconciled and abandoned, and posts at most one |
| `RelocationVerdicts.CallSteps` | automation/memory_relocate/watch_step.py:68-146 | a completed call leaves each loaded record one step further, by what its one visit saw, or as it was when it was not visited |
| `RelocationVerdicts.AnswerDecides` | automation/memory_relocate/watch_step.py:87-108 | in every call of every run a posted record ends abandoned, and is so reported, if and only if its visit read the refusal; approved if and only if it read the approval; proposed without its message if and only if the message was missing; and otherwise it is as it was |
| `RelocationVerdicts.RefusedIsFinished` | automation/memory_relocate/watch_step.py:98-100 | once a refusal is saved, over every later run the record stays as it is, nothing is probed, posted, written or removed for its key, and no call reports it again |
| `RelocationVerdicts.AppliesExactly` | automation/memory_relocate/apply.py:49-96 | the deletion succeeds exactly when every condition is met, and otherwise blocks for the first one missed |
| `RelocationVerdicts.WritesNote` | automation/memory_relocate/effects_live.py:301-326 | whenever the clone is there, the note of the recovered entry is in it at the planned path: freshly rendered, unless what was there reads the same |
| `RelocationVerdicts.AppliesRemoval` | automation/memory_relocate/apply.py:49-96 | a reconciled visit has rewritten the native file without just that entry, with the old text in the backup and the removal logged with the note read back |
| `RelocationVerdicts.BlockedTouchesNothing` | automation/memory_relocate/apply.py:49-79 | while a condition before the deletion is missed, nothing is touched |
| `RelocationVerdicts.NewRecordExactly` | automation/memory_relocate/cron/memory_relocate_watch.py:97-141 | over every run a new record comes exactly from an unbound proposal for an unknown key while every stored record is finished |
| `RelocationRuns.ReceiptMeansRendered` | automation/obsidian_write/writer.py:83-152 | a write receipt means that the local file is the rendered note byte for byte, although an existing file is compared only after newline translation |
| `RelocationRuns.RenderedContains` | automation/memory_relocate/plan.py:59-61 | stripping and rendering keep the entry's exact text inside the note |
| `RelocationRuns.NoFactIsLost` | automation/memory_relocate/watch_step.py:68-146 | over every run, crashes at any point included: an entry is removed from native memory only after an observed owner approval and a recorded write, while the note read back contains that very entry |
| `RelocationRuns.GateOpensExactly` | automation/memory_relocate/apply.py:49-82 | the deletion is reached exactly for an approved or written record with matching action hash, intact and indexed note, and a single entry of its digest |
| `RelocationRuns.RemovalsAreLogged` | automation/memory_relocate/apply.py:83-96 | in every call of every run, each visit changes the native files through another writer, or by rewriting the text it read without exactly the entry that its new log line names |
| `RelocationRuns.RunFrame` | automation/memory_relocate/watch_step.py:68-146 | over a run no binding field ever changes, and reconciled and abandoned records never change again |
| `RelocationRuns.StuckExactly` | automation/memory_relocate/watch_step.py:79-81 | over every run, a stored proposal holds a message (so that no tick visits it) if and only if some call crashed between the commit of that message and its final save |
| `RelocationRuns.StuckBlocksDiscovery` | automation/memory_relocate/cron/memory_relocate_watch.py:95-105 | such a record is never moved again, and no later call of the run discovers another candidate |
| `RelocationExamples.PostedButUnsaved` | automation/memory_relocate/cron/memory_relocate_watch.py:144-156 | a concrete run of one call that crashes after `set_message_id` ends with such a record |
| `RelocationRuns.ChannelSurvivesExactly` | automation/memory_relocate/cron/memory_relocate_watch.py:144-156 | in a completed call the channel that `set_message_id` committed survives the final save if and only if the record was loaded with that channel |
| `RelocationExamples.ChannelIsLost` | automation/memory_relocate/effects_live.py:98-108 | a concrete completed call commits channel 5 and saves channel 0 |
| `RelocationRuns.MessageSurvivesExactly` | automation/memory_relocate/effects_live.py:257-274 | in a completed call the committed message survives the final save if and only if nothing failed between the commit and the lifecycle's return; otherwise a posted message is left on an unbound proposal |
| `RelocationExamples.MessageIsLost` | automation/memory_relocate/effects_live.py:257-274 | a concrete completed call commits message 7, fails before it returns, and saves an unbound proposal |
| `RelocationRuns.DiscoveredIsNeverApproved` | automation/memory_relocate/cron/memory_relocate_watch.py:124-140 | over every run of calls, crashes included, a relocation that the watcher discovered itself (with the empty channel) is never approved, and nothing is written or removed, whatever the owner answers where the message was posted |
| `RelocationExamples.ApprovalIsDiscarded` | automation/memory_relocate/effects_live.py:98-108 | a concrete run of two completed calls: the owner has approved, the probe reads the empty channel as missing, and the message is unbound |
| `RelocationRuns.WrittenStaysExactly` | automation/memory_relocate/watch_step.py:121-140 | a written record is still written after a call exactly if the call crashed or no visit of it passed every gate and deleted |
| `RelocationRuns.WrittenWithoutEntryStays` | automation/memory_relocate/effects_live.py:349-352 | once its entry is gone, a written record stays written over every run in which the entry stays gone, and no call of that run discovers another candidate |
| `RelocationExamples.DeletedButUnsaved` | automation/memory_relocate/watch_step.py:121-140 | a concrete run of five calls: the fourth deletes the entry and crashes before its save, the fifth completes and leaves the record written with `entry_absent` |
| `OwnerDmQueue.Queue.QueueDepth` | automation/hermes_compat/owner_dm_dispatch.py:30-35 | the depth is the length of the session's queue |
| `OwnerDmQueue.MergeInto` | automation/hermes_compat/owner_dm_dispatch.py:52-64 | the tail gets the joined text, the concatenated receipts and, if both sides hold media, the media; also when the event is the tail itself |
| `OwnerDmQueue.Queue.Route` | automation/hermes_compat/owner_dm_dispatch.py:38-72 | slot plus overflow behaves as one bounded queue whose last event may grow; an added event is last in line if and only if the slot was filled or no other event was waiting, and otherwise overtakes them; other sessions keep their events |
| `OwnerDmQueue.RoutedExactly` | automation/hermes_compat/owner_dm_dispatch.py:47-72 | an event is merged exactly when it is related and both it and the last event hold text, whatever the depth, and otherwise rejected exactly at the cap |
| `OwnerDmQueue.TextsAreGathered` | automation/hermes_compat/owner_dm_dispatch.py:54-59 | over any run each queued event's text is the texts gathered for it, in order of arrival and each on its own line; empty texts before the first other one leave no line |
| `OwnerDmQueue.GroupsInOrder` | automation/hermes_compat/owner_dm_dispatch.py:47-72 | the texts gathered for the queued events are those of the first queue and of all accepted events, in arrival order |
| `OwnerDmQueue.Queue.Prepend` | automation/hermes_compat/owner_dm_dispatch.py:75-84 | the event becomes the front of its session, other sessions are untouched, and the slot is filled |
| `OwnerDmQueue.ReceiptsInOrder` | automation/hermes_compat/owner_dm_dispatch.py:38-96 | over any run of route calls the flattened receipt ids and members are the old ones followed by those of the accepted events, in arrival order |
| `OwnerDmQueue.DepthIsBounded` | automation/hermes_compat/owner_dm_dispatch.py:66-67 | no run grows the queue past the cap or past its first length |
| `OwnerDmQueue.MediaKeptExactly` | automation/hermes_compat/owner_dm_dispatch.py:57-63 | the media of an accepted event are kept exactly unless they are merged into a tail without media |
| `LoopGuard.LoopGuard.Evaluate` | automation/interop/loop_guard.py:45-71 | the decision and the new window of the thread are those of the specification, other threads and protocol messages change no window, and the deques stay aligned |
| `LoopGuard.GuardHolds` | automation/interop/loop_guard.py:45-71 | for every history with a non-decreasing clock: any six allowed replies span a window, any three low-information ones do, and equal or similar bodies are a window apart |
| `LoopGuard.RefusedExactly` | automation/interop/loop_guard.py:55-71 | a body is let through an arbitrary window if and only if its hash is unknown, it is no third low-information body, nothing in the window is similar, and fewer than five replies are left in it |
| `LoopGuard.PassedExactly` | automation/interop/loop_guard.py:45-71 | for every history with a non-decreasing clock, a message is let through if and only if the replies with it added keep all those promises and its body is not remembered from before |
| `LoopGuardReasons.ReasonsExactly` | automation/interop/loop_guard.py:55-71 | for every history with a non-decreasing clock the guard names the first promise the reply would break: a remembered duplicate, the limit of low-information replies, similarity, the rate |
| `LoopGuardReasons.ProtocolPasses` | automation/interop/loop_guard.py:47-48 | a protocol message is let through and leaves the thread as it was |
| `LoopGuard.ClockMustNotGoBack` | automation/interop/loop_guard.py:51-54 | no step back is harmless: for every positive step there is a history with this one step back in which six replies fall within less than a window |
| `LoopGuard.DuplicateExactly` | automation/interop/loop_guard.py:51-61 | a body is refused as a duplicate if and only if a reply with its hash was let through and the thread has not run empty since, however long ago that was |
| `LoopGuard.DuplicateOutlivesWindow` | automation/interop/loop_guard.py:51-61 | a concrete history whose third message is refused although the only earlier use of its body is seventy seconds old |
| `GuardedWrite.PathsEndProven` | automation/entity_preflight/state.py:48-78 | every path of transitions is short, and a verified or failed end carries the evidence it claims |
| `GuardedWrite.ResourceIdIsLast` | automation/entity_preflight/state.py:72-78 | along every path of transitions the state holds the id that was passed last |
| `GuardedWrite.ResourceIdKept` | automation/entity_preflight/state.py:72-78 | the id of a successful write is kept along a path if and only if no later step passes an id or the last one passed is the same, and it is blank if and only if the last one passed is empty |
| `GuardedWrite.InMemoryIdempotencyStore.Claim` | automation/entity_preflight/gate.py:114-119 | the first claim of a key marks it in progress, every later one returns what is stored and changes nothing |
| `GuardedWrite.GuardedWriteCall` | automation/entity_preflight/gate.py:174-226 | the store, the connector calls and the answer of one call, for every failure of resolver, audit log, connector and readback |
| `GuardedWrite.FirstAnswers` | automation/entity_preflight/gate.py:184-226 | over any calls, the first call of a key asks for clarification exactly when it must, reports an unresolved request exactly when the resolver failed, a failed verification exactly for that outcome, the write exactly when it read back equal, and raises exactly otherwise |
| `GuardedWrite.LaterAnswers` | automation/entity_preflight/gate.py:181-240 | over any calls, every later call of a key repeats the first answer: the result marked as replayed, the clarification without rendering, the resolver's failure, and else that verification failed or that the request is in progress |
| `GuardedWrite.RendersExactly` | automation/entity_preflight/gate.py:195-234 | over any calls, a clarification is rendered exactly by the first call of a key that has to ask |
| `GuardedWrite.WrittenAtMostOnce` | automation/entity_preflight/gate.py:174-226 | over any calls that share a store the connector is asked to write at most once per key, even when it raises |
| `GuardedWrite.WritesExactly` | automation/entity_preflight/gate.py:181-201 | over any calls, the connector is asked, with the call's payload, exactly by the first call of a key that is resolved and audited and needs no confirmation |
| `GuardedWrite.ReturnedIsOneWrite` | automation/entity_preflight/gate.py:229-240 | every returned result is, up to its replay mark, the result of one call of that key that wrote once and read back equal |
| `GuardedWrite.BreaksExactlyOnEmptyId` | automation/entity_preflight/state.py:58-59 | a first call whose other steps succeed breaks the phase machine exactly when the connector returned an empty id, and then stays in progress |
| `GuardedWrite.FirstCallDecides` | automation/entity_preflight/gate.py:181-183 | once a key has an entry no later call changes it |
| `GenericViews.Views` | tools/repo_scan_normalizers.py:19-40 | the worklist terminates; the views are normalized, pairwise distinct and at most 256, each is the normal form of the input or of a decoding of an earlier view, and below the cap every decoding of a view has its normal form among the views |
| `GenericViews.ViewsAreTheClosure` | tools/repo_scan_normalizers.py:19-40 | below the cap the views are the least set that holds the normal form of the input and is closed under decoding |
| `Chunker.SplitSections` | automation/rag_ingest/chunking.py:62-74 | the buffer loop splits the lines at headings as the recursive definition does |
| `TextBlocks.SectionsAreBlocks` | automation/rag_ingest/chunking.py:62-74 | the sections of any lines are the blocks that begin at the headings, in order, without the newlines at their ends and without the blank ones |
| `TextBlocks.PiecesAreSlices` | automation/rag_ingest/chunking.py:77-96 | a section within the limit is one piece; a longer one is cut into pieces of just the limit with the rest at the end |
| `Chunker.ChunkMarkdown` | automation/rag_ingest/chunking.py:81-107 | the two packing loops compute the chunks; a non-positive limit raises |
| `Chunker.ChunksKeepContent` | automation/rag_ingest/chunking.py:81-107 | every chunk is non-empty and within the limit, and the visible characters of all chunks in order are those of the body |
| `Chunker.PackingIsGreedy` | automation/rag_ingest/chunking.py:94-106 | chunks join consecutive pieces, and no chunk could have taken the first piece of the next one |
| `Coordination.CandidateSlots` | automation/interop/coordination.py:161-189 | the filter loops keep exactly the parsed slots in range without overlap, sorted, distinct and cut at the limit (a negative limit counts from the back) |
| `Coordination.SlotsAreEarliest` | automation/interop/coordination.py:161-189 | the slots are offered, in range, free and ascending, and every other such slot comes after all of them and only when the limit is reached |
| `Coordination.RunsAreShort` | automation/interop/coordination.py:80-153 | every run has at most six events and two proposals, and a slot is always chosen where one is asked for |
| `Coordination.EventsFitPhase` | automation/interop/coordination.py:156-158 | after any run an event raises exactly when the phase does not fit it |
| `Coordination.DeclineRenegotiatesOnce` | automation/interop/coordination.py:139-153 | a decline by either side proposes the second candidate exactly when it is the first decline and there is one; otherwise the run is refused |
| `Coordination.AcceptanceWrites` | automation/interop/coordination.py:118-127 | the owner's acceptance writes the last proposed slot in every run that reaches it |
| `Coordination.WritesAreFew` | automation/interop/coordination.py:118-127 | a run emits at most one calendar write, and none if it ends in a failure phase |
| `Coordination.WriteIsProposed` | automation/interop/coordination.py:118-127 | the write is for the last proposed slot, one of the candidates |
| `Coordination.WriteIsApproved` | automation/interop/coordination.py:107-127 | the write follows the peer's acceptance and then, as the next event, the owner's; which slot the owner accepted is the subject of `OwnerIsAskedFirst` |
| `CoordinationRuns.EventsEmit` | automation/interop/coordination.py:88-153 | after every run the next event emits exactly its commands: the owner is asked about the last proposed slot, the write and the reports are for the slot the owner was last asked about, and each failure sends its own notice |
| `CoordinationRuns.OwnerIsAskedFirst` | automation/interop/coordination.py:107-127 | over every run the owner is asked exactly once per acceptance by the peer, and what is written is the slot the owner was last asked about |
| `CoordinationRuns.RunsEndTold` | automation/interop/coordination.py:88-153 | every failed run ends with its one notification, which gives its reason; a finished run reports the written slot to the team and the owner; no other run notifies or reports |
| `Coordination.WrittenSlotIsFree` | automation/interop/coordination.py:80-189 | end to end: the written slot is an offered one that fits the range, meets no busy interval and is among the earliest |

## Left out

- ApprovalRuns.RunsAreSafe: one probe is one atomic step, although the code reads content and reactions in separate calls; a decision made between those calls counts as made after the probe.
- ApprovalRuns.CleanupLosesNothingExactly: a reservation file is read whole or not there; a torn file, which the code reads as outstanding with empty fields, is not modelled.
- ApprovalGate.Gate.Drop: `drop` on an unreadable store does nothing in the code and is modelled only on readable stores; every store that is read for a decision may answer unreadable.
- ApprovalGate.Gate.RequestOwnerApproval: exceptions other than the surface and record errors that the code names end the process and are the crash steps of `ApprovalWorld`.
- Legacy records of the skill gate, their migration probe, and the nonce and execution checks of `_execution_state`: they serve one migration and add no step to the protocol.
- L5 beyond its reasons: exit codes and printed tokens of the command-line wrappers.
- ReleaseTags.ParseRender: tag digits are the ASCII digits; the pattern's other decimal digits are not modelled.
- ManagedSync.SyncRun.SyncSkill: signature, binding, archive extraction and digesting are answers, and so are quarantine staging and saving; temporary trees are not modelled.
- Activation, revocation of live skills (`check_live`), quarantine contents and the publisher's copying, committing, tagging and pushing: single-branch I/O around the modelled state.
- Message ids, channels, timestamps, audit actors and signatures are natural numbers: they are only compared.
- MemoryDeletion.Disk.DeleteEntry: file contents are decoded text; the errors of undecodable bytes, symbolic links and file modes are the one answer `LockRefused`.
- Compaction.MemoryDisk.ApplyCuration: a file is read as text, so a carriage return never reaches the comparison; failures of the backup and of the atomic replace are not modelled (`DeleteEntry` models its own).
- CuratorCycle.Curator.RunCycle: the compaction that precedes it, the classifier, the candidate ranking and the report text are inputs; `Compaction` and `Reclaim` treat the first and the third on their own.
- CuratorRuns.AlertStep: the signature of the actionable state is a number given to the cycle; which entries and buckets feed it is not modelled.
- The counters, routes and vetoes of `build_shadow_report`: only its projected sum is modelled.
- Relocation.Node.Post: the approval lifecycle behind it is one answer that says what it committed; the lifecycle itself is `ApprovalGate`.
- RelocationRuns.DiscoveredIsNeverApproved: that no reaction can be read on the empty channel is a premise about the message surface (its probe finds no message or fails).
- RelocationRuns.StuckExactly: a crash falls between two visits of a call; one inside a visit counts as one before or after it.
- RelocationRuns.NoFactIsLost: the retrieval index answers yes or no; that its answer matches the note is not modelled. The provenance footer is any text that ends in a visible character.
- The gateway code that takes events out of the owner-DM queue is not part of this model.
- OwnerDmQueue.Queue.Route: a slot that holds the value `None`, and events whose attributes appear or vanish at run time, are not modelled.
- LoopGuard.LoopGuard.Evaluate: times are real numbers, not floating-point ones; envelope and report parsing, normalization and the similarity ratio are parameters.
- GuardedWrite.GuardedWriteCall: the claim is one step, so two threads that race inside it are not modelled; audit and log entries are only whether they failed.
- GenericViews.Views: percent-decoding, JSON escapes, Base64 and NFC are parameters, NFC being idempotent.
- Chunker.ChunkMarkdown: front matter parsing is not modelled; it runs before chunking and only drops text.
- Coordination.CandidateSlots: datetimes are instants with an offset; parsing, printing and `parse_busy_intervals` are parameters or inputs.
- Drive expiry, credential rotation, release and skill stores, peer attestation, cost reports, classification prompts and gateway patchers: mostly I/O or single-branch checks that would only add easy members.
