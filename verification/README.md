# Havemind sync: a verified model

Havemind keeps Markdown vaults in step across devices and promises that nothing is lost or silently
overwritten. This project models the code that promise rests on and proves it for all inputs and all runs:

- **Three-way merge and line diff** (`Text`, `Lcs`, `Hunks`, `Segments`, `MergeSpec`, `MergeProps`, `MergeLineSet`,
  `MergeEdits`, `Diff3`, `MergeText`, `LineDiff`). `Diff3` is the sorted event walk as it runs. `MergeSpec` says what a merge is
  without any walk: the ancestor is cut at the lines neither side touched, and each piece (a *slot*) is resolved on
  its own. The walk is proved to compute exactly that, and every law of the merge is proved of the slots.
- **The revision store** (`StringOrder`, `RevisionTables`, `RevisionInvariant`, `RevisionProps`, `RevisionRetry`,
  `RevisionAcceptance`, `RevisionEvents`, `RevisionQuota`, `RevisionRepository`). A commit is one transaction over tables held as maps and
  sets; runs interleave commits with pruning, account changes and quota changes. `RevisionRepository.Repository` is
  the class that updates the tables row by row, proved against the transaction.
- **Blobs, the startup sweep, backup and restore** (`BlobMachine`, `BackupClosure`, `BackupRuns`, `BlobStore`, `BackupRestore`).
  One machine interleaves puts, commits, crashes at any point, sweeps and backups.
- **Refresh-token rotation** (`TokenRotation`, `TokenRuns`). One client with its durable pending record, a server, and a network
  that may lose, repeat or delay a request.
- **Keyed locks** (`KeyedMutex`, `KeyedLocking`, `KeyedMutexRegistry`) and **the `data.json` queue** (`PluginData`,
  `PluginDataStore`).
- **Base64** (`Base64`), against section 4 of RFC 4648.

Protocols are state machines: a step is what happens between two awaits, and a theorem over a run quantifies over
every sequence of enabled steps.

## Where the code keeps less than its documentation says

- A line present in the ancestor and on both sides can be missing from a merge, which
  `packages/sync-core/src/diff3.property.test.ts:103` rules out: `x m x` with the first `x` deleted locally and the
  last one remotely merges to `m`. `MergeLineSet.KeptLineLost` is the example, `MergeLineSet.KeptLineSurvivesIff` the
  exact condition on the two diffs. On the texts alone, a line that the two sides together hold more often than the
  ancestor does always survives (`MergeLineSet.FrequentLineSurvives`), and in the example the counts are equal.
- The feasibility check accepts some requests the commit refuses. `RevisionRetry.FeasibilityGap` is a run that ends in
  one; `RevisionRetry.FeasibilityExact` names the two families: a reused key on an already stored revision, and an
  exhausted sequence or epoch.
- The actual server repeats a rotation's answer only while the successor is current. A copy of a request delivered
  after the next rotation burns the family although one client sent everything. `TokenRuns.LateDuplicateBurns` is
  the example, `TokenRuns.BurnedIff` the exact condition; against the contract the client is written for,
  `TokenRuns.NeverBurned` holds of every run.
- The canonical-form check of base64 accepts text no bytes encode to, such as `QR==`.
  `Base64.CanonicalNotEncoded` is the example, `Base64.DecodeRoundTripIff` the exact condition.

## Model

| member | source | states |
|---|---|---|
| Text.JoinSplit | packages/sync-core/src/diff3.ts:72-74 | a text split on LF and joined back is the same text |
| Text.SplitJoin | packages/sync-core/src/diff3.ts:72-74 | lines without a break survive joining and splitting |
| Lcs.CommonBound | packages/sync-core/src/diff3.ts:81-120 | no strictly increasing common subsequence is longer than the table entry |
| Lcs.WalkIsLongest | packages/sync-core/src/diff3.ts:102-119 | the forward walk yields a strictly increasing common subsequence of maximum length |
| Lcs.FillTable | packages/sync-core/src/diff3.ts:85-100 | the flat table filled backwards holds the LCS length of every pair of suffixes |
| Lcs.WalkAllChosen | packages/sync-core/src/diff3.ts:105-118 | which longest one is taken: none starts earlier in the second text; its line at hand is matched with its first occurrence in the first text, and otherwise none starts later in the first text; and so on after every match |
| Lcs.ChoiceIsUnique | packages/sync-core/src/diff3.ts:105-118 | only one longest common subsequence is chosen so |
| Lcs.LcsMatches | packages/sync-core/src/diff3.ts:81-120 | the table and walk as they run give that longest common subsequence |
| Hunks.DiffIsOptimalScript | packages/sync-core/src/diff3.ts:123-142 | the hunks form an edit script that replaces as few ancestor lines as any script does |
| Hunks.ScriptOrdered | packages/sync-core/src/diff3.ts:123-142 | consecutive hunks are in order, with at least one matched line between them |
| Hunks.DiffRebuilds | packages/sync-core/src/diff3.ts:123-142 | applying the hunks to the ancestor gives the variant; hunks are ordered, apart and non-empty |
| Hunks.DiffHunks | packages/sync-core/src/diff3.ts:123-142 | the loop over match boundaries gives exactly those hunks |
| Segments.VariantStart | packages/sync-core/src/diff3.ts:150-158 | the start index is the cut plus the drift of the hunks ending by it, an insertion at the cut excluded |
| Segments.VariantEnd | packages/sync-core/src/diff3.ts:165-173 | the end index counts the hunks ending by the cut, an insertion at the cut included |
| Segments.SpanBounds | packages/sync-core/src/diff3.ts:150-183 | for a range no hunk straddles, the two indices are in bounds and ordered, and the next untouched line stands right after |
| Segments.SegmentFor | packages/sync-core/src/diff3.ts:176-183 | the slice is the variant's text for that range |
| Segments.HunkInSpan | packages/sync-core/src/diff3.ts:176-183 | a hunk anchored in the range has its whole replacement inside the segment |
| Segments.QuietSpan | packages/sync-core/src/diff3.ts:176-183 | a range without hunks reads as the ancestor does |
| Segments.BalancedSpan | packages/sync-core/src/diff3.ts:325-350 | one-for-one hunks keep line numbers aligned throughout the range |
| Segments.TouchedSpanDiffers | packages/sync-core/src/diff3.ts:263-266 | with an optimal diff, a range with a hunk never reads as the ancestor, so neither branch can drop a hunk |
| MergeSpec.SlotEndUnique | packages/sync-core/src/diff3.ts:243-257 | a region is determined by its start: it ends at the first line neither side touched |
| MergeSpec.MergeLinesCommutes | packages/sync-core/src/diff3.ts:221-302 | local and remote may be swapped without changing the outcome |
| MergeProps.MergeSound | packages/sync-core/src/diff3.ts:197-302 | on success all four texts are woven from blocks where one side equals the ancestor and the other is taken, both are equal, or every line is claimed by one side, with shared lines between |
| MergeProps.MergeConflictIff | packages/sync-core/src/diff3.ts:263-292 | the merge fails exactly if both sides touch a slot, differ there, and not one for one on different lines |
| MergeProps.MergeRemoteUnchanged | packages/sync-core/src/diff3.ts:263-265 | merge(O, L, O) is L |
| MergeProps.MergeLocalUnchanged | packages/sync-core/src/diff3.ts:266-268 | merge(O, O, R) is R |
| MergeProps.MergeSameChange | packages/sync-core/src/diff3.ts:269-271 | merge(O, X, X) is X |
| MergeProps.SeparatedEditsMerge | packages/sync-core/src/diff3.ts:248-257 | if an untouched line lies between every local and every remote hunk, the merge succeeds |
| MergeProps.ReplacementsSurvive | packages/sync-core/src/diff3.ts:197-302 | every replacement of both sides stands whole in the result, in order and without overlap |
| MergeLineSet.MergedLines | packages/sync-core/src/diff3.ts:197-302 | exactly which lines a successful merge holds |
| MergeLineSet.MergeCombinesOnly | packages/sync-core/src/diff3.property.test.ts:103-135 | a merge invents no line and drops no line a side added |
| MergeLineSet.KeptLineSurvivesIff | packages/sync-core/src/diff3.property.test.ts:103-135 | a line present in all three texts is lost exactly if a side replaces each of its occurrences, neither writes it and no agreed slot holds it; each side then left an occurrence in place that only the other replaced |
| MergeLineSet.FrequentLineSurvives | packages/sync-core/src/diff3.property.test.ts:103-135 | a line the two sides together hold more often than the ancestor always survives |
| MergeLineSet.SingleLineSurvives | packages/sync-core/src/diff3.property.test.ts:103-135 | a line that occurs once in the ancestor and is present on both sides always survives |
| MergeLineSet.KeptLineLost | packages/sync-core/src/diff3.property.test.ts:103-135 | a merge that drops a line all three texts have |
| MergeEdits.DisjointRewritesMerge | packages/sync-core/src/diff3.ts:273-292 | two people who rewrite different lines, neighbouring or not, always merge, with each one's lines in place |
| MergeEdits.SameLineConflicts | packages/sync-core/src/diff3.property.test.ts:139-163 | two different new texts for one line always conflict |
| MergeEdits.RewriteDiff | packages/sync-core/src/diff3.ts:123-142 | the diff of a text with rewritten lines covers exactly those lines, one for one and in place |
| Diff3.SortEvents | packages/sync-core/src/diff3.ts:221-228 | the events are sorted by anchor, local first on a tie, and none is lost |
| Diff3.MergeDisjointRegion | packages/sync-core/src/diff3.ts:316-411 | in a region the line walk always advances and gives the line-by-line choice exactly if all hunks are one for one and no line is claimed twice, else null |
| Diff3.GroupIsSlot | packages/sync-core/src/diff3.ts:243-257 | a grouped region is a contiguous union of hunks that no hunk straddles, and the side set tells which sides are in it |
| Diff3.GroupRegion | packages/sync-core/src/diff3.ts:243-257 | the grouping loop ends at such a region |
| Diff3.ResolveRegion | packages/sync-core/src/diff3.ts:259-292 | the branches give the slot's resolution |
| Diff3.MergeHunks | packages/sync-core/src/diff3.ts:218-301 | the event walk computes the slot-by-slot merge |
| MergeText.MergeTexts | packages/sync-core/src/diff3.ts:197-302 | the whole function, with its cell ceiling, is the merge on texts |
| MergeText.MergeIsCommutative | apps/obsidian-plugin/src/runtime/head-reconciliation.ts:58-67 | two clients merging the same heads author the same text, whichever is local |
| MergeText.MergeIdentities | packages/sync-core/src/diff3.ts:211-302 | the three identities on texts within the ceiling |
| MergeText.MergedTextSplits | packages/sync-core/src/diff3.ts:301-301 | the joined text splits into exactly the merged lines |
| MergeText.ConflictIff | packages/sync-core/src/diff3.ts:211-289 | a conflict means an oversized table or a contested slot, and nothing else |
| LineDiff.TrimmingIsOptimal | apps/obsidian-plugin/src/runtime/conflict-resolution.ts:253-270 | matching the shared first and last lines directly loses no common line |
| LineDiff.SharedPrefix | apps/obsidian-plugin/src/runtime/conflict-resolution.ts:253-260 | the longest common prefix |
| LineDiff.SharedSuffix | apps/obsidian-plugin/src/runtime/conflict-resolution.ts:261-268 | the longest common suffix beside it |
| LineDiff.DiffMiddle | apps/obsidian-plugin/src/runtime/conflict-resolution.ts:276-310 | the backtrace projects to both middles with as many context lines as their LCS, and no removed line directly follows an added one |
| LineDiff.ComputeLineDiff | apps/obsidian-plugin/src/runtime/conflict-resolution.ts:250-315 | the diff projects exactly to mine and theirs, its context is as long as the LCS of the untrimmed texts, removed lines come first in every change, and it is null exactly if the trimmed middle exceeds the ceiling |
| LineDiff.EitherBreak | apps/obsidian-plugin/src/runtime/conflict-resolution.ts:231-234 | a text has the same lines with either line break |
| StringOrder.LessMeans | packages/protocol/src/revision-schema.ts:61-71 | the order: at the first difference the smaller string ends or has the smaller character |
| StringOrder.AscendingUnique | apps/server/src/revision-repository.ts:346-354 | an ascending list is determined by its elements |
| RevisionInvariant.ValidHeaderIff | packages/protocol/src/revision-schema.ts:44-72 | the schema's separate checks amount to a strictly ascending list of at most 32 parents without the revision itself |
| RevisionInvariant.HeadComparisonIsSetEquality | apps/server/src/revision-repository.ts:1043-1051 | comparing heads and parents as arrays is comparing them as sets |
| RevisionInvariant.AcceptedGraph | apps/server/src/revision-repository.ts:984-1054 | what an accepted revision's parents are: none for a new file, else stored revisions of that file, and all heads if two or more |
| RevisionInvariant.AcceptKeepsHeads | apps/server/src/revision-repository.ts:802-822 | heads stay exactly the revisions that are nobody's parent |
| RevisionInvariant.AcceptKeepsEvents | apps/server/src/revision-repository.ts:824-867 | events stay exactly 1..cursor, one per revision |
| RevisionInvariant.EnvironmentKeepsInv | apps/server/src/prune-expired.ts:37-75 | pruning, account, vault and quota changes keep the invariant |
| RevisionInvariant.CommitKeepsInv | apps/server/src/revision-repository.ts:610-632 | a commit keeps the invariant, whatever its outcome |
| RevisionProps.RunInv | apps/server/src/revision-repository.ts:406-416 | every reachable state satisfies the invariant |
| RevisionProps.RunExtends | apps/server/src/revision-repository.ts:684-725 | revisions, events and cursors are append-only over every run |
| RevisionProps.Acyclic | apps/server/src/revision-repository.ts:984-1054 | no revision is its own ancestor |
| RevisionProps.ReachesRoot | apps/server/src/revision-repository.ts:984-1054 | every revision reaches a root of its file |
| RevisionProps.CommonAncestor | apps/server/src/revision-repository.ts:984-1054 | any two revisions of a file share its one root |
| RevisionProps.HeadsAreTips | apps/server/src/revision-repository.ts:444-456 | a file's heads are exactly its childless revisions, and never none |
| RevisionProps.ReconcileLeavesOneHead | apps/server/src/revision-repository.ts:1043-1051 | an accepted commit with two or more parents is the file's only head |
| RevisionRetry.RetryIsIdempotent | apps/server/src/revision-repository.ts:610-682 | resubmitting an accepted commit at any later point of any run changes no revision, head, event or cursor and returns the same receipt, exactly if the key is free |
| RevisionRetry.RetryPasses | apps/server/src/revision-repository.ts:528-585 | the checks before the transaction let such a retry through |
| RevisionRetry.NoCollision | apps/server/src/revision-repository.ts:761-851 | the inserts never meet an existing row |
| RevisionRetry.NoInternalFault | apps/server/src/revision-repository.ts:610-632 | the "idempotency response without its revision" branch and the other contradiction faults are unreachable |
| RevisionRetry.FeasibilityExact | apps/server/src/revision-repository.ts:641-664 | the commit succeeds exactly if the feasibility check passes, no key is reused on a stored revision and nothing is exhausted |
| RevisionRetry.FeasibilityGap | apps/server/src/revision-repository.ts:641-651 | a run after which the check accepts a stored revision under a used key and the commit refuses it |
| RevisionAcceptance.AcceptedIff | apps/server/src/revision-repository.ts:610-733 | a revision with a new id is accepted exactly if its actor may commit, the vault is live, the key unused, there is room, it fits the graph and nothing is exhausted; and its receipt, field by field |
| RevisionAcceptance.FitsIsGraph | apps/server/src/revision-repository.ts:984-1054 | the graph checks pass exactly for the first of a new file, for any one stored parent of the file, and for two or more that are the heads |
| RevisionAcceptance.StaleUpdateForks | apps/server/src/revision-repository.ts:1043-1051 | a revision on one stored parent that is no head is accepted, and the file forks |
| RevisionAcceptance.HeadsAfterAccept | apps/server/src/revision-repository.ts:802-822 | the file's heads lose the parents and gain the revision; other files' heads stay |
| RevisionAcceptance.ReceiptFields | apps/server/src/revision-repository.ts:271-299 | a stored revision's receipt, field by field |
| RevisionAcceptance.RefusalCodes | apps/server/src/revision-repository.ts:610-733 | which code a refusal carries, in the order of the checks |
| RevisionAcceptance.WhoMayCommit | apps/server/src/revision-repository.ts:869-904 | exactly an active member of the vault whose user is active, on that user's approved device |
| RevisionAcceptance.SuccessIsAuthorized | apps/server/src/revision-repository.ts:610-615 | nothing succeeds without that, or on a deleted vault |
| RevisionAcceptance.PreparedIff | apps/server/src/revision-repository.ts:528-585 | exactly what passes the checks before the transaction |
| RevisionAcceptance.AsciiKeys | apps/server/src/revision-repository.ts:185-212 | which idempotency keys of ASCII characters are valid |
| RevisionAcceptance.IdNeverReused | apps/server/src/revision-repository.ts:242-269 | a request that differs from the stored revision in anything is refused and changes nothing |
| RevisionAcceptance.SuccessIsRecorded | apps/server/src/revision-repository.ts:666-733 | every success is on record under its key, for the whole time-to-live, as accepted or replayed |
| RevisionAcceptance.KeyIsHeld | apps/server/src/revision-repository.ts:944-954 | no prune up to its deadline frees a key, and till then it is refused for any other request |
| RevisionAcceptance.PruneIsExact | apps/server/src/prune-expired.ts:57-59 | a prune drops exactly the records past the cutoff |
| RevisionAcceptance.ListedHeads | apps/server/src/revision-repository.ts:444-456 | the listed heads are the file's heads in ascending order, none for another vault |
| RevisionAcceptance.QuotaChoice | apps/server/src/quota.ts:61-67 | a vault's own quota beats the default |
| RevisionAcceptance.RoomIsQuota | apps/server/src/revision-repository.ts:735-759 | there is room exactly if the vault stores the blob already or its bytes fit |
| RevisionEvents.PageExact | apps/server/src/revision-repository.ts:478-511 | a page is exactly the next sequences, full or up to the cursor |
| RevisionEvents.SessionExact | apps/server/src/revision-repository.ts:478-511 | a client paging with any sizes while commits interleave sees 1, 2, 3, ... once each |
| RevisionEvents.EventsMatchRevisions | apps/server/src/revision-repository.ts:458-476 | in every run a vault's events are exactly 1..cursor, one per revision, and never change |
| RevisionQuota.AcceptCharges | apps/server/src/quota.ts:28-45 | an accepted commit charges the blob's size for a new hash and nothing for a known one |
| RevisionQuota.CommitKeepsQuota | apps/server/src/revision-repository.ts:735-759 | a commit leaves every vault within its quota |
| RevisionQuota.QuotaOverRuns | apps/server/src/quota.ts:28-83 | with true sizes and no quota lowered, no reachable state exceeds a quota |
| RevisionRepository.Repository.ReplaceParentHeads | apps/server/src/revision-repository.ts:802-822 | links the parents and puts the revision in their place as head |
| RevisionRepository.Repository.ReplayExisting | apps/server/src/revision-repository.ts:666-682 | a stored revision answers its own retry |
| RevisionRepository.Repository.InsertRevision | apps/server/src/revision-repository.ts:761-822 | adds the revision's file, row, parents and head |
| RevisionRepository.Repository.InsertRows | apps/server/src/revision-repository.ts:699-725 | the row-by-row inserts make the tables of an accepted commit |
| RevisionRepository.Repository.CommitNewRevision | apps/server/src/revision-repository.ts:684-733 | a new revision's rows, or every table untouched |
| RevisionRepository.Repository.CommitPrepared | apps/server/src/revision-repository.ts:610-632 | the class computes the transaction and keeps the invariant; a refusal changes no table, a success leaves the request's own row and its receipt |
| RevisionRepository.Repository.PruneExpired | apps/server/src/prune-expired.ts:57-59 | drops exactly the expired idempotency records |
| RevisionRepository.Repository.ParseRows | apps/server/src/revision-repository.ts:1099-1134 | every row parses, into its own sequence and stored revision |
| RevisionRepository.Repository.ListEvents | apps/server/src/revision-repository.ts:478-511 | the lowest events after the cursor up to the page size, each with its stored revision's file and receipt; refused exactly for a bad cursor or size, and no row is ever corrupt |
| BackupClosure.StepKeepsInv | apps/server/src/blob-store.ts:201-250 | every step of pushes, crashes, sweep and backup keeps the directory exact and complete |
| BackupClosure.TempRenamed | apps/server/src/blob-store.ts:224-244 | publishing by rename puts exact bytes under their own digest, with other writers of the same bytes at work |
| BackupClosure.SweepRemoves | apps/server/src/blob-gc.ts:29-48 | a sweep step removes nothing a revision references |
| BackupClosure.BackupCopies | apps/server/src/backup-restore.ts:240-259 | a copy step takes only settled blobs and misses none the snapshot references |
| BackupClosure.CommittedBlobsSurvive | apps/server/src/blob-store.ts:201-250 | in every run, with crashes at any fault point, each committed revision keeps its exact blob |
| BackupClosure.SweepIsExact | apps/server/src/blob-gc.ts:29-48 | when the server starts to listen, the published blobs are exactly the referenced ones |
| BackupClosure.FinishedBackupIsClosed | apps/server/src/backup-restore.ts:225-280 | in every run, a finished backup has every hash of its snapshot in the manifest with matching bytes |
| BackupRuns.CommittedIsBackedUp | apps/server/src/backup-restore.ts:225-280 | in every run, what a push committed before a backup's snapshot is in the finished backup byte for byte, and in every directory of it a restore lets through |
| BackupRuns.NoLeftovers | apps/server/src/blob-store.ts:218-249 | short of a crash, a temporary file lasts no longer than the push that writes it |
| BackupRuns.PushCompletes | apps/server/src/blob-store.ts:201-250 | an undisturbed push publishes its bytes and is referenced |
| BackupRuns.BootCompletes | apps/server/src/blob-gc.ts:29-48 | an undisturbed start sweeps and comes up |
| BackupRuns.BackupCompletes | apps/server/src/backup-restore.ts:225-280 | an undisturbed backup finishes with the snapshot it took |
| BlobStore.Store.PutSerialized | apps/server/src/blob-store.ts:201-250 | with an error at any fault point: published whole or not at all, no temporary file left, a corrupt file reported |
| BlobStore.Store.ListHashes | apps/server/src/blob-store.ts:143-174 | every published hash once |
| BlobStore.Store.SweepOrphanedBlobs | apps/server/src/blob-gc.ts:29-48 | removes exactly the unreferenced blobs, and the counts are right |
| BlobStore.SweptIsExact | apps/server/src/blob-gc.ts:14-48 | after a sweep the published hashes are exactly the referenced ones, each with its bytes |
| BackupRestore.VerifyManifestBlobs | apps/server/src/backup-restore.ts:403-430 | passes exactly if every manifest entry's file is there, hashes to its name and has its size |
| BackupRestore.RestoreInstance | apps/server/src/backup-restore.ts:440-468 | the epoch is rotated exactly if the target was empty, manifest and database are there and sound, every entry holds and the instance is initialized; and which error otherwise |
| BackupRestore.PassedRestoreIsExact | apps/server/src/backup-restore.ts:403-430 | blobs that pass the manifest check of a closed backup hold, for every revision, exactly the bytes it copied |
| BackupRestore.FinishedBackupRestores | apps/server/src/backup-restore.ts:225-468 | in every run, a finished backup left alone restores, and one whose blobs were damaged afterwards fails the gates or restores every revision's exact bytes |
| BackupRestore.RestoredRuns | apps/server/src/backup-restore.ts:440-468 | the own runs of an instance restored from any such directory keep every blob, sweep leftovers before listening and close every backup again |
| BackupRestore.VerifyBackupStructure | apps/server/src/backup-restore.ts:618-656 | passes exactly if manifest and snapshot are there and size, integrity and every manifest entry hold |
| BackupRestore.PruneBackups | apps/server/src/backup-restore.ts:681-709 | something is removed only if every artifact that stays was verified; when it fails all stay |
| TokenRotation.RotateOutcome | apps/server/src/auth/session-repository.ts:562-726 | with deadlines that slide, user and device: a sound request to a dead family is refused, to a living one answered, unless the family is past its successor, which burns it |
| TokenRotation.AnyRequest | apps/server/src/auth/session-repository.ts:562-726 | what any request meets, sound or not: refused, repeated, burned for another id or successor, or rotated with the deadline slid and no other token touched |
| TokenRotation.StepKeepsInv | apps/obsidian-plugin/src/runtime/access-token.ts:123-265 | every step, crash and failing write or clear keeps the client's record in line with the server |
| TokenRuns.SameRequest | apps/obsidian-plugin/src/runtime/access-token.ts:134-217 | in every run until the client reads a 401, all requests sent for one token are the same request |
| TokenRuns.CurrentOrExactRetry | apps/obsidian-plugin/src/runtime/access-token.ts:9-20 | in every run, whatever is sent presents the current token with a new successor, or repeats what consumed its token |
| TokenRuns.WaitingIsServed | apps/obsidian-plugin/src/runtime/access-token.ts:134-193 | in every run, the request the client waits on is answered with a rotation while the family lives |
| TokenRuns.BurnedIff | apps/server/src/auth/session-repository.ts:621-655 | a run burns the family exactly if it delivers, to the living family, a request whose successor was already consumed |
| TokenRuns.NeverBurned | apps/obsidian-plugin/src/runtime/access-token.ts:9-35 | against the contract, one client never burns its family, in any run |
| TokenRuns.PromptNeverBurned | apps/obsidian-plugin/src/runtime/access-token.ts:9-35 | against the actual server, not in any run whose requests arrive while their token is stored, or just replaced and its successor unsent |
| TokenRuns.LateDuplicateBurns | apps/server/src/auth/session-repository.ts:621-640 | two rotations and then a repeat of the first request burn the family |
| TokenRuns.AlwaysRecovers | apps/obsidian-plugin/src/runtime/access-token.ts:13-35 | from every reachable state of a living family there is a way to the current token stored and no record left |
| TokenRuns.NeverServedAgain | apps/server/src/auth/session-repository.ts:594-612 | after a revocation or past the deadline, no run brings the family back |
| KeyedLocking.StepKeepsInv | apps/obsidian-plugin/src/runtime/keyed-mutex.ts:36-63 | every callback keeps the chains in order and the registry at their tails |
| KeyedLocking.DrainKeepsInv | apps/obsidian-plugin/src/runtime/keyed-mutex.ts:55-61 | dropping a drained key loses no waiting task |
| KeyedLocking.MutualExclusion | apps/obsidian-plugin/src/runtime/keyed-mutex.ts:36-63 | in every run, no two calls that asked for a common key are in their bodies at once |
| KeyedLocking.TasksAreCalls | apps/obsidian-plugin/src/runtime/keyed-mutex.ts:36-43 | in every run there is one task per call, with exactly the keys the call asked for |
| KeyedLocking.OnlyOwnKeyBlocks | apps/obsidian-plugin/src/runtime/keyed-mutex.ts:25-31 | in every run, a link may enter exactly if every earlier link of its key has settled; other keys never block it |
| KeyedLocking.FirstComeFirstServed | apps/obsidian-plugin/src/runtime/keyed-mutex.ts:48-63 | in every run, a key is served in the order of enqueuing |
| KeyedLocking.NeverStuck | apps/obsidian-plugin/src/runtime/keyed-mutex.ts:35-43 | in every run, some step is enabled until everything called has finished |
| KeyedLocking.EverythingFinishes | apps/obsidian-plugin/src/runtime/keyed-mutex.ts:36-63 | under every schedule all tasks finish within a known number of steps and the registry is empty |
| KeyedMutexRegistry.Mutex.RunExclusive | apps/obsidian-plugin/src/runtime/keyed-mutex.ts:48-54 | the object's enqueuing is the machine's |
| KeyedMutexRegistry.Mutex.OnSettled | apps/obsidian-plugin/src/runtime/keyed-mutex.ts:57-61 | the object's dropping is the machine's |
| PluginData.ApplyChanges | apps/obsidian-plugin/src/runtime/plugin-data-mutex.ts:108-119 | the key loop computes the merge of the changed keys |
| PluginData.MergedAt | apps/obsidian-plugin/src/runtime/plugin-data-mutex.ts:90-119 | a save writes the keys its port changed and leaves every other key as the disk has it |
| PluginData.CacheIsDisk | apps/obsidian-plugin/src/runtime/plugin-data-mutex.ts:26-32 | in every run, between operations a set cache equals the disk |
| PluginData.DiskIsReplay | apps/obsidian-plugin/src/runtime/plugin-data-mutex.ts:39-82 | in every run, the disk is the successful updates applied one after another |
| PluginData.SavedKeySurvives | apps/obsidian-plugin/src/runtime/plugin-data-mutex.ts:97-122 | in every run, a saved key stays until an update that touches that key |
| PluginData.LogIsCalled | apps/obsidian-plugin/src/runtime/plugin-data-mutex.ts:50-122 | in every run, every successful update was called for in that run |
| PluginData.AllWritersSurvive | apps/obsidian-plugin/src/runtime/plugin-data-mutex.ts:85-122 | in every run of port saves that change different keys, every changed key is on disk as one of the run's calls saved it |
| PluginData.LoadThenSave | apps/obsidian-plugin/src/runtime/plugin-data-mutex.ts:97-122 | in every run, after a port's load and its next save every key of what it saved is on disk, and every other key as it was |
| PluginData.LoadShowsDisk | apps/obsidian-plugin/src/runtime/plugin-data-mutex.ts:102-105 | a load shows its port the disk, and nothing else changes what it loaded |
| PluginData.UpdateCompletes | apps/obsidian-plugin/src/runtime/plugin-data-mutex.ts:50-58 | an undisturbed update is written and cached |
| PluginData.InvalidateRereads | apps/obsidian-plugin/src/runtime/plugin-data-mutex.ts:60-71 | after an invalidation the next operation works on what the file holds by then |
| PluginData.SaveNeverDeletes | apps/obsidian-plugin/src/runtime/plugin-data-mutex.ts:109-118 | a key a port leaves out of what it saves stays on disk |
| PluginDataStore.PluginDataMutex.Update | apps/obsidian-plugin/src/runtime/plugin-data-mutex.ts:50-58 | the mutator is applied to exactly what is on disk, or the disk is unchanged; exactly when it fails, a throwing mutator included |
| PluginDataStore.SerializedDataPort.Load | apps/obsidian-plugin/src/runtime/plugin-data-mutex.ts:102-105 | returns and remembers exactly what is on disk; when it fails |
| PluginDataStore.SerializedDataPort.Save | apps/obsidian-plugin/src/runtime/plugin-data-mutex.ts:106-120 | exactly the keys that are new or other than this port loaded are written; and when it fails |
| Base64.DigitTable | packages/protocol/src/base64.ts:19-19 | the alphabet of section 4 of RFC 4648 |
| Base64.SameNumber | packages/protocol/src/base64.ts:19-19 | four sextets are the three bytes' bits, most significant first |
| Base64.CanonicalIsGrammar | packages/protocol/src/revision-schema.ts:137-163 | the linear scan accepts exactly quartets of digits with one padded quartet at the end |
| Base64.IsCanonicalBase64 | packages/protocol/src/revision-schema.ts:145-163 | the index loop decides that language |
| Base64.BytesToBase64 | packages/protocol/src/base64.ts:12-20 | encoding in slices of any width is the encoding, and canonical |
| Base64.EncodeRoundTrip | packages/protocol/src/base64.ts:12-38 | decoding an encoding gives the bytes back |
| Base64.SlicedCanonical | packages/protocol/src/base64.ts:26-38 | slices of any multiple of four of canonical text decode to the whole decoding, as long as the computed buffer |
| Base64.Base64ToBytes | packages/protocol/src/base64.ts:26-38 | fails exactly if a slice is refused, else the buffer holds the slices' bytes as far as they fit; on canonical text as many are written as the buffer holds, and they are the decoding |
| Base64.DecodeRoundTripIff | packages/protocol/src/revision-schema.ts:137-163 | canonical text is its bytes' encoding exactly if its last digit drops no set bit |
| Base64.CanonicalNotEncoded | packages/protocol/src/revision-schema.ts:145-163 | the check accepts text that no bytes encode to |

## Left out

- Merging with `adjacencyLines` other than 1 (packages/sync-core/src/diff3.ts:248-257): no caller sets it, and from 2 on a region can hold a line no hunk claims, on which lines 375-385 read a missing hunk.
- SHA-256 is taken as injective and a blob's size as fixed by its hash; SQLite transactions are atomic; JSON, zod and NFC are outside the model.
- Header fields that a commit stores without reading them (format version, encoding, semantics) are not modelled.
- TokenRuns.BurnedIff: a 401 comes only from the rotation transaction; a route that answers 401 for another failure (apps/server/src/auth/onboarding-routes.ts:306-310) makes the client drop its record early and is not modelled, nor is the headless agent, which does not store the record durably.
- The access token's own cache and expiry (apps/obsidian-plugin/src/runtime/access-token.ts:106-114) and a client without any stored token.
- The online database backup is taken as a snapshot of one moment (apps/server/src/backup-restore.ts:234).
- PluginData.DiskIsReplay: no other program writes the file, and a save that fails leaves it as it was.
- KeyedLocking.NeverStuck: a task's body ends by itself; a body that takes further locks is not modelled.
- The blob store's per-hash write queue (apps/server/src/blob-store.ts:187-198) is not modelled: the theorems hold with any number of writers of one hash at once.
- Process crashes only: lost directory entries after a power cut are not modelled.
- BackupRestore.FinishedBackupRestores: the manifest and the database snapshot are the ones the backup wrote; the code does not compare the two, so a manifest that lost entries passes.
- Reading and copying a backup's files, and the shape of the manifest's JSON; the fresh epoch is a parameter.
- The order of the manifest, hard links to an earlier artifact (same bytes, apps/server/src/backup-restore.ts:196-218) and the staging rename of a scheduled backup.
- The server's other rows (accounts, devices, invitations) appear only as what a commit reads of them.
- User interface, HTTP routes, transport, command line, timers and logging: no property as hard as those above.
- Head reconciliation, outbox, vault application and agents: they rest on the merge and the store modelled here and would mostly add plumbing.
