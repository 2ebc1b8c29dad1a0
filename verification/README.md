# Immune-System core and litestream donor: a verified model

This project models, in Dafny, the two parts of the repository whose correctness shows only over whole runs.

**Replication of a SQLite database** (the vendored Go sources). A replica holds transaction files. Each covers a range of
transaction ids, at levels 0 to 8, with full snapshots at level 9. The model has

- the restore planner, which merges nine listings and picks files greedily (`RestorePlan`),
- what files mean: a history of databases, files faithful to it, merging, applying and decoding (`Replay`),
- how files are written from the log and the database file (`LtxWriter`),
- the store and every run of uploads, snapshots, compactions and retention (`ReplicaStore`, `Compactor`),
  what retention deletes file by file (`Retention`), and when levels stay free of gaps (`Consistency`),
- follow mode, which patches a live file and may be torn or restarted at any point (`Follow`),
- the log checksum (`WalChecksum`).

**The durable core** (Python): the lease-based task queue (`TaskQueue`), missions and their proof gate (`Mission`), the
hash-chained ledger and its seals (`AuditLedger`), the learning lifecycle (`Learning`), signed ingress (`Ingress`) and the
metric anomaly detector (`Anomaly`).

Objects that the sources update in place are classes; each of their methods is tied to a step on values, and the theorems
about runs are about those steps. `Wrappers`, `Ltx` and `Sorting` hold shared definitions. `dafny verify dfyconfig.toml`
checks everything. Nothing was executed: all statements are proved of the model.

Six promises one would expect are false of the code. Each has a counterexample and the condition under which it holds:

- Attempts may exceed the limit (`TaskQueue.AttemptsCanExceedLimit`). A task is within it exactly when no claim took it with
  its attempts used up (`TaskQueue.WithinLimitIff`), and `TaskQueue.ClaimOvertakesIff` says before a claim when that can happen.
- The configured bounds do not prevent a replay (`Ingress.BoundsDoNotCloseTheWindow`); a nonce life over twice the skew does,
  and nothing less (`Ingress.ReplayFreeIff`).
- An older version may be promoted while a newer one is suspended (`Learning.OlderVersionCanFollow`). The promoted record is
  the latest ever in force exactly when no later one stood suspended or retired before the call
  (`Learning.PromotionGoesBackIff`).
- A far value may go unflagged (`Anomaly.EqualSamplesCanBeMasked`). It cannot when no majority of samples is equal, and
  `Anomaly.FarValuesAreFlaggedIff` gives the exact condition.

- Level consistency fails from level 2 up: for every history of three transactions or more there is a run that leaves a gap
  at level 2 (`Consistency.Level2CanGetAGap`). A compaction keeps its level consistent exactly when what it reads starts right
  after the level's end (`Consistency.CompactionStaysConsistentIff`).
- A ledger that only grew may fail its latest seal: a seal of the empty ledger stops matching once anything is recorded.
  `AuditLedger.HonestLedgerMatches` says that this is the only case.

Assumptions are explicit:

- The planner's listings are sorted by first and last id, as the clients promise.
- Snapshots start at transaction 1, as the code always writes them (`FullSnapshots`). `RestorePlan.PartialSnapshotsLosePlans`
  shows what fails otherwise.
- The external file merge is last-write-wins, cut to the final size, and refuses files with a gap between them. The
  refusal is documented in `donors/collected/litestream/src/skills/litestream/SKILL.md:278`, and
  `Replay.MergeAcrossGapIsUnfaithful` shows it is needed. Levels 1 and 2 never meet a refusal (`ReplicaStore.Level1Source`, `Consistency.Level2NeverRefuses`).
- Snapshots are written at the database's position, which does not go back; uploads are the next transaction.
- Hashes and signatures are arbitrary functions. Ledger theorems except a collision among the rows they speak of;
  mission runs assume no forged signature (`NotForged`).
- Databases in follow mode are compared but for the bytes of page 1 that the code rewrites.

## Model

| member | source | states |
|---|---|---|
| RestorePlan.CalcRestorePlan | donors/collected/litestream/src/replica.go:1514-1630 | For every listing and target, a plan is returned exactly when some gap-free chain of eligible files completes the restore from the chosen snapshot; the plan is then the chosen snapshot followed by the best continuation, every file of it ends by the requested id and was made before the requested time. Asking for both an id and a time is refused. A gap error is given only for the latest state, with a file that starts beyond what the best chain reaches; "not available" for the latest state means there is no snapshot and nothing starts at transaction 1. |
| RestorePlan.PlanStartsAt | donors/collected/litestream/src/replica.go:1524-1546 | A plan starts with the last listed snapshot that ends by the requested id and was made before the requested time, if there is one; all its other files are increments. |
| RestorePlan.NothingWithinGoesFurther | donors/collected/litestream/src/replica.go:1514-1609 | From nothing or from any snapshot within the requested id and time, no gap-free chain of stored files within them ends beyond the plan. |
| RestorePlan.TimeRestoreSucceedsIff | donors/collected/litestream/src/replica.go:1524-1627 | A restore up to a time is possible if and only if a snapshot was made before it, or an increment that starts at transaction 1 was. |
| RestorePlan.PickIsPreferred | donors/collected/litestream/src/replica.go:1699-1710 | Of all stored files that could come next within the limits, the pick ends last; among equals it starts first, then has the highest level, then is the oldest. |
| RestorePlan.PlanIsOptimal | donors/collected/litestream/src/replica.go:1576-1609 | No gap-free chain of eligible files from the chosen snapshot goes further than the plan, and none reaches the same id with fewer files. |
| RestorePlan.ChosenStartLosesNothing | donors/collected/litestream/src/replica.go:1524-1546 | For a target id, the restore is possible from zero or from any eligible snapshot exactly when it is possible from the snapshot the planner chooses, snapshots being full. |
| RestorePlan.PartialSnapshotsLosePlans | donors/collected/litestream/src/replica.go:1524-1546 | Counterexample without that condition: with a snapshot that does not start at 1, taking the last listed one loses a plan. |
| RestorePlan.ChosenSnapshotIsLargest | donors/collected/litestream/src/replica.go:1524-1546 | The last eligible snapshot in the listing ends at or after every other eligible one. |
| RestorePlan.SelectSnapshot | donors/collected/litestream/src/replica.go:1527-1546 | The scan over the snapshot listing leaves the last eligible snapshot, or nothing. |
| RestorePlan.OpenCursors | donors/collected/litestream/src/replica.go:1557-1567 | One cursor per level, highest level first, each over that level's whole listing. |
| RestorePlan.PickFiles | donors/collected/litestream/src/replica.go:1576-1609 | The loop terminates (unread files, buffered files and live candidates go down), every pick is the best eligible file that could come next, and when it stops no eligible file goes on. |
| RestorePlan.TakeCandidate | donors/collected/litestream/src/replica.go:1593-1597 | The taken file is eligible and starts by the next id; all cursors stay accounted for after moving to its end, also the ones holding a stale candidate. |
| RestorePlan.FindNext | donors/collected/litestream/src/replica.go:1577-1592 | The chosen candidate is beaten by no eligible file of any level that could come next; if there is none, no eligible file ends beyond what is held. |
| RestorePlan.FindGap | donors/collected/litestream/src/replica.go:1611-1620 | For the latest state: either a stored file that starts beyond a gap, or every stored file ends by what is held, so every cursor is exhausted. |
| RestorePlan.RestoreLevelCursor.Refresh | donors/collected/litestream/src/replica.go:1643-1681 | Afterwards every file of the level that starts by the next id has been weighed, and one candidate per cursor stands for all of them; the measure does not rise. |
| RestorePlan.RestoreLevelCursor.EnsureCurrent | donors/collected/litestream/src/replica.go:1683-1697 | Buffers the next file without losing or weighing any; only the end of the listing leaves the buffer empty. |
| RestorePlan.RestoreLevelCursor.Take | donors/collected/litestream/src/replica.go:1593-1597 | The candidate leaves the cursor, and what it stood for stays covered once its end is held. |
| RestorePlan.GreedyStaysAhead | donors/collected/litestream/src/replica.go:1576-1609 | After any number of files, the greedy picks end at or after every gap-free chain of as many files. |
| RestorePlan.GreedyIsFewest | donors/collected/litestream/src/replica.go:1699-1710 | A gap-free chain that reaches as far as the greedy picks has at least as many files. |
| Replay.RestoreEqualsReplay | donors/collected/litestream/src/replica.go:702-753 | Merging and decoding a plan, with overlapping ranges and databases that shrink and grow again, gives the database that replaying every raw transaction up to the plan's last id gives. |
| Replay.PlanDecodes | donors/collected/litestream/src/replica.go:702-753 | The merged plan decodes to the database as it was at the plan's last id. |
| Replay.PlanIsContiguous | donors/collected/litestream/src/replica.go:1576-1609 | A plan is not empty, its files move strictly forward, and none starts after a gap, so the merge accepts it. |
| Replay.MergeFaithful | donors/collected/litestream/src/compactor.go:128-169 | The merge of contiguous faithful files (last write per page, cut to the final size) is a faithful file of the joint range. |
| Replay.MergeAcrossGapIsUnfaithful | donors/collected/litestream/src/compactor.go:128-169 | Merging across a gap can give a file that is wrong for its range, which is why it must be refused. |
| Replay.ApplyFaithful | donors/collected/litestream/src/replica.go:946-1000 | Applied to the state at any id from just before its range to its end, a faithful file gives the state at its end. |
| Replay.DecodeFaithful | donors/collected/litestream/src/replica.go:702-753 | A faithful file that starts at transaction 1 holds a whole database: the state at its end. |
| LtxWriter.WriteLtxFromWal | donors/collected/litestream/src/db.go:2335-2392 | The file has exactly the logged pages and the stored pages the database grew by; a logged page has the logged content and any other the content of the database file; an error names a page the database grew by that is in neither. |
| LtxWriter.WriteLtxFromDb | donors/collected/litestream/src/db.go:2288-2333 | The file has every page up to the size but the lock page; a logged page has the logged content and any other the content of the database file; an error names a page that is in neither place. |
| LtxWriter.SelectPages | donors/collected/litestream/src/db.go:2336-2361 | The page list is strictly ascending, as the encoder demands, and lists exactly the wanted pages. |
| LtxWriter.WalFileIsFaithful | donors/collected/litestream/src/db.go:2335-2392 | What is written from the log at a transaction is faithful to it, and every wanted page can be read. |
| LtxWriter.FullFileIsFaithful | donors/collected/litestream/src/db.go:2288-2333 | A full file is faithful for every range that ends at its state, so a snapshot from 1 is. |
| LtxWriter.GrowthPagesAreNecessary | donors/collected/litestream/src/db.go:2341-2352 | Every faithful file has each page the database grew by within its range: leaving out growth pages cannot be right. |
| ReplicaStore.RestoreLatest | donors/collected/litestream/src/replica.go:1514-1630 | In every state of every run of uploads, snapshots, compactions and retention that holds any file, the planner succeeds for the latest state and the restored database is the state at the highest id stored anywhere. |
| ReplicaStore.RunIsGood | donors/collected/litestream/src/compactor.go:104-426 | In every state of every run: levels are ordered, level 0 and level 1 have no gaps, level 0 starts by one past level 1 and level 1 by one past the newest snapshot, every file is faithful, and the cache is right. |
| ReplicaStore.RunNeverLoses | donors/collected/litestream/src/compactor.go:291-398 | Over any run the highest stored id never falls, level 0 never becomes empty again, levels 0 and 1 stay consecutive, and the cached newest file has the id a full scan finds. |
| ReplicaStore.LatestIsRestorable | donors/collected/litestream/src/replica.go:1611-1627 | In a store of that shape with any file, some chain completes a restore of the latest state. |
| ReplicaStore.LatestPlanEndsAtTop | donors/collected/litestream/src/replica.go:1611-1620 | Any plan for the latest state ends at the highest id stored at any level. |
| ReplicaStore.UploadKeeps | donors/collected/litestream/src/replica.go:206-228 | Uploading the next single-transaction file keeps the store invariant. |
| ReplicaStore.SnapshotKeeps | donors/collected/litestream/src/db.go:2933-2950 | Writing a snapshot from transaction 1 keeps the store invariant. |
| ReplicaStore.CompactKeeps | donors/collected/litestream/src/compactor.go:104-192 | Compaction into any level keeps the store invariant, also when it is refused or finds nothing. |
| ReplicaStore.Level0RetentionKeeps | donors/collected/litestream/src/compactor.go:342-426 | Level-0 retention, whatever the threshold, keeps the store invariant: all past level 1's maximum stays. |
| ReplicaStore.SnapshotRetentionKeeps | donors/collected/litestream/src/compactor.go:238-289 | Snapshot retention keeps the store invariant and the newest snapshot. |
| ReplicaStore.CascadedRetentionKeeps | donors/collected/litestream/src/store.go:833-855 | Snapshot retention followed by id retention of the levels above 0 with either id the two retention routines can return keeps the store invariant. |
| ReplicaStore.BelowIdIsFront | donors/collected/litestream/src/compactor.go:293-337 | Id retention removes only a front of the level, all of it below the id, and never the last file. |
| ReplicaStore.ExpiredIsFront | donors/collected/litestream/src/compactor.go:342-398 | Level-0 retention removes only a front, never the last file, and nothing past level 1's maximum. |
| ReplicaStore.OldSnapshotsKeepNewest | donors/collected/litestream/src/compactor.go:238-279 | Whatever the time, the snapshots that stay have the same newest id and are none only if there were none. |
| ReplicaStore.Level1Source | donors/collected/litestream/src/compactor.go:104-127 | What level 1 is compacted from has no gap and starts right after level 1's maximum, so level 1 never refuses and never gets a gap. |
| Retention.SnapshotStaysIff | donors/collected/litestream/src/compactor.go:253-270 | A snapshot stays if and only if it was made at the time or later, or is the last one listed. |
| Retention.StaysByIdIff | donors/collected/litestream/src/compactor.go:293-337 | A file stays under id retention if and only if it ends at the id or later, or is the last one listed. |
| Retention.Level0StaysIff | donors/collected/litestream/src/compactor.go:372-398 | A level-0 file goes if and only if level 1 reaches its end, neither it nor any file before it has a known time after the threshold, and it is not the last one listed. |
| Retention.LeastRecentIs | donors/collected/litestream/src/compactor.go:253-265 | The id the compactor returns is the end of some snapshot made at the time or later, no such snapshot has a smaller one, and it is zero only if there is none. |
| Retention.PriorIs | donors/collected/litestream/src/db.go:2984-2992 | The id the database returns is the end of the snapshot just before the first that stays, zero when the first listed stays. |
| Retention.CompactionCatchesUp | donors/collected/litestream/src/compactor.go:104-192 | A compaction that succeeds starts at the first file of the level below beyond its level's end, and then the two levels end alike. |
| Retention.NothingToCompactIff | donors/collected/litestream/src/compactor.go:128-150 | There is nothing to compact if and only if no file of the level below starts beyond the level's end. |
| Retention.RefusedIff | donors/collected/litestream/src/compactor.go:128-169 | A merge is refused if and only if two neighbouring files beyond the level's end leave a gap. |
| Consistency.CompactionStaysConsistentIff | donors/collected/litestream/src/compactor.go:104-233 | For every compaction that succeeds into a consistent level: the level stays consistent if and only if it was empty or what the compaction reads starts right after the level's end, which a caller can test beforehand. |
| Consistency.Level2CanGetAGap | donors/collected/litestream/src/compactor.go:197-337 | For every history of three transactions or more, a run of uploads, compactions, a snapshot and retention after which level 2 has a gap. |
| Consistency.Level2NeverRefuses | donors/collected/litestream/src/compactor.go:104-169 | In every reachable store, what level 2 would read from level 1 has no gap, so its merge is never refused. |
| Compactor.Compactor.MaxLtxFileInfo | donors/collected/litestream/src/compactor.go:74-100 | For any level the newest file comes from the cache when it is there, else from a scan that fills the cache if it found something. |
| Compactor.Compactor.Compact | donors/collected/litestream/src/compactor.go:104-192 | The stored file, the error and the new state are those of the compaction step the run theorems are about; an error changes no file. |
| Compactor.Compactor.VerifyLevelConsistency | donors/collected/litestream/src/compactor.go:197-233 | Succeeds exactly when each file of the level starts one past the end of the one before. |
| Compactor.Compactor.EnforceSnapshotRetention | donors/collected/litestream/src/compactor.go:238-289 | With retention on, a snapshot is gone afterwards exactly when it was made before the time and is not the last one listed; the least id among recent ones is returned; with retention off nothing is deleted. |
| Compactor.Compactor.EnforceDbSnapshotRetention | donors/collected/litestream/src/db.go:2953-3011 | Same deletions; returns the end of the snapshot just before the first that stays. |
| Compactor.Compactor.EnforceRetentionByTxid | donors/collected/litestream/src/compactor.go:293-337 | With retention on, a file is gone afterwards exactly when it ends below the id and is not the last one listed. |
| Compactor.Compactor.EnforceL0Retention | donors/collected/litestream/src/compactor.go:342-426 | Performs the level-0 retention step of the run theorems; which files are gone afterwards is stated file by file; a retention of zero or less does nothing. |
| Compactor.Compactor.EnforceStoreRetention | donors/collected/litestream/src/store.go:833-855 | Snapshot retention and then id retention at every level above 0 with the id it returned, as one step of the run theorems. |
| Compactor.Compactor.EnforceLevelsByTxid | donors/collected/litestream/src/store.go:843-852 | Every level above 0, and no other, loses what retention by id takes from it. |
| Compactor.RangeOf | donors/collected/litestream/src/compactor.go:128-150 | The loop's minimum and maximum are the least start and the greatest end of the source files. |
| Compactor.MergeSource | donors/collected/litestream/src/compactor.go:128-169 | One file over the range read, refused for a gap and absent when nothing was read; the range found by the scan is that of the merge. |
| Follow.Follower.Poll | donors/collected/litestream/src/replica.go:804-860 | Without a fault a poll succeeds, and it moves exactly when some stored file follows the saved id, along a gap-free chain of stored files. On a replica whose level 0 or level 1 still starts by the next id it ends at the top of level 0. A failed poll leaves the saved id and a recoverable file; nothing beyond the listed ids is ever written. |
| Follow.Follower.ApplyNewLtxFiles | donors/collected/litestream/src/replica.go:865-936 | Without an error, progress is made exactly when a file follows: at level 0 at the next id, or at a higher level; on a dense replica that covers the id it goes to the top; every interruption leaves the file recoverable. |
| Follow.Follower.ApplyLevel0 | donors/collected/litestream/src/replica.go:883-918 | The level-0 part of a poll: without an error it moves exactly when a file follows, and on a dense replica that covers the id it goes to the top. |
| Follow.Follower.FillFollowGap | donors/collected/litestream/src/replica.go:1004-1064 | Without an error, the gap search advances exactly when some higher level has a file that starts by the next id and ends after it, and it leaves level 1 only when the gap is bridged or nothing there follows. |
| Follow.Follower.ApplyLtxFile | donors/collected/litestream/src/replica.go:946-1000 | Pages are overwritten one by one and the file is cut to size; a fault may leave any subset of pages written, and without one all of them and the size are. |
| Follow.Follower.Advance | donors/collected/litestream/src/replica.go:946-1000 | A finished apply moves the file to the end of the applied range; a torn one leaves it recoverable from where it was. |
| Follow.FollowRun | donors/collected/litestream/src/replica.go:804-860 | After any number of polls that failed anywhere, one poll without a fault of a replica that still covers the id at the start leaves the saved id at the top and the file in exactly that state (but for the rewritten header bytes). |
| Follow.Settle | donors/collected/litestream/src/replica.go:804-936 | Polling one dense replica without a fault until it no longer moves ends at the furthest id that any gap-free chain of the stored files reaches from the start, and the file is that state once that is past everything ever written to it. |
| Follow.NothingFurther | donors/collected/litestream/src/replica.go:865-936 | Where a poll can go no further, no gap-free chain of the stored files from an earlier id would get further either. |
| Follow.StoreIsDense | donors/collected/litestream/src/compactor.go:104-426 | Every reachable store with a level-0 file has the listings the catch-up results ask for. |
| Follow.TornKeeps | donors/collected/litestream/src/replica.go:946-1000 | A partial apply keeps every page that is stable up to the highest id touched right. |
| Follow.FinishedAdvances | donors/collected/litestream/src/replica.go:946-1000 | A full apply and resize establishes the same at the end of the file's range. |
| Follow.Patched | donors/collected/litestream/src/replica.go:974-977 | The page written equals the stored one but for the rewritten bytes of page 1, which say that no log is in use and carry a new schema counter. |
| WalChecksum.Checksum | donors/collected/litestream/src/litestream.go:110-120 | The loop over 8-byte units computes the fold of the SQLite checksum step, modulo 2^32. |
| WalChecksum.ChecksumIsWeighted | donors/collected/litestream/src/litestream.go:110-120 | The closed form of the SQLite database file format, section 4.2: for every buffer and starting sums, both sums are the words and the starting sums weighted by Fibonacci numbers, heaviest first, modulo 2^32. |
| WalChecksum.WordBytes | donors/collected/litestream/src/litestream.go:116-117 | The first byte of a word is its least significant one in little-endian order, the last byte in big-endian order. |
| WalChecksum.ChecksumResumes | donors/collected/litestream/src/litestream.go:110-120 | Over any 8-byte-aligned split, the sums of the front carried into the rest give the sums of the whole. |
| WalChecksum.ChangeWithinAUnitIsSeen | donors/collected/litestream/src/litestream.go:110-120 | For buffers of any length and both byte orders, a change confined to one 8-byte unit changes the result. |
| WalChecksum.StepIsInjectiveInSums | donors/collected/litestream/src/litestream.go:115-118 | For fixed data the step maps different sums to different sums. |
| WalChecksum.StepIsInjectiveInData | donors/collected/litestream/src/litestream.go:115-118 | From fixed sums, different data give different sums. |
| TaskQueue.AttemptsAreConserved | immune_core/storage.py:121-337 | For every task in every run: attempts = failures + lease recoveries + one if running, completed or blocked; failures stay within the limit, and attempts within the limit plus recoveries. |
| TaskQueue.AttemptsCanExceedLimit | immune_core/storage.py:190-211 | A run in which attempts exceed the limit, since recovery puts a task back without looking at it. |
| TaskQueue.ClaimOvertakesIff | immune_core/storage.py:190-274 | In a reachable state a claim can push a row past its limit if and only if the row has used up its attempts and is a best one to take once expired leases are recovered, which a caller can test beforehand; such a row was put back by a recovery, or has an expired lease that this claim recovers. |
| TaskQueue.WithinLimitIff | immune_core/storage.py:121-337 | In every run a task's attempts are within its limit if and only if no claim so far took it with its attempts used up. |
| TaskQueue.OnlyClaimsAddAttempts | immune_core/storage.py:121-337 | No operation but a claim changes a task's attempts or its limit. |
| TaskQueue.ClaimIsFair | immune_core/storage.py:213-274 | A claimed task was queued or had an expired lease, its time had come and it is of the mission asked for; no other such task has a higher priority, or the same priority and an earlier creation. |
| TaskQueue.NotClaimedBeforeDelay | immune_core/storage.py:302-337 | In every run, a task that failed with a delay is not claimed again before the delay is over. |
| TaskQueue.FailureDoes | immune_core/storage.py:302-337 | A failure by the holder puts the task off by its delay, never into the past, queues it again while attempts are left, else fails it, and keeps the error. |
| TaskQueue.SubmitsIff | immune_core/storage.py:121-180 | A submission adds a task if and only if tries are allowed, key and id are new and the mission is known; a known key gives back its task. |
| TaskQueue.OnlySubmissionsAddRows | immune_core/storage.py:121-180 | Only a submission adds a task, and the new one is as submitted: queued, untried, due at once. |
| TaskQueue.ClaimsAreBounded | immune_core/storage.py:213-274 | In every run, claims of all tasks together are at most the sum of their limits plus the recoveries; so with no expiry a queue drains within the sum of the limits. |
| TaskQueue.ClaimedAgainOnlyAfterRelease | immune_core/storage.py:190-337 | Between two claims of a task there is a failure by its worker, or a recovery at or past the first claim's deadline. |
| TaskQueue.FinishMatchesLatestClaim | immune_core/storage.py:282-300 | Whoever may complete, block or fail a task is the worker of the task's latest log entry, a claim: nothing happened to the task since. |
| TaskQueue.FinishedIsFinal | immune_core/storage.py:276-337 | After a completed, blocked or failed entry the log has no further entry of that task. |
| TaskQueue.RunKeeps | immune_core/storage.py:121-337 | In every reachable state: ids and keys are unique, running tasks and only they have an owner and a deadline, each task's log is a connected path that ends in its state, and a queued task with no attempts left was last put back by a recovery. |
| TaskQueue.SubmitIsIdempotent | immune_core/storage.py:121-180 | Submitting again under the same key changes nothing and returns the first task's id. |
| TaskQueue.StateStore.SubmitTask | immune_core/storage.py:121-180 | Performs the submission step of the runs; the returned id is a stored task with that key. |
| TaskQueue.StateStore.RecoverExpiredLeases | immune_core/storage.py:190-211 | Afterwards no lease is expired, one entry was logged per recovered task, and the count returned is their number. |
| TaskQueue.StateStore.ClaimNext | immune_core/storage.py:213-274 | After recovery, the leased task is due and no due task has a higher priority, or the same priority and an earlier creation; no lease is given exactly when nothing is due, and then only the recovery happened. |
| TaskQueue.StateStore.FinishRunning | immune_core/storage.py:276-300 | Succeeds exactly for the worker that holds the running task, expired or not; otherwise nothing changes. |
| TaskQueue.StateStore.FailTask | immune_core/storage.py:302-337 | Succeeds exactly for the holder; the task is queued again while attempts are below the limit, else failed, and may not run before the delay is over. |
| TaskQueue.SelectBest | immune_core/storage.py:227-246 | The row found is due and first by priority and then creation; none is found exactly when none is due. |
| Mission.CompletedMissionsAreProven | immune_core/engine.py:11-62 | In every run a completed mission came from VALIDATING, entered AUTHORIZED exactly once, has a proof issued for it with all nine gates passed, and its log is a path of the transition graph. |
| Mission.CompletedMissionsPassedAllNine | immune_core/acceptance.py:12-22 | In every run a completed mission was evaluated with each of the nine named gates present and true. |
| Mission.ComesFrom | immune_core/engine.py:11-24 | The transition graph from the other end: for each state, exactly where a mission in it can have come from. |
| Mission.NoDeadEnds | immune_core/engine.py:11-24 | From every state but the two ends a mission can still complete, and can be cancelled within two moves. |
| Mission.VersionCountsEntries | immune_core/storage.py:85-119 | In every run a mission's version is the number of its log entries. |
| Mission.EndedIsFinal | immune_core/engine.py:11-24 | A completed or cancelled mission never changes again, in any run. |
| Mission.VerifiesOnlyItsOwn | immune_core/acceptance.py:59-95 | An issued proof verifies for a mission exactly when it was issued for that mission with all nine gates passed. |
| Mission.PayloadBindsGates | immune_core/acceptance.py:43-85 | Two evaluations with one signed payload are of one scope and agree on every one of the nine gates. |
| Mission.VerifiedIsProven | immune_core/acceptance.py:87-95 | With no forged signature, a proof that verifies was issued by an evaluation of that mission that passed every gate. |
| Mission.DurableLoopEngine.TransitionMission | immune_core/engine.py:39-62 | The new state and each error (unknown mission, not a successor, no valid proof) are those of the mission step; an error changes nothing. |
| Mission.DurableLoopEngine.CreateMission | immune_core/engine.py:35-37 | Succeeds exactly for a new id and logs its first state. |
| Mission.DurableLoopEngine.EvaluateGates | immune_core/acceptance.py:59-85 | The proof says proven exactly when every one of the nine gates is true. |
| AuditLedger.SameHeadSameHistory | immune_core/audit.py:26-94 | Two verifying chains with the same head hold the same events, unless a row of one and a row of the other record different events under one hash, or some row's event hashes to the zero hash. |
| AuditLedger.VerifyChain | immune_core/audit.py:75-94 | Accepts exactly the intact chains, and otherwise returns the number of the first broken row. |
| AuditLedger.Ledger.Append | immune_core/audit.py:26-73 | Adds one row that links to the head and keeps the chain intact; a repeated id or hash adds nothing. |
| AuditLedger.AuditSealVault.SealLedger | immune_vault/audit_seal.py:30-44 | Appends one signed record of the ledger's last row and keeps the earlier ones. |
| AuditLedger.AuditSealVault.VerifyAll | immune_vault/audit_seal.py:46-62 | Accepts exactly files in which each signature is right and neither generation nor sequence goes back. |
| AuditLedger.SealsRise | immune_vault/audit_seal.py:46-62 | Seals are in order if and only if all are signed, generations are positive and strictly rise, and sequence numbers never fall. |
| AuditLedger.AuditSealVault.VerifyAgainstLedger | immune_vault/audit_seal.py:63-74 | Accepts exactly when the seal file is in order and the ledger confirms its latest seal; otherwise each outcome has its own condition: divergence from a seal of something, a false answer for a seal of nothing, a missing file, an empty file. |
| AuditLedger.SealPinsHistory | immune_vault/audit_seal.py:63-74 | A verifying ledger that matches a seal has the sealed history as a prefix of its events, unless one of its rows collides with a sealed row, or some row's event hashes to the zero hash. |
| AuditLedger.HonestLedgerMatches | immune_vault/audit_seal.py:63-74 | A ledger that only grew since a seal matches and confirms it exactly when the seal was not taken of an empty ledger, or the ledger is still empty. |
| Learning.StateIsEarned | immune_core/learning.py:294-769 | In every reachable state: confidence is (s+1)/(s+f+2), f is at most 2, f = 2 only when retired, and promoted or superseded records have no failure and, for global scope, two successes on two systems. |
| Learning.PromotesIff | immune_core/learning.py:640-732 | In every reachable state a promotion succeeds if and only if the knowledge is quarantined, the latest review on file clears it and is not by the approver, it has no failure and enough successes for its scope, its skill is eligible, and no promoted record of its lineage has as high a version or a higher confidence. The confidence thresholds never decide. |
| Learning.PromotionDoes | immune_core/learning.py:702-716 | A promotion puts the record in force from that time in place of the prior, and changes no other record. |
| Learning.ReproducesIff | immune_core/learning.py:456-500 | A success counts if and only if the knowledge is quarantined or promoted, the remediation is the same and the trial is not on record; the state stays. |
| Learning.RegressesIff | immune_core/learning.py:502-575 | A failure counts if and only if the knowledge has not ended, the remediation is the same and the trial is not on record; it retires knowledge that failed before, and else suspends it if it was in force. |
| Learning.ReviewDoes | immune_core/learning.py:577-638 | In every reachable state a review of bad evidence leaves the knowledge out of force, one of sound evidence leaves its state, and the verdict filed says which. |
| Learning.TrialsCountOnce | immune_core/learning.py:311-346 | In every run no two outcomes on record are of the same knowledge, correction and validation. |
| Learning.RetiresIff | immune_core/learning.py:734-769 | Exactly quarantined, promoted and suspended knowledge can be retired, and that changes nothing else. |
| Learning.InForceWasCleared | immune_core/learning.py:640-732 | In every run, each record that is or was in force was put there by a promotion, and before that someone other than the promoter had reviewed that knowledge and found its evidence sound. |
| Learning.PromotionIsReviewed | immune_core/learning.py:652-669 | Before every successful promotion someone other than the promoter reviewed that knowledge and found its evidence sound; no review of it with a later mark was filed before the promotion, and no regression of it ever took effect. |
| Learning.LatestDecides | immune_core/learning.py:652-657 | The review looked at is one of that knowledge such that none on file is later, or as late with a larger identifier. |
| Learning.RunNeverBack | immune_core/learning.py:456-769 | Retired and superseded are absorbing, and nothing that left promoted comes back, over any run. |
| Learning.VersionsAreDense | immune_core/learning.py:170-175 | Per lineage every version from 1 to the highest exists, no two records share one, and at most one record is promoted. |
| Learning.LineagesAreChained | immune_core/learning.py:685-732 | In every reachable state links lead to an older, superseded record of the lineage with no more successes, every superseded record has a successor, and no two records link to the same one. |
| Learning.AncestryFalls | immune_core/learning.py:685-732 | Down a whole chain of links the lineage stays, versions fall strictly, all are superseded, and successes never rise. |
| Learning.OlderVersionCanFollow | immune_core/learning.py:685-700 | A run after which an older version is promoted while a newer one is suspended: only a currently promoted prior is compared. |
| Learning.PromotionGoesBackIff | immune_core/learning.py:640-732 | For every reachable state and successful promotion: the version put in force is not the latest ever in force if and only if, before the call, a later version that was in force stands suspended or retired. |
| Learning.ConfidenceOrdersSuccesses | immune_core/learning.py:294-309 | Between records with no failure, no smaller confidence means no fewer successes. |
| Learning.ControlledLearningEngine.NextVersion | immune_core/learning.py:170-175 | The version is one past the highest of the lineage. |
| Learning.ControlledLearningEngine.RecomputeConfidence | immune_core/learning.py:294-309 | The loop counts successes, failures and distinct systems, and stores the confidence they give. |
| Learning.ControlledLearningEngine.CreateCandidate | immune_core/learning.py:348-454 | A quarantined record with the next version and its first success; no other record changes. |
| Learning.ControlledLearningEngine.AddReproduction | immune_core/learning.py:456-500 | Adds the success or gives the error of the step; an error changes nothing. |
| Learning.ControlledLearningEngine.RecordRegression | immune_core/learning.py:502-575 | Adds the failure, files a regression review of that knowledge by the reviewer, suspends or retires as the step says; an error changes nothing. |
| Learning.ControlledLearningEngine.ReviewKnowledge | immune_core/learning.py:577-638 | Files a review of that knowledge whose verdict follows the evidence, suspends a promoted record and retires a twice failed one on bad evidence; an error changes nothing. |
| Learning.ControlledLearningEngine.PromoteKnowledge | immune_core/learning.py:640-732 | Promotes and supersedes the promoted prior in one step; an unknown id gives its error and changes nothing; on another error outcomes and reviews stay, and records too unless a stored confidence was out of date. |
| Learning.ControlledLearningEngine.RetireKnowledge | immune_core/learning.py:734-769 | Retires the record or gives the error; an error changes nothing. |
| Ingress.AcceptedAtMostOnce | immune_gateway/ingress.py:52-85 | With a clock that never goes back and a nonce life over twice the skew, no signed message is accepted twice in any run, although expired nonces are deleted. |
| Ingress.ReplayFreeIff | immune_gateway/runtime_config.py:54-58 | A gateway with a push binding accepts no message twice in any such run if and only if the nonce life is over twice the skew. |
| Ingress.BoundsDoNotCloseTheWindow | immune_gateway/runtime_config.py:54-58 | Settings within the configured bounds under which a message can be accepted twice. |
| Ingress.DefaultsCloseTheWindow | immune_gateway/runtime_config.py:54-58 | With the skew and nonce life used where none are configured, no message is accepted twice. |
| Ingress.NonceIsRemembered | immune_gateway/ingress.py:52-62 | An accepted nonce is stored, with its own expiry, until that expiry. |
| Ingress.AcceptedIff | immune_gateway/ingress.py:52-85 | In every run of a clock that never goes back, a request is accepted if and only if its system is bound for signed push, its time is within the skew, its body within the limit, its signature right whatever its case, its nonce of 16 to 128 characters without whitespace, and no accepted request of that system and nonce has not yet expired. |
| Ingress.RefusedForCause | immune_gateway/ingress.py:64-85 | A request that is not in order changes no nonce, and each error names a test that the request fails. |
| Ingress.UpperDigest | immune_gateway/ingress.py:81-84 | A right signature is also right with any of its letters in upper case. |
| Ingress.GatewayIngress.ClaimNonce | immune_gateway/ingress.py:52-62 | A nonce of the wrong length or with whitespace changes nothing; otherwise expired nonces go, a live one is refused, and a new one is stored with its expiry. |
| Ingress.GatewayIngress.VerifySignature | immune_gateway/ingress.py:64-85 | The first failing test decides the error, and a nonce is spent only by a message that passed the tests before it. |
| Anomaly.FarValuesAreFlagged | immune_core/observability.py:295-313 | If more than half of the history lies in a band and no majority equals the median, every value at least threshold x 1.4826 x width outside the band is flagged, whatever the other samples are. |
| Anomaly.FlaggedIff | immune_core/observability.py:300-306 | When no majority equals the median, a value is flagged if and only if its distance from the median is at least threshold x 1.4826 x deviation, and the score is that distance in those units. |
| Anomaly.NearValuesAreNotFlagged | immune_core/observability.py:300-306 | If more than half of the history is at distance d or more from the median, no value closer to it than threshold x 1.4826 x d is flagged, whatever the other samples are. |
| Anomaly.EqualSamplesFlaggedIff | immune_core/observability.py:307-311 | When a majority equals the median, a value is flagged if and only if its distance exceeds a twentieth of the median, twice the spread and 1e-9. |
| Anomaly.TooFewFlagNothing | immune_core/observability.py:297-300 | With fewer samples than the minimum nothing is flagged and there is no baseline. |
| Anomaly.MedianIsMiddle | immune_core/observability.py:301-301 | The median is the midpoint of the two middle samples by rank, which are one for an odd count; ranks are said by counting samples at or below and at or above. |
| Anomaly.MedianHalves | immune_core/observability.py:301-301 | At least half of the samples are at or below the median and at least half at or above it. |
| Anomaly.MedianInBand | immune_core/observability.py:301-301 | If more than half of the history lies in a band, so does the baseline. |
| Anomaly.MadWithinWidth | immune_core/observability.py:302-303 | Then the median absolute deviation is at most the band's width. |
| Anomaly.MadAtLeast | immune_core/observability.py:302-303 | If more than half of the samples are at distance d or more from the median, the deviation is at least d. |
| Anomaly.MadIsZeroIff | immune_core/observability.py:304-304 | The deviation is zero exactly when more than half of the history equals the median, so the other branch is taken exactly then. |
| Anomaly.EqualSamplesCanBeMasked | immune_core/observability.py:307-311 | In that branch one outlier widens the tolerance, and a value far from a constant majority is not flagged. |
| Anomaly.FarValuesAreFlaggedIff | immune_core/observability.py:295-313 | For a history with a majority in a band, all values that far outside are flagged if and only if, in case a majority equals the median, the tolerance of that branch is below the distance from the baseline to the nearest such value on either side. |
| Anomaly.MetricValues | immune_core/observability.py:165-170 | The history is in order of time, as many samples of that metric and subject before the time as the limit allows, and no sample left out is later than one kept. |
| Anomaly.SelectKeeps | immune_core/observability.py:165-170 | The selection has each sample of that metric and subject before the time as often as the table, and no other. |
| Anomaly.AnomalyDetector.Observe | immune_core/observability.py:295-313 | Judges the value against the last samples before its time and then records it. |

## Left out

- RestorePlan.CalcRestorePlan: which of several files beyond gaps the gap error names, because any of them is a right answer; ids are unbounded, so 64-bit wrap-around is not modelled.
- RestorePlan.ChosenStartLosesNothing: for a target id only; for a time or the latest state the promise is relative to the chosen snapshot, as the code defines it.
- Compactor.RangeOf: states the least start only for files whose ids are positive, because the loop takes 0 for "none yet".
- TaskQueue.StateStore.ClaimNext: of rows equal in priority and creation any may be taken in the contract; the body takes the first in table order, since SQL leaves the order open.
- Anomaly.MetricValues: samples of equal time keep their insertion order, which SQL leaves open.
- Anomaly.AnomalyDetector.Observe: no samples with a minimum of zero is a failure that records nothing, as the median of nothing raises.
- Learning.ControlledLearningEngine.CreateCandidate: a fresh id is a precondition, because the code draws random ids.
- Compactor.Compactor.MaxLtxFileInfo: that the database itself puts its newest level-0 file in the cache; no step of the runs asks the cache for level 0.
- Ingress.GatewayIngress.VerifySignature: lower-casing is that of ASCII letters; computed signatures are hexadecimal, so no other letter can make one match.
- Listing, reading and writing failures of the replica client, the local-file opener of the compactor, and cancellation.
- Failures inside a poll of follow mode are modelled only as "may stop anywhere"; a single page write is atomic.
- The merge, encoder and decoder of the external ltx library beyond page contents and sizes: page checksums and headers are not part of this model.
- The tests that compare a saved id with the latest snapshot before follow mode resumes: they only refuse.
- The v0.3 restore, integrity checks after a restore, and reading and writing the saved id's file.
- The log reader, read locks, checkpoints and the monitor loops of db.go, where a transaction's logged pages come from.
- Concurrency between calls: each call is one atomic step, also where the engine reads a state before the storing transaction.
- Identity tokens, evidence and correction lookups of the learning engine are inputs; its audit events and recall queries are not modelled.
- The task wrappers of the engine, which call the queue and append an audit event, and resume.
- Text canonicalisation, encodings, cryptography and floating-point rounding (times, confidence and metrics are reals).
- Signals, spans, logs, inventory, dependency graph, policies, skills, memory, runbooks, grants, panels, servers, backups, locks and release activation: none of them touches the state modelled here.
