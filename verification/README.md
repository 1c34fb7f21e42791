# A verified model of mcp-fs storage accounting, reclamation and its agent

mcp-fs is a multi-project file store served over HTTP, with an interactive chat agent and an offline migration
tool. This project models the parts whose correctness depends on the order of checks, and proves what they keep.
Methods and classes follow the code that changes state; datatypes and step functions model what interleaves.

- `Common`, `Volume`: sequence and map helpers; the node tree of a volume, its usage, and lists of writes.
- `Safety`, `Quota`, `QuotaProtocol`: the session budget, the admission of growing writes, and admitted operations
  racing removals and renames under one project limit.
- `OrphanSweep`, `OrphanProtocol`: the sweep of unreferenced blobs run alone, and sweeps racing writers.
- `FileSweep`, `ProjectLifecycle`, `LifecycleProtocol`, `ProjectRemoval`, `PurgeCycle`: retention of files and
  projects, permanent removal with failures and retries, and the once-a-day gate.
- `Exports`, `ExportProtocol`: single-use download links, one request at a time and racing.
- `Stream`, `ToolCalls`, `Retry`: the chat stream decoder, tool call assembly, and the bounded retry loop.
- `Conversation`: the agent's history against its session file.
- `Migrate`: the batched copy of scoped rows between two deployments.

Store calls that the code logs and survives, or returns from, take their failures from parameters (`Faults`, `Fault`,
`fails`, `failing`, an `Option` that is None when a read failed), and the contracts hold for every pattern of those.
A transaction whose commit reports an error is taken to have changed nothing. Calls whose failure is not modelled are
listed under "Left out".
Instants are whole microseconds and clock readings are parameters. JSON parsing is any function from a payload to
its meaning. `dafny verify dfyconfig.toml` checks everything.

## What the code does not do

The model follows the code. Where the code falls short of its documentation or of what its callers expect, a lemma
says exactly when it meets it.

- README.md:328-333 says that concurrent operations never leave usage above the limit. Renames (moves, deletes to
  the trash, trash restores) take no admission lock, so a rename of a path the lock holder is about to overwrite adds
  its size: it is safe exactly when it takes no such path or the file fits (`QuotaProtocol.MoveIsSafeIffItFits`, with
  an instance in `MoveRaceExceedsTheLimit`). An operation that gives up part way keeps the limit exactly when no prefix
  of its list adds more than the whole (`GivingUpIsSafeIffPrefixesFit`). A folder copy is admitted on a list of its
  source read before it waits for the lock and writes what it reads again under it; it keeps the limit exactly when the
  second list would have been admitted (`ReplanIsSafeIffItWouldBeAdmitted`, with `FolderCopyExceedsTheLimit`); the
  same holds of a refused conversion that puts the former companion back. `EveryRunIsBounded` says by how much any run can
  exceed the limit.
- crates/core/src/purge.rs:600-602 expects a retry to finish what a removal missed. Errors of removing the volume's
  database file, S3 objects and the repository's files are dropped (crates/core/src/storage/mod.rs:478,
  crates/core/src/storage/blob/s3.rs:186-193, crates/core/src/git/repo.rs:155-164), so a removal can succeed, and the
  record go, with data left and nothing to retry: exactly when an item is stuck (`ProjectRemoval.SuccessEmptiesIff`).
- crates/core/src/purge.rs:447-463 reads a blob's time and deletes it in two calls; a put of the same bytes that falls in
  between is lost, and of puts only such a one (`OrphanProtocol.PutIsSafeIffOutsideTheWindow`). A copy adds its reference
  to a hash it read before, whether or not a reference or the bytes still exist
  (crates/core/src/storage/volume.rs:264-298, crates/core/src/storage/meta.rs:1350-1367), and can lose the bytes with no put
  at all: `OrphanProtocol.LinkIsSafeIff` says exactly when it cannot.
- The grace sweep lists the stamped projects and removes them one by one; an undelete after the list is not honoured
  (`LifecycleProtocol.UndeleteHonouredIffNoSweepApproved`). The project sweep stamps on the tree it read before; an
  access after that read is not honoured (`AccessHonouredIffNoSweepDecided`).
- The file sweep excludes the trash directory with its slashes trimmed but writes to it as configured; with a leading
  slash its own trash is swept again (`FileSweep.TrashExcludedIffNoLeadingSlash`).
- On a metadata database shared by all volumes, deleting an export row by token names no volume, so a claim answers
  with the first project and the archive is found only if it is that project's (`Exports.LiveLinkServedIff`). A
  request that began before its token was minted can delete the live row (`ExportProtocol.RequestHarmlessIffMinted`).
- crates/agent/src/llm.rs:187-193 promises a first pause of 1 s and retries of network failures. The code starts at 2 s
  (`Retry.SleepIsBounded`), and matches only the outermost error text, which for a failed request and a broken
  stream names nothing retriable (`Retry.TransportFailuresAreNotRetried`). crates/agent/src/llm.rs:20 speaks of any 5xx,
  but 501 and 505 are not among the texts matched (`Retry.BadStatusRetriedIff`, `NotImplementedIsNotRetried`).
- A session file whose last line lacks its newline swallows the next turn (`Conversation.AnsweredPromptAgreesIffTerminated`,
  `FailedPromptAgreesIffNoUnfinishedTurn`), and `/clear` does not replay a file its new id happens to name
  (`ClearAgreesIffNothingToReplay`).
- The migration copies the columns a table's schema declares and not those a column migration adds; such columns come
  back to their defaults (`Migrate.CopyIsFaithfulIffAddedColumnsAreDefault`).

## Model

| member | source | states |
|---|---|---|
| Quota.NetChangeIsUsageDifference | crates/core/src/quota.rs:144-157 | the reverse walk over a list with duplicate paths charges exactly what applying the writes in forward order does to total usage, a removed path listed as size 0 |
| Quota.AdmitPaths | crates/core/src/quota.rs:136-160 | for any list the verdict is the project check on that net change followed by the session charge (what that verdict is, from the stored quotas: the next three rows); the lock is held exactly on success and a refusal changes no session |
| Quota.AdmittedIffFits | crates/core/src/quota.rs:96-157 | for a project whose stored quota is `limit`: admitted if and only if the last write leaves usage at most the larger of the limit and the usage before and the session bytes fit; the project's refusal comes first and names limit, usage and growth |
| Quota.NoLimitNeverRefuses | crates/core/src/safety.rs:68-81 | a project stored without a quota, and a manager declared unlimited, are refused by the session budget only |
| Quota.UnreadableLimitFailsClosed | crates/core/src/safety.rs:68-81 | an unknown project, and any project while no limits source is attached, is refused if and only if the usage would grow, each with its own error |
| Quota.ListingAt | crates/core/src/quota.rs:127-132 | what an operation hands in: each path in order with the bytes its write leaves, 0 for a removed path |
| Quota.Admit | crates/core/src/quota.rs:31-42 | the same verdict on a change the caller worked out |
| Quota.AdmitFile | crates/core/src/quota.rs:47-62 | the checked change is the usage difference of putting the file; the session is charged the whole new size |
| Quota.AdmitSibling | crates/core/src/quota.rs:71-93 | the checked change is that of the companion file alone, none without one; the session weight is separate |
| Quota.CheckAndCharge | crates/core/src/quota.rs:96-113 | project limit first, session second; a project refusal charges nothing |
| Quota.RunAdmitted | crates/core/src/quota.rs:16-22 | an admitted operation run to its end moves usage by exactly the admitted change and releases the lock |
| Quota.VolumeClient.Write | crates/core/src/quota.rs:5-8 | the usage counter moves with the tree and stays the sum of the file sizes |
| Volume.UsageInPlainTerms | crates/core/src/storage/traits.rs:243-246 | usage counts each file once, at its size, and a directory not at all |
| Volume.LastWriteWins | crates/core/src/quota.rs:127-132 | after a list of writes a path holds what the last write to it left, and a path no write names is unchanged |
| Quota.ProjectRemainingFor | crates/core/src/quota.rs:165-175 | from the stored quotas: the quota less the usage plus the replaced file, never below zero; none without a quota or declared unlimited; an error for an unknown project, no source, or an unreadable usage |
| Quota.RemainingIsExact | crates/core/src/quota.rs:96-113 | in the same state a write passes the project check of a stored quota if and only if it fits what `project_remaining_for` answers or does not grow the file |
| QuotaProtocol.EveryRunIsBounded | README.md:328-333 | in every run, no step excluded, usage whenever the lock is free is at most the larger of the limit and the earlier usage, plus the sizes of the files renamed from under the lock holder, what operations that gave up had left to shrink, and what others wrote beyond their list |
| QuotaProtocol.LiftIsExact | README.md:328-333 | what that sum adds for a step is exactly how far the step raises the usage still to come; an admission adds nothing |
| QuotaProtocol.AdmitIsTheCheck | crates/core/src/quota.rs:96-113 | an admission in these runs is the verdict of the entry points with the limit as the stored quota |
| QuotaProtocol.CalmInPlainTerms | README.md:328-333 | exactly which steps the unconditional results exclude: giving up, a rename from under the holder to a path it will not write, and writing something else that leaves more behind |
| QuotaProtocol.UsageNeverOvershoots | README.md:328-333 | without contested renames, give-ups and writes beyond the list nothing is added: usage at or under the limit stays so, usage above it never grows |
| QuotaProtocol.AppendIsAdmitted | crates/core/src/core/fs_ops.rs:977-998 | whenever the bytes an append adds pass the check, so does the write it makes, whatever became of the file since it was looked for |
| QuotaProtocol.EmptyIsLikePurge | crates/core/src/core/fs_ops.rs:1001-1020 | making a file empty without the lock does to the usage still to come what removing it does |
| QuotaProtocol.RunKeepsOutstanding | crates/core/src/quota.rs:14-22 | the invariant behind it: usage once the lock holder has landed its writes never passes the bound |
| QuotaProtocol.PurgeShrinks | README.md:328-331 | a removal that takes no lock never raises the usage still to come |
| QuotaProtocol.MoveShifts | crates/core/src/core/fs_ops.rs:1301-1330 | a rename changes the usage still to come exactly when one of its two ends, and not the other, is still to be written |
| QuotaProtocol.MoveIsSafeIffItFits | crates/core/src/core/fs_ops.rs:1301-1330 | a rename keeps any bound in all continuations if and only if the holder will not overwrite the path it takes, or that file fits on top of what was admitted |
| QuotaProtocol.RacingMoveAddsItsSize | crates/core/src/core/fs_ops.rs:1301-1330 | the run behind it: once landed, usage is the admitted one plus that file's size |
| QuotaProtocol.MoveRaceExceedsTheLimit | README.md:332-333 | a run of a 12 byte limit that ends at 22 bytes |
| QuotaProtocol.ReplanIsSafeIffItWouldBeAdmitted | crates/core/src/core/fs_ops.rs:1358-1369 | an operation that turns out to write something else than its list, as a folder copy that reads its source again, keeps any bound in all continuations if and only if a check of what it writes, on the usage of that moment, would pass |
| QuotaProtocol.FolderCopyExceedsTheLimit | crates/core/src/storage/volume.rs:276-298 | such a copy that ends at 16 bytes under a limit of 12, its source grown between listing and lock |
| QuotaProtocol.GivingUpNeverOvershoots | crates/core/src/git/merge.rs:675-722 | with lists whose prefixes fit, usage stays under the bound at every moment, however many operations give up midway |
| QuotaProtocol.GivingUpIsSafeIffPrefixesFit | crates/core/src/quota.rs:136-160 | giving up is safe at every point and under every admitting limit if and only if no prefix of the list adds more than the whole of it |
| QuotaProtocol.ShrinkingFirstFits | crates/core/src/quota.rs:136-160 | a list of distinct paths that shrinks before it grows has only fitting prefixes |
| Safety.SafetyManager.ChargeWrite | crates/core/src/safety.rs:136-147 | from the stored session: charges exactly when the bytes so far and the new ones are within the quota, reaching it included; a refusal leaves the session and every other one alone |
| Safety.SafetyManager.SessionRemaining | crates/core/src/safety.rs:151-154 | the budget left, never below zero, observing every session unchanged |
| Safety.SafetyManager.RefundWrite | crates/core/src/safety.rs:161-166 | gives bytes back, never below zero |
| Safety.SafetyManager.EnsureReadBeforeWrite | crates/core/src/safety.rs:121-133 | refuses exactly an unread path while the guard is on, and changes no session |
| Safety.SafetyManager.RecordAudit | crates/core/src/safety.rs:168-180 | the log becomes the last 500 entries of itself and the new one |
| Safety.FirstSourceDecides | crates/core/src/safety.rs:56-66 | however often a limits source is attached, the first one decides |
| Safety.EditAllowedIffRead | crates/core/src/safety.rs:113-133 | over any run a path may be written over if and only if that person read it in that project, whatever others did in between |
| Safety.RunStaysWithinQuota | crates/core/src/safety.rs:136-166 | over any run of charges and refunds every session's written bytes stay between 0 and the quota |
| Safety.ChargeAcceptedIffRemaining | crates/core/src/safety.rs:136-154 | in every reachable state a charge is accepted if and only if it is at most the remaining budget, and its refund restores the session |
| Safety.AuditKeepsTheLastEntries | crates/core/src/safety.rs:168-180 | over any run a session's log is the last 500 of all entries recorded for it, whatever other sessions do |
| OrphanSweep.Store.SweepProjectOrphans | crates/core/src/purge.rs:383-469 | for any listing, bulk read and faults: which errors abort with nothing deleted, otherwise exactly the surviving candidates go and are counted with their sizes; every deleted object was last written more than 86 400 000 000 µs before, met no failure, and is a 64 digit lower case hash no row holds, an `export:` key whose token no row holds, or a sharded `.tmp-` file; nothing else changes |
| OrphanSweep.SplitListing | crates/core/src/purge.rs:402-414 | the listing loop yields the old unreferenced content blobs and, apart, the old exports and temp files |
| OrphanSweep.Store.DeleteCandidates | crates/core/src/purge.rs:433-467 | each candidate goes exactly when its reference re-check, its time re-read and its delete all say so, independently of the others |
| OrphanSweep.OnlyOldUnreferencedObjectsGo | crates/core/src/purge.rs:433-519 | whatever the listing and bulk read answer, only an object of the three key forms, older than the cutoff in the bucket and without a reference, is deleted |
| OrphanSweep.BreakerBoundsContentDeletes | crates/core/src/purge.rs:399-429 | whatever the bulk read answers, at most max(1, a tenth of the listed content blobs) content blobs go; exports and temp files are unaffected |
| OrphanSweep.SweepDeletesExactlyTheOrphans | crates/core/src/purge.rs:383-497 | without writers and failures the sweep deletes exactly the orphans; their number and sizes leave the bucket's totals by exactly as much |
| OrphanSweep.CleanSweepDeletesIff | crates/core/src/purge.rs:383-519 | those orphans key by key, both ways: an object goes if and only if it is more than 24 hours old and a hash no row holds while such hashes are at most one or a tenth of all, an `export:` key without its row, or a sharded `.tmp-` file; the breaker trips exactly otherwise |
| OrphanSweep.FaultsAreIsolated | crates/core/src/purge.rs:433-467 | a failing re-check, re-read or delete keeps its own object and changes nothing for the others |
| OrphanSweep.SecondSweepDeletesNothing | crates/core/src/purge.rs:383-469 | a second sweep at the same time deletes nothing, breaker tripped or not |
| OrphanProtocol.StepKeepsInv | crates/core/src/purge.rs:433-467 | every calm step of sweeps, writers, copiers and dropped references keeps the invariant that a key about to be deleted can gain no reference |
| OrphanProtocol.ReferencedBlobsSurvive | crates/core/src/purge.rs:433-467 | in every interleaving with no put inside a delete window, and references added within 24 hours of their put or when they can be added without one, every referenced content blob keeps its bytes |
| OrphanProtocol.CalmInPlainTerms | crates/core/src/purge.rs:433-467 | exactly which steps that leaves out |
| OrphanProtocol.OldUnreferencedBlobCanGo | crates/core/src/purge.rs:433-467 | in any state a sweep can take a blob more than a day old that nothing refers to, and only that |
| OrphanProtocol.PutIsSafeIffOutsideTheWindow | crates/core/src/purge.rs:447-463 | in every reachable state a put is safe in all continuations if and only if no sweep is between its time read and its delete of that key |
| OrphanProtocol.PutInTheWindowIsLost | crates/core/src/purge.rs:447-463 | the losing run: put, reference added, delete |
| OrphanProtocol.LinkIsSafeIff | crates/core/src/storage/volume.rs:264-298 | in every reachable state a reference added without a put, as a copy does with a hash it read before, is safe in all continuations if and only if the hash still has one, or its bytes are there and no sweep past its re-check can take them for old |
| OrphanProtocol.FreshPutCanLink | crates/core/src/purge.rs:440-446 | in every state of the invariant, a put less than 24 hours old makes its reference safe to add |
| FileSweep.VolumeClient.SweepProjectFiles | crates/core/src/purge.rs:57-126 | for any trash directory and any failures: the errors and gates; works through exactly the files outside the trash root last accessed more than the retention days times 86 400 000 000 µs ago and moves no other; one-to-one moves into the trash with their rows, total bytes kept, the count, and why a file was left behind |
| FileSweep.VolumeClient.StaleFiles | crates/core/src/storage/meta.rs:1931-1953 | the query lists each file older than the threshold and outside the excluded root once, and no other |
| FileSweep.TrashRootInPlainTerms | crates/core/src/purge.rs:73-74 | that root is the configured directory between its slashes, itself and everything below it; of slashes alone, every path |
| FileSweep.NothingElseChanges | crates/core/src/purge.rs:73-124 | unlisted nodes and old trash rows are as they were, new rows name listed files, and the only other new nodes are directories leading to the trash |
| FileSweep.PurgedFileStandsAt | crates/core/src/safety.rs:192-196 | a purged file stands in the trash directory under its stamp and its path with every slash as two underscores, or that with ~1 to ~50 |
| FileSweep.EmptyTrashTakesThemAll | crates/core/src/purge.rs:57-126 | with nothing failing, a plain directory name and nothing below it, up to 51 stale files are all purged, whatever their names and stamps |
| FileSweep.VolumeClient.SweepStale | crates/core/src/purge.rs:73-124 | the loop: each listed file is moved once or left with a reason |
| FileSweep.VolumeClient.RenameWithCollisionRetry | crates/core/src/core/fs_ops.rs:1175-1210 | moves to the first free of dst, dst~1 to dst~50 with its trash row in the same step; moves if and only if such a name comes before any failing attempt and has no row; otherwise nothing changes |
| FileSweep.VolumeClient.Makedirs | crates/core/src/storage/meta.rs:1457-1489 | makes every missing component or, where a file stands at one of them, nothing |
| FileSweep.ChainByComponents | crates/core/src/storage/meta.rs:1457-1489 | those are one directory per component, each inside the one before, doubled, leading and trailing slashes making none |
| FileSweep.NamesDiffer | crates/core/src/core/fs_ops.rs:1175-1210 | the names tried for one destination are all different |
| FileSweep.EveryFileInExactlyOnePlace | crates/core/src/purge.rs:73-124 | after any sweep a stale file is at its path with its bytes and no new row, or at exactly one trash path with exactly one new row naming it, its old place empty or taken by another purged file |
| FileSweep.TurnKeepsBytes | crates/core/src/purge.rs:73-124 | one file's turn, moved or left, keeps the total bytes |
| FileSweep.RerunSeesExactlyTheRest | crates/core/src/purge.rs:71-73 | the stale files of a rerun at the same time are exactly those left behind, and those the sweep put where it does not exclude its own trash |
| FileSweep.RerunPurgesTheRest | crates/core/src/purge.rs:57-126 | with no slash leading the trash directory, a rerun at the same time in which nothing fails, no file blocks the directory and every trash row has its node purges, after a sweep with any failures, only files that one left behind, and each of those with a free name of its own |
| FileSweep.OwnFreeNameSuffices | crates/core/src/purge.rs:73-124 | when nothing fails or blocks, and no listed file stands at another's trash name, a file is moved as soon as one of its 51 names is free and no other listed file may take it |
| FileSweep.SharedTrashPathTakesWhatFits | crates/core/src/core/fs_ops.rs:1175-1210 | under the same conditions, of the files sharing one trash path all are moved, or as many as that path has free names that files of other trash paths did not take |
| FileSweep.ExcludedNamesUnlisted | crates/core/src/purge.rs:71-73 | the last of these conditions holds whenever no slash leads the trash directory |
| FileSweep.FreshPathHasEveryName | crates/core/src/core/fs_ops.rs:1183-1205 | a trash path nothing stands at has 51 of them |
| FileSweep.TrashExcludedIffNoLeadingSlash | crates/core/src/safety.rs:192-196 | what a sweep purged is excluded from the next if and only if no slash leads the configured directory, or it is all slashes |
| Common.DigitsRoundTrip | crates/core/src/safety.rs:192-196 | the decimal text of a stamp or suffix reads back as its number and has no leading zero |
| ProjectLifecycle.OlderIsStrict | crates/core/src/purge.rs:582-586 | the rounded age test passes if and only if the age is at least half a second over the threshold, never at it |
| ProjectLifecycle.DecidedMeansAllOlder | crates/core/src/purge.rs:150-184 | a project the sweep decides on had no creation and no live file access within its retention |
| ProjectLifecycle.DecidesInPlainTerms | crates/core/src/purge.rs:150-184 | both ways: it decides if and only if purging is on, a retention is set, and the creation and every live file access lie that many days and half a second back; trashed files and directories never count |
| ProjectLifecycle.ReferenceBounds | crates/core/src/purge.rs:164-176 | the reference instant is the latest of the creation and the live file accesses: no earlier than any, and one of them |
| ProjectLifecycle.AdminStore.SweepProject | crates/core/src/purge.rs:150-184 | stamps exactly when every read and the update work and every gate and the age test pass on an unstamped project; otherwise nothing changes, and which failures are errors |
| ProjectLifecycle.AdminStore.SweepGracePeriod | crates/core/src/purge.rs:573-592 | removes, in order and up to the first error, the listed projects stamped at least the grace days and half a second ago, and no other |
| LifecycleProtocol.RemovalWasEarned | crates/core/src/purge.rs:150-184 | over every calm run a removal follows a stamp that was justified when taken, strictly longer ago than the grace period |
| LifecycleProtocol.AQuietProjectIsRemoved | crates/core/src/purge.rs:573-592 | a calm run that decides, stamps and removes an unused project, its trash accessed later notwithstanding |
| LifecycleProtocol.StampSeesACurrentTree | crates/core/src/purge.rs:150-184 | at the instant of a stamp nothing in the tree was accessed within the retention |
| LifecycleProtocol.AccessHonouredIffNoSweepDecided | crates/core/src/purge.rs:150-184 | an access to a live project's file is honoured in all continuations if and only if no project sweep is between its read and its stamp |
| LifecycleProtocol.StampNeverMoves | crates/core/src/storage/admin.rs:510-523 | whatever sweeps trigger again, a stamp stays until an undelete or the removal |
| LifecycleProtocol.UndeleteHonouredIffNoSweepApproved | crates/core/src/purge.rs:573-592 | an undelete is honoured in all continuations if and only if no grace sweep is between its list and its removal |
| ProjectRemoval.Project.RemoveProject | crates/core/src/purge.rs:616-634 | volume, index, repository, record, in this order: the first that this deployment has and that reports a failure is answered, with the record kept and the stores after it untouched; success leaves exactly what could not be removed |
| ProjectRemoval.Project.RemoveWithRetries | crates/core/src/purge.rs:594-634 | over any retries, once the record is gone the stores are empty, and as one clean removal leaves them, if and only if the last removal met nothing stuck; always so when wipes report their failures |
| ProjectRemoval.FailedAttemptsKeepTheRecord | crates/core/src/purge.rs:600-634 | any run of failed removals keeps the record, grows nothing, and leaves the same clean outcome |
| ProjectRemoval.SuccessEmptiesIff | crates/core/src/storage/mod.rs:457-516 | the same for any state and any failed removals before: emptied, and equal to one clean removal from the start, if and only if nothing was stuck |
| ProjectRemoval.StuckFileOutlivesTheRecord | crates/core/src/storage/mod.rs:467-480 | one volume file that cannot be removed: success, no record, the file still there |
| PurgeCycle.StoreManager.RunCycle | crates/core/src/purge.rs:223-291 | the summary is the sum of every opened project's share, and the recorded times advance for exactly the opened projects that were due; an unreadable project list changes nothing |
| PurgeCycle.StoreManager.SweepOne | crates/core/src/purge.rs:243-288 | each counter grows by what its own sweep answered and a failing sweep adds nothing; the orphan sweep runs when a day has passed and is recorded whether or not it succeeded |
| PurgeCycle.FailuresAreIsolated | crates/core/src/purge.rs:231-242 | a project that cannot be opened changes nothing in the summary of the others |
| PurgeCycle.TallySplits | crates/core/src/purge.rs:223-291 | the summary of two lists of projects, one behind the other, is the sum of their summaries |
| PurgeCycle.TallyOfOne | crates/core/src/purge.rs:243-288 | one project adds, field by field, what its sweeps answered, the orphan sweep only when due |
| PurgeCycle.AnyTwoSweepsAreADayApart | crates/core/src/purge.rs:266-288 | over any sequence of cycles, any two recorded sweeps of a project are at least 86 400 s apart |
| PurgeCycle.SweepsComeInTime | crates/core/src/purge.rs:266-288 | with cycles at most g apart and the volume always opening, two consecutive sweeps are less than 86 400 s + g apart |
| PurgeCycle.SweepsAreNotMissed | crates/core/src/purge.rs:266-288 | a project whose volume opens is swept in the first cycle and is never a day behind at any cycle |
| PurgeCycle.RecordedIsTheLatest | crates/core/src/storage/mod.rs:402-411 | the time kept for a project is that of its latest sweep |
| Exports.AppState.Claim | crates/core/src/exports.rs:55-70 | the first visible probe that works takes the live row; an error is answered exactly when the projects cannot be listed, or no probe hit and some probe failed |
| Exports.AppState.ReapExpired | crates/core/src/exports.rs:100-126 | deletes whatever row its probes reach, with its blob if that can be deleted, and nothing else; nothing when the projects cannot be listed |
| Exports.AppState.Download | crates/core/src/exports.rs:32-46 | for claim, serve and reap failing independently: which answer is given, served only for a live link that is now gone, not found only for an absent or expired one, the row then gone exactly when the reap reached it; which archive goes, and that no other link or archive is touched |
| Exports.CanonicalInPlainTerms | crates/core/src/exports.rs:139-141 | a token is accepted if and only if its five groups of 8, 4, 4, 4 and 12 are lower case hexadecimal digits |
| Exports.AppState.SweepProjectExports | crates/core/src/purge.rs:325-355 | a row goes exactly when it is this volume's, expired and deletable, and an archive exactly when its row is this volume's and expired and the archive deletable, neither keeping the other; nothing when they cannot be read |
| Exports.LiveLinkServedIff | crates/core/src/exports.rs:55-91 | a live link is served if and only if the database is per volume or its project is the first |
| Exports.DownloadTwice | crates/core/src/exports.rs:32-46 | of two downloads of one link at most one is served, whatever fails |
| ExportProtocol.AtMostOneClaim | crates/core/src/exports.rs:55-134 | in every interleaving at most one process takes the row, and a claim outlived the instant its request read |
| ExportProtocol.ALiveLinkIsClaimed | crates/core/src/exports.rs:55-70 | a request that meets a live row and no failure claims it for the first project whose database reaches it |
| ExportProtocol.UnconditionalDeletesAreLate | crates/core/src/exports.rs:100-126 | reaps and sweeps only delete a row already expired at their own instant, when nobody asks before the mint |
| ExportProtocol.EarlyRequestDropsALiveRow | crates/core/src/exports.rs:32-46 | a request that found nothing before the mint can reap the fresh row |
| ExportProtocol.RequestHarmlessIffMinted | crates/core/src/exports.rs:32-46 | in every reachable state a request is harmless in all continuations if and only if its token is minted |
| Stream.StreamTurn | crates/agent/src/llm.rs:149-184 | for any split into reads, the outcome and the callback texts equal handling the complete lines in one batch (what that gives: the next row) |
| Stream.TurnIsWhatTheChunksSay | crates/agent/src/llm.rs:154-184 | the callback gets the non-empty contents of the chunks on the lines before the first `[DONE]` or error, in order; on success the text is their concatenation and the tool calls those of all their fragments; an error object or a stream broken first fails the turn, and nothing else does |
| Stream.ClassifyInPlainTerms | crates/agent/src/llm.rs:158-167 | a line carries a payload if and only if it is `data:` with that non-empty text between white space; `[DONE]` is the one end mark |
| Stream.CompleteLinesInPlainTerms | crates/agent/src/llm.rs:154-157 | the complete lines, each with its newline, and a rest without one make up the body again |
| Stream.DrainLines | crates/agent/src/llm.rs:154-182 | the inner loop consumes every complete line of the buffer and stops early exactly when the batch would |
| Stream.ApplyChunk | crates/agent/src/llm.rs:277-312 | one delta extends text, callbacks and slots as the fold over all deltas says |
| Stream.DecodeTwoSplits | crates/agent/src/llm.rs:149-184 | any two splits of one text with the same ending decode alike |
| Stream.SaidIsTheText | crates/agent/src/llm.rs:287-290 | on success the callback texts are non-empty and concatenate to the turn's text |
| Stream.NothingAfterDone | crates/agent/src/llm.rs:164-167 | nothing behind a `[DONE]` line changes the outcome, not even a broken stream |
| ToolCalls.ApplyFragments | crates/agent/src/llm.rs:292-311 | after any chunks, each slot holds its own index's fragments only |
| ToolCalls.FinishListsNamedIndices | crates/agent/src/llm.rs:315-328 | the calls are the indices with a name, ascending, each with its name, its arguments and its last non-empty id or `call_` and the index |
| ToolCalls.OwnIsFilter | crates/agent/src/llm.rs:292-297 | the fragments of an index are those naming it, in order, or naming none when it is 0 |
| ToolCalls.PartsAreConcatenations | crates/agent/src/llm.rs:302-309 | name and arguments are the given parts one behind the other |
| ToolCalls.LastIdIsTheLastGiven | crates/agent/src/llm.rs:299-301 | the id is the last one given that is not empty |
| ToolCalls.OrderAcrossIndicesDoesNotMatter | crates/agent/src/llm.rs:292-328 | any reordering that keeps each index's own order gives the same calls |
| ToolCalls.SyntheticIdsDiffer | crates/agent/src/llm.rs:315-328 | two calls without an id never get the same one |
| Retry.StreamTurnWithRetry | crates/agent/src/llm.rs:194-227 | at most 10 calls and 180 000 ms of sleep; only transient failures before any text are retried; on success everything said is the turn's text |
| Retry.SleepIsBounded | crates/agent/src/llm.rs:187-227 | the pauses are 2, 4, 8, 16 and then 30 s, and ten calls pause 180 s in all |
| Retry.BadStatusRetriedIff | crates/agent/src/llm.rs:18-30 | an error status is retried if and only if its status line or body names a retriable failure |
| Retry.RetriableInPlainTerms | crates/agent/src/llm.rs:18-30 | a message with any of the ten texts anywhere in it is retriable |
| Retry.RetriableHoldsAText | crates/agent/src/llm.rs:18-30 | and no other message is |
| Retry.NotImplementedIsNotRetried | crates/agent/src/llm.rs:18-30 | a 501 with an empty body ends the turn at once |
| Retry.TransportFailuresAreNotRetried | crates/agent/src/llm.rs:18-30 | a request without an answer and a broken stream are final |
| Conversation.Agent.Prompt | crates/agent/src/main.rs:254-377 | history and file after a prompt of any rounds and either ending; a first call that fails takes the user turn back |
| Conversation.PromptInPlainTerms | crates/agent/src/main.rs:254-377 | message by message: a first call that fails leaves history and replay as they were; otherwise both gain the user turn and the reply if any, the history also every round of calls with each result's text or "(no output)"; other files are untouched |
| Conversation.ReplayLineByLine | crates/agent/src/session.rs:45-57 | a stored line replays as its speaker's message, an unreadable or blank one as nothing |
| Conversation.Agent.RunTools | crates/agent/src/main.rs:343-376 | the request is followed by one result per call, in order, an empty output spelt out |
| Conversation.AppendReplays | crates/agent/src/session.rs:45-73 | on a terminated file an appended turn replays as exactly one more message |
| Conversation.RemoveUndoesAppend | crates/agent/src/session.rs:77-91 | on a terminated file removing the last line undoes the append |
| Conversation.FileAndHistoryAgree | crates/agent/src/main.rs:179-377 | over any run, at every prompt replaying the file gives the user and assistant messages of the history, and results follow their request in order with matching ids |
| Conversation.EveryCallIsAnswered | crates/agent/src/main.rs:341-376 | in such a history the result of the k-th call stands k places behind its request |
| Conversation.EveryResultAnswersACall | crates/agent/src/main.rs:341-376 | and no result stands anywhere else |
| Conversation.RunFromStartAgrees | crates/agent/src/main.rs:168-173 | the same from the start of the program, on a new or a terminated session |
| Conversation.ClearAgreesIffNothingToReplay | crates/agent/src/main.rs:203-209 | after `/clear` file and history agree if and only if the minted session has nothing to replay |
| Conversation.SwitchAgrees | crates/agent/src/main.rs:212-227 | after a switch they always agree |
| Conversation.AnsweredPromptAgreesIffTerminated | crates/agent/src/session.rs:60-73 | on a resumed session they agree after an answered prompt if and only if the file is absent, or ends with a newline and at most JSON white space behind it |
| Conversation.FailedPromptAgreesIffNoUnfinishedTurn | crates/agent/src/main.rs:302-313 | after a failed first call they agree if and only if no stored turn stood unfinished at the end of the file |
| Migrate.BuildInsert | crates/core/src/migrate.rs:133-152 | the running placeholder numbers bind every group to the values of its own row, for any row and column count |
| Migrate.ExecuteMakesPlainRows | crates/core/src/migrate.rs:133-152 | such a statement adds exactly plain copies of the rows, in order |
| Migrate.SendBatches | crates/core/src/migrate.rs:130-154 | over all batches of 100 the rows added are plain copies of every row, or the failing batch ends it |
| Migrate.Database.CopyTable | crates/core/src/migrate.rs:97-155 | scope cleared and refilled in one transaction, the written count equal to the source rows in scope; a failing select, clear, insert or commit changes nothing |
| Migrate.Database.Migrate | crates/core/src/migrate.rs:187-307 | stops at the first failing store, copy or count, with exactly the copies before it done, and succeeds if and only if none fails; then the report totals the source rows; the counts themselves never disagree |
| Migrate.HaltInPlainTerms | crates/core/src/migrate.rs:97-155 | a copy ends the migration unless no store fails, no batch it reaches or other part of it fails, and no count it makes fails; and with which error |
| Migrate.Record | crates/core/src/migrate.rs:72-80 | one entry per table, and each table's total grows by what was recorded for it |
| Migrate.CopyReplacesScope | crates/core/src/migrate.rs:97-155 | the destination scope then holds exactly plain copies of the source scope |
| Migrate.OtherVolumesUntouched | crates/core/src/migrate.rs:97-155 | rows of other volumes are as they were |
| Migrate.AddressesAgreeAfterACopy | crates/core/src/migrate.rs:169-184 | both sides refer to the same content addresses after a copy |
| Migrate.CountsAgreeAfterACopy | crates/core/src/migrate.rs:209-215 | the count of both sides never disagrees after a copy |
| Migrate.EveryJobIsCopied | crates/core/src/migrate.rs:97-155 | for any list of copies in which no later clear or copy overlaps an earlier one, each one's scope holds its source rows in the end |
| Migrate.TheCodeIsInOrder | crates/core/src/migrate.rs:202-304 | the code's own list is such a list, for any distinct projects |
| Migrate.TheCodeIsValid | crates/core/src/storage/admin.rs:22-107 | its tables name each column once, have a volume where one restricts them, and are not emptied by their own clear |
| Migrate.MigrationIsComplete | crates/core/src/migrate.rs:187-307 | for any projects and rows, every copy on the code's list leaves plain copies of the source's rows (what is on it, and what plain copies are: the next two rows) |
| Migrate.EveryVolumeTableArrives | crates/core/src/migrate.rs:245-303 | by name: for every project and each of nodes, blob_refs, git_objects, git_operations, git_refs and git_remotes the destination then holds one row per source row, in order, equal in every declared column |
| Migrate.TheRegistryArrives | crates/core/src/migrate.rs:202-240 | the same of project, project_member and oauth_tokens as a whole |
| Migrate.MigrationIsRestartable | crates/core/src/migrate.rs:187-307 | for any projects and rows, stopping it at any table boundary and starting over leaves the same destination |
| Migrate.MembersFirstAreLost | crates/core/src/migrate.rs:202-205 | members copied before projects, where the destination lets them in, would all be gone |
| Migrate.NothingElseIsTouched | crates/core/src/migrate.rs:187-307 | what no job names and no clear takes along is unchanged |
| Migrate.RestartGivesTheSame | crates/core/src/migrate.rs:97-155 | stopping at any table boundary and starting over leaves the whole destination, child tables included, as one run does |
| Migrate.CopyIsFaithfulIffAddedColumnsAreDefault | crates/core/src/migrate.rs:84-91 | the rows arrive unchanged if and only if every column added by a column migration holds its default |

## Left out

- Integer width and overflow: sizes and counters are unbounded integers, not 64-bit ones.
- Floating-point seconds: instants are whole microseconds, and rounding is to the nearest second, halves away from zero.
- Quota.Admit, Quota.AdmitPaths, Quota.AdmitFile, Quota.AdmitSibling: metadata reads under the lock do not fail, and the usage counter row exists (no backfill).
- QuotaProtocol.UsageNeverOvershoots: a rename moves one node, not a directory with its subtree; contested renames and operations that give up are excluded here, as are writes beyond the list, bounded by EveryRunIsBounded and settled by MoveIsSafeIffItFits, GivingUpIsSafeIffPrefixesFit and ReplanIsSafeIffItWouldBeAdmitted.
- OrphanProtocol.ReferencedBlobsSurvive: a put inside a delete window and a reference that comes too late are excluded here and settled by PutIsSafeIffOutsideTheWindow and LinkIsSafeIff; blob times come from the same clock as the sweep's.
- Eager deletion of a blob whose last reference goes, and the artifact sweep, which does the same.
- LifecycleProtocol.RemovalWasEarned: an access between a project sweep's read and its stamp, and an undelete between a grace sweep's list and its removal, are excluded here and settled by AccessHonouredIffNoSweepDecided and UndeleteHonouredIffNoSweepApproved.
- ExportProtocol.AtMostOneClaim: follows the row, not the blob, so the delivery of an archive after a claim that read the clock just before the expiry is not covered.
- FileSweep.VolumeClient.SweepProjectFiles: the code lists the stale files by path, here the order is any; no writer runs beside the sweep, and the search index updates behind a move are not modelled.
- ProjectRemoval.SuccessEmptiesIff: no request reopens the volume, and so makes it anew, between its removal and the record's.
- FileSweep.VolumeClient.RenameWithCollisionRetry: a rename itself makes no directories; the trash directory is there by then.
- Migrate.Database.Migrate: that the schema applied to both sides on opening changes no row, except that an outdated `oauth_tokens` table is dropped and rebuilt, is taken for granted.
- Conversation.Agent.Prompt: a session file that cannot be read, or is not UTF-8, reads as empty in the code; here it is always readable.
- Conversation.FileAndHistoryAgree: compaction is off (`compact_context` takes its content from a model), session writes succeed, minted ids are fresh and resumed files end with a newline.
- Chunks split inside a multi-byte character, and how JSON is parsed.
- The JSON text of a session line: a line is a stored turn, white space or neither.
- Migration of the tables the code does not copy (trash entries, export links, document and usage tables, project purge settings), and its report of missing blobs.
- SQL engines, S3 and local blob stores, git and search backends: only what their callers rely on.
- HTTP routing and pages, identity, CLI, terminal interface, configuration and key handling: plumbing.
