# Models of the backup, worker and alert code

A Dafny model of the parts of this repository in which the order of steps, failures in the middle and concurrent
change matter, with proofs of what they promise. `dafny verify dfyconfig.toml` checks all of it.

**Backup publication** (`BackupRoot`, `Publication`, `PublicationSafety`, `PublicationHistory`, `PublicationDurability`,
`PublicationProgress`, `PublicationRollback`, `Publisher`, `Retaining`). The root directory is a live view and the set
of views since the last directory sync that took effect. A power loss leaves, name by name, an entry of any of those
views, and contents that were never synced come back as anything. Every call of a run may do its work, raise before its
effect or after it, or leave something torn. `Publication` is the run as a state machine, `Publisher` and `Retaining`
are the code as it is written, call by call, each call shown to be one step of the machine. The results are about whole
histories of runs, kills and power losses: a marker that is there always names a complete set, a published marker never
goes away or back, a rollback that met no failure restores the entries, one failing call never costs an earlier marker
while the rollback's private name is free, a run without failing calls publishes, and what was published is read back.

**Retention** (`SetNames`, `Retention`, `Retaining`, `TreeRemoval`). Fixed-width names order sets by time; the current set
and the newest others are kept; deletion by depth is complete.

**Tree copy** (`FileWorld`, `Snapshot`, `CopyHost`, `Links`, `CopyFrames`, `TreeCopy`, `TreeWalk`, `CopySources`). The
file system is any function of time. Under the one assumption that a change leaves a stamp the inode never had, a copy
that returns is a consistent snapshot node by node: each file has its recorded bytes from its scan to the check after
its copy, and each listing stands from the opening of its directory to the close of its frame, which encloses all of its
descendants. The snapshot is of the given path, taken within the call, and every copy in the destination was created and
last written while its source is known to have held these bytes. The explicit stack refines the recursive walk, the
budget is conserved from scan to copy, descriptors are conserved on every exit, no link leads out of the approved
roots, and a quiet tree of regular files and directories is copied unless a limit is exceeded.

**Attempt loop** (`Pacing`, `SumBound`, `ResponseSamples`, `AttemptLog`, `AttemptLoop`). Time is real, clock readings,
control answers and completions are arbitrary. The loop writes a log of its turns, polls, dispatches and waits; what it
reports is a function of the log. A log is proper if it keeps the loop's rules, the due times of dispatches and polls
among them; every proper log keeps the rate bound, the concurrency bound and the stop.

**Candidate harvester** (`Filtering`, `RdapPool`, `Reservoir`). The bounded pool for every completion order, and the exact
uniformity of the reservoir sample, by counting the outcomes of the draws: for single positions and for whole samples.

**Alert cycle** (`Watchdog`, `AlertRuns`). Whole runs with unacknowledged messages, failing saves and damaged files.

**Discovery tasks** (`Allocation`, `DiscoveryBoard`). Greedy assignment is optimal, balanced and independent of the list
order; a domain has at most one active task through enqueueing, expiry, acknowledgements and late results.

**Access keys** (`Timestamps`, `AccessKeys`). Reconciling overrides with a snapshot changes nothing that is shown.

`Lexicographic` holds the string order the Python and TypeScript code sorts by.

What the proofs turned up in the code:

- `_publish_backup` removes its temporary marker name on the way out even when a file of that name was there before it
  began (`PublicationProgress.ForeignTemporaryIsRemoved`). The entries after a failed publication are
  those before it with the temporary name free exactly if no rollback step failed with something left to undo; the
  condition cannot be dropped (`PublicationProgress.FailedDemotionLeavesTheSet`).
- The rollback writes the earlier marker to a private file first. If that name is taken it gives up, removes the file of that
  name and leaves the new marker and set; with the name free, a rollback without a failing call restores everything
  (`PublicationRollback.FaultlessRollbackExactly`).
- A marker lasts through power losses exactly if every view since the last sync has one. A run killed between the swap
  of its marker and the sync leaves one that can be lost (`PublicationProgress.UnsyncedMarkerCanBeLost`).
- `_copy_posix_tree` opens the root directory and charges it before its guarded block
  (`backend/app/operations/backup.py:954-955`), so exactly when that charge is refused, by the deadline or by a used up
  limit, the descriptor stays open.
- A marker that a run has swapped in may be taken away again by the rollback of the same run
  (`PublicationProgress.RollbackTakesTheMarkerAway`); no later run takes one away.
- The set checks `_trusted_success` and `_inspect_latest_success_fd` look at the manifest and the metadata, not at the
  payload files. That the files are there is proved from the publication protocol for the set the marker names. A deletion
  interrupted after the payload leaves a set that `_trusted_success` accepts; a later run that retains no more gives it up
  again while the sets kept then are still there (`Retention.DoomedStaysDoomed`).
- Below 0.1 attempts a second the worker still dispatches one every ten seconds, as the interval is capped there, so the
  planned rate is a bound exactly for rates of zero and from 0.1 on (`SumBound.RateItselfBoundsExactly`).
- Rate changes of at most 1e-9 do not restart the schedule. So the sum over constant stretches of length over interval is
  a bound exactly for rates that differ by more than that or have the same interval (`SumBound.SumBoundsExactly`); between
  any other two rates there are logs, polls included, that beat it. What holds for all rates is
  `Pacing.RateBound`, which counts the shortest interval between restarts.
- A recovery message that was not acknowledged is given up exactly when a cycle with a new problem is recorded; through
  any other cycle it stays owed until it is acknowledged and that is recorded
  (`AlertRuns.PendingRecoverySurvivesExactly`).
- Reconciliation can change what is shown when a snapshot repeats an id, exactly if entries with that id disagree on its
  override (`AccessKeys.ReconcilingShowsTheSameExactly`).

## Model

| member | source | states |
|---|---|---|
| Publisher.Root.Publish | backend/app/operations/backup.py:1322-1362 | Returns exactly when every call of the `try` block went through; then the marker holds this run's metadata and the independent reader accepts the set. When it raises, the root holds exactly its earlier entries, less the temporary marker name, if and only if no rollback step failed with something left to undo. That is so whenever no call of the handler failed and the name of its private file was free; and it returns whenever no call failed and the temporary name was free. |
| Publisher.Root.TryPublish | backend/app/operations/backup.py:1333-1346 | The flags `promoted` and `marker_replaced` are set before their calls, so they tell the handler which calls may have taken effect; `previous` is the marker as first read. |
| Publisher.Root.RestoreMarker | backend/app/operations/backup.py:1288-1319 | True exactly when the marker was put back, removed or found untouched and the root was then synced; otherwise the caller must leave the promoted set alone. It is true whenever none of its calls failed and the name of its private file was free, with an earlier marker or without. |
| Publisher.Root.PutBack | backend/app/operations/backup.py:1311-1314 | The earlier marker is written to a private file and renamed over the marker; without a failing call that raises only if the private name is taken. |
| Publisher.Root.Withdraw | backend/app/operations/backup.py:1355-1361 | Demotes the set only if told to; its last call is the removal of the temporary name, which is free unless that call raised. |
| Publisher.Root.Replace | backend/app/operations/backup.py:1340-1343 | A rename raises without or with its effect; a call that does not raise has moved the entry. |
| Publisher.Root.WriteFile | backend/app/operations/backup.py:1195-1217 | Exclusive creation: fails on an existing name, may leave a torn file when it raises, leaves a synced file when it does not. |
| Publisher.Root.Unlink | backend/app/operations/backup.py:1281-1285 | Removing a name, which may raise without or with its effect. |
| Publisher.Root.SyncRoot | backend/app/operations/backup.py:496-509 | A directory sync may raise although it took effect; the entries do not change. |
| Publisher.Root.ReadPreviousMarker | backend/app/operations/backup.py:1337 | Reads a missing marker, a marker naming a trusted set, or raises; only then does anything get written. |
| Publisher.Root.RereadCurrentMarker | backend/app/operations/backup.py:1299-1307 | The rollback goes on only from a marker it can read. |
| PublicationHistory.MarkerAlwaysNamesACompleteSet | backend/app/operations/backup.py:1322-1362 | For every history of runs, each failing, killed or cut off by a power loss at any call, in the live view and in everything a power loss can leave: a marker that is present names a set that is there with all its files, and both readers accept it. |
| PublicationHistory.StepKeeps | backend/app/operations/backup.py:1322-1362 | Every call of a run, whatever its outcome, keeps the invariant behind that. |
| PublicationHistory.ReplayKeeps | backend/app/operations/backup.py:1744-1878 | Every history keeps it. |
| PublicationHistory.RollbackRestoresEntries | backend/app/operations/backup.py:1346-1362 | A run that raised leaves exactly the entries it found when publication began (partial set back, final gone, marker as before, temporary name free) if and only if no step of its rollback failed with something to undo. |
| PublicationRollback.FaultlessRollbackExactly | backend/app/operations/backup.py:1288-1362 | A rollback that met no failure before and none from here on ends with exactly the earlier entries if and only if it need not write its private file or that name is free. |
| PublicationRollback.OneFailureIsUndone | backend/app/operations/backup.py:1288-1362 | If one call of the publication raises, with or without its effect, and every later one works, the root is as it was when publication began: also when an earlier marker had been replaced. |
| PublicationRollback.RaisedPublicationIsUndone | backend/app/operations/backup.py:1322-1362 | Over a whole run: a publication that raised, and whose handler met no failure, leaves exactly the entries it found. |
| PublicationRollback.FaultlessNeverRaises | backend/app/operations/backup.py:1322-1362 | A run whose calls all work and whose temporary name is free is never in its handler, and retention never refuses. |
| PublicationRollback.FaultlessRetentionSucceeds | backend/app/operations/backup.py:1654-1690 | If no call fails retention succeeds, after as many calls at most as there is to delete. |
| PublicationHistory.PublishedIsReadBack | backend/app/operations/backup.py:1487-1603 | After a publication returned, also after a power loss, the independent reader accepts the marker and gives back the instant that was written. |
| PublicationHistory.RetentionRemovesOnlyDoomed | backend/app/operations/backup.py:1654-1690 | A run that succeeded removed exactly the sets that retention gives up; every other entry is as it was listed. |
| PublicationHistory.FailedRetentionTouchesOnlyDoomed | backend/app/operations/backup.py:1654-1690 | Retention that raised, wherever it stopped, has touched no entry but sets it gives up, and added none. |
| PublicationDurability.PublishedMarkerStays | backend/app/operations/backup.py:1288-1362 | Once a publication has returned, after any later history and any power loss there is a marker, it names a complete set, and that set is the published one or one begun later. |
| PublicationDurability.LaterRunsKeepTheMarker | backend/app/operations/backup.py:1288-1319 | A marker that is present when no run is active stays present through all later runs and kills, and through power losses too if every view since the last sync has one. |
| PublicationDurability.MarkerLastsExactly | backend/app/operations/backup.py:1288-1362 | Between runs, no later history of runs, kills and power losses is ever without a marker if and only if every view since the last sync has one. |
| PublicationProgress.UnsyncedMarkerCanBeLost | backend/app/operations/backup.py:1343-1344 | From any root without a marker: a run killed between the swap of its marker and the sync leaves a marker that a power loss can take away. |
| PublicationProgress.RollbackTakesTheMarkerAway | backend/app/operations/backup.py:1299-1311 | From any root without a marker: a run whose sync fails after the swap takes its marker away again. |
| PublicationProgress.FailedDemotionLeavesTheSet | backend/app/operations/backup.py:1355-1360 | A reachable failed publication whose rollback leaves the promoted set in place. |
| PublicationProgress.ForeignTemporaryIsRemoved | backend/app/operations/backup.py:1338-1361 | A file that has the temporary name beforehand makes the publication fail and is gone afterwards. |
| PublicationDurability.ReplayLasts | backend/app/operations/backup.py:1288-1362 | Over any history every view a power loss can draw on has a marker naming one of the known sets. |
| PublicationProgress.FaultlessRunPublishes | backend/app/operations/backup.py:1766-1869 | From any state a run can be in, if the names it will create are free and no call fails, the set gets published under its own instant. |
| PublicationProgress.EmptyRootIsAtRest | backend/app/operations/backup.py:1744-1766 | What these runs start from exists: an empty root will do for every allowed job. |
| BackupRoot.PowerCutKeepsMarker | backend/app/operations/backup.py:1340-1344 | When no mixture of the unsynced entries can hold a marker without its set, no power loss can leave one, and a marker every view has survives. |
| BackupRoot.MarkerIsAccepted | backend/app/operations/backup.py:1220-1278 | A marker that names a complete set is accepted by the writer's check and by the independent reader alike. |
| BackupRoot.ReadersAgreeExactly | backend/app/operations/backup.py:1487-1603 | The independent reader accepts exactly those markers the writer accepts that are a copy of the metadata in the set they name. |
| BackupRoot.TrustIsBound | backend/app/operations/backup.py:1384-1421 | What makes a set trusted is its own: it is trusted under no other name, not after a change to its manifest or its metadata alone, and not before both are written. |
| PublicationSafety.PromoteKeeps | backend/app/operations/backup.py:1340 | Renaming the partial set keeps every possible marker backed, because no marker that could surface names it yet. |
| PublicationSafety.SyncPromotedKeeps | backend/app/operations/backup.py:1341 | After this sync the set is in every view a power loss can draw on; only then may the marker name it. |
| PublicationSafety.SwapKeeps | backend/app/operations/backup.py:1343 | Either marker, the old or the new, is backed in every view a power loss can draw on. |
| PublicationSafety.ReplaceRollbackKeeps | backend/app/operations/backup.py:1313-1314 | Putting the previous marker back is safe because its set is still in every such view. |
| PublicationSafety.DemoteKeeps | backend/app/operations/backup.py:1355-1358 | Taking the set back is safe because by then no marker that could surface names it. |
| PublicationSafety.DeletingKeeps | backend/app/operations/backup.py:1679-1684 | Deleting another set, in part or whole, touches neither the marker nor the set it names. |
| Retaining.ApplyRetention | backend/app/operations/backup.py:1654-1690 | Raises without touching anything unless the current set is trusted and the marker is its own metadata. Otherwise it deletes exactly the doomed sets, returns their number and leaves every other entry as it was; if it raises on the way, only doomed sets have been touched. It does not raise if no call fails. |
| Retaining.RemoveSet | backend/app/operations/backup.py:1632-1651 | Removes the next doomed set, possibly in pieces; if it fails, which takes a failing call, retention stops. |
| Retaining.SortNewestFirst | backend/app/operations/backup.py:1656-1660 | The candidates by name, newest first. |
| Retaining.DroppedAreDoomed | backend/app/operations/backup.py:1676-1681 | Skipping the kept names while going through the candidates deletes the doomed sets, in order. |
| Retaining.DeleteAll | backend/app/operations/backup.py:1678-1690 | The count is the number of doomed sets, and the root is synced exactly if something was deleted; it raises only if a call failed. |
| Retention.KeepsCurrentAndNewest | backend/app/operations/backup.py:1676-1682 | The current set is kept whatever its date, the kept others are newer than every deleted one, and max(0, n - retention) sets are deleted. |
| Retention.DoomedStaysDoomed | backend/app/operations/backup.py:1654-1690 | A set given up once is given up again by any later run that retains no more, as long as the sets kept then are still there. |
| Retention.DescendingIsUnique | backend/app/operations/backup.py:1656-1660 | A list in descending name order is determined by its members. |
| SetNames.NameOrderIsTimeOrder | backend/app/operations/backup.py:1693-1700 | The text order of set names is the order of their instants to the microsecond, then of their nonces. |
| SetNames.TextIsInjective | backend/app/operations/backup.py:1757-1761 | Different instants or nonces give different set names. |
| SetNames.KeptAreNewer | backend/app/operations/backup.py:1654-1700 | Retention by name is retention by time: every kept set but the current one is from a later instant than every deleted one, or from the same instant with a later nonce. |
| TreeRemoval.Files.RemoveSafeTree | backend/app/operations/backup.py:1632-1651 | Nothing outside the directory is touched; true means the whole set is gone; a safe trusted set is removed completely if and only if the system refuses none of the calls, so no `rmdir` meets a directory with entries. |
| TreeRemoval.Files.Rmdir | backend/app/operations/backup.py:1643-1648 | Works exactly on an empty directory, unless the system refuses the call. |
| TreeRemoval.Files.List | backend/app/operations/backup.py:1636-1638 | Every entry below the directory once, no entry before a deeper one. |
| TreeRemoval.NothingBelow | backend/app/operations/backup.py:1641-1645 | When an entry's turn comes everything below it is gone. |
| TreeWalk.CopyTree | backend/app/operations/backup.py:946-1065 | On success the records are the depth-first flattening of a tree taken within the call, whose root is the directory the source path leads to when the copy ends, and which the changing world really held, node by node. Whatever the world does: every node was seen before its directory's scan ended and checked after it, within the interval of that directory; every file is at its place in the destination, created and written within the interval of its source; siblings are in name order, no path is recorded twice, every link was followed where its text leads, which is in one of the approved roots, and without approved roots there is no link; files, bytes charged and bytes written equal the records. Every descriptor is closed again on every exit, except the root's exactly when its own charge is refused, which a passed deadline or a used up limit does and nothing else; then no file was charged or written. If the tree is of regular files and directories, nothing changes, no call fails, the deadline is far and the destination is free, then there is no error but that a limit is exceeded, and one is. |
| TreeWalk.WalkStep | backend/app/operations/backup.py:960-1058 | One turn of the loop keeps the stack, the descriptors and the accounts right, and makes progress by a measure over budget and stack; in such a tree it fails for a limit only. |
| TreeWalk.WalkTree | backend/app/operations/backup.py:956-1064 | So does the whole loop, which ends with the finished tree or an error and closes what is open. |
| TreeWalk.ScanTop | backend/app/operations/backup.py:963-970 | First visit of a frame: what the scan finds is charged before any of it is copied. |
| TreeWalk.CopyLeaf | backend/app/operations/backup.py:994-1057 | A file or link is copied, recorded under its own path, and leaves the other frames alone. |
| TreeWalk.VisitLeaf | backend/app/operations/backup.py:994-1057 | A scanned file is copied whenever it is still there, its size is within the limit, its destination is free and no call fails; a link is copied as what it leads to, within the approved roots. |
| TreeWalk.RecordedElsewhere | backend/app/operations/backup.py:994-1010 | The exclusive creation of the current entry finds its place free if the destination was free at the start: no record was made there. |
| TreeWalk.NoneBelow | backend/app/operations/backup.py:960-1058 | No record on the stack lies at or below a name that no finished child has. |
| TreeWalk.EnterChild | backend/app/operations/backup.py:1011-1034 | A directory is entered only if it is still the one the scan saw; a refused one leaves no descriptor. |
| TreeWalk.LeaveTop | backend/app/operations/backup.py:971-992 | A directory is left only if nothing changed in it since it was first seen. |
| TreeWalk.CloseAll | backend/app/operations/backup.py:1059-1064 | The clean-up closes every descriptor that is still on the stack. |
| TreeCopy.CopyDescriptor | backend/app/operations/backup.py:696-747 | Success means the source held exactly the copied bytes from the moment of `expected` until the last check; no byte is written beyond the limit, even while the file grows. If nothing changes and no call fails, a file within the limits is copied to any free destination. |
| TreeCopy.FillSink | backend/app/operations/backup.py:719-734 | The part of it that runs with the destination open: it touches no other file. |
| TreeCopy.CopyChunks | backend/app/operations/backup.py:712-736 | The read and write loop ends because the file limit ends it, and what it copied is a prefix of the unchanged source. |
| TreeCopy.ScanDirectory | backend/app/operations/backup.py:787-813 | Entries in name order; if the directory did not change they are its whole listing; the budget grows by exactly what they weigh. A quiet directory of regular files and directories is refused only if it exceeds a limit. |
| TreeCopy.ScanEntry | backend/app/operations/backup.py:795-812 | One entry is seen under its name at one moment, admitted by kind and depth, and charged. |
| TreeCopy.ChargeEntry | backend/app/operations/backup.py:795-810 | Which kinds, depths and links are admitted, and what each costs; before the deadline it refuses exactly other kinds, links that are not allowed, and what exceeds a limit. |
| TreeCopy.OpenAbsoluteDirectory | backend/app/operations/backup.py:750-784 | On failure every descriptor it opened is closed again; on success only the last one is open, and it is the directory described. If nothing changes and no call fails, a path of directories opens. |
| TreeCopy.Descend | backend/app/operations/backup.py:756-770 | From the root down: it ends at the directory that walking the names leads to, whenever every name is one of a directory. |
| TreeCopy.DescendInto | backend/app/operations/backup.py:762-776 | One component down: the descriptor above is closed either way. |
| TreeCopy.LeaveDirectory | backend/app/operations/backup.py:971-988 | The check at the end of a frame proves that the directory stood unchanged since its first `stat`. |
| TreeCopy.VisitFile | backend/app/operations/backup.py:1036-1057 | A regular file of a scanned directory held what was copied from its scan to the check after the copy; the copy was made in between. |
| TreeCopy.VisitLink | backend/app/operations/backup.py:840-930 | A link is copied as the regular file it leads to; text, target and target directory were stable while it was; every descriptor is closed again. Its text leads into one of the approved roots. |
| TreeCopy.FollowLink | backend/app/operations/backup.py:864-930 | The target's directory is the one its path leads to at a moment within the copy. |
| TreeCopy.CopyTarget | backend/app/operations/backup.py:864-930 | The part of it that runs with the target's directory open. |
| TreeCopy.ChargeTarget | backend/app/operations/backup.py:866-892 | The link's target is charged before it is opened. |
| TreeCopy.RecheckLink | backend/app/operations/backup.py:894-925 | The checks after the copy prove that link and target stood throughout. |
| Links.ApprovedTarget | backend/app/operations/backup.py:816-837 | A target is approved exactly if its text has the allowed form and normalises to a path in an approved root. |
| Links.JoinedIsTarget | backend/app/operations/backup.py:828-836 | For allowed texts the normalised path is where the kernel goes: normalising cancels no name. |
| Links.PlainTextsAreAllowed | backend/app/operations/backup.py:816-836 | Texts that climb and then descend by names, and absolute paths of names, are allowed, and where they lead. |
| CopySources.CopyFile | backend/app/operations/backup.py:1068-1100 | One file under the budget: the inode that had the given name in the directory the parent's path leads to, when it was seen and when it was checked; it held the copied bytes all that time, which lies within the call; the descriptors of its parents are closed again. A regular file in a quiet world is copied to a free destination unless that exceeds a limit. |
| CopySources.CopyNamed | backend/app/operations/backup.py:1081-1089 | The open file is copied, and the name still leads to it afterwards. |
| CopySources.ParentStood | backend/app/operations/backup.py:1090-1091 | The last check of the parent proves that its directory stood since it was opened. |
| CopySources.CopyFiles | backend/app/operations/backup.py:1109-1122 | The two files are copied from their sources, one after the other, and stay copied. |
| CopySources.CopyTrees | backend/app/operations/backup.py:1123-1141 | The two trees likewise; at a leak nothing of the refused tree was charged or written. The links of the first lead into the two configured roots, the second has none. |
| CopySources.CopyAll | backend/app/operations/backup.py:1103-1147 | The records are those of the four sources, each copied from its own path within the call and in the destination at the end. Over all sources the files and bytes charged are the number and the size sum of the records, and what was written. No path is recorded twice. On every exit the descriptors are those of before, unless the charge for the root of one tree was refused by the deadline or the limit, before anything of that tree was charged or written. With all four sources there and quiet, no failing call and a free destination, the only error is that a limit is exceeded. |
| CopySources.RecordDump | backend/app/operations/backup.py:1150-1174 | The dump is charged and read to its end; it held these bytes from its stat to the last check. A quiet dump that is not empty is refused only for a limit. |
| CopySources.CollectRecords | backend/app/operations/backup.py:1764-1832 | Under a new budget: the dump held its recorded bytes until its check, the other records are those of the four sources, copied after that; the files and bytes charged are exactly the number and the size sum of the manifest's records, and the manifest names every path once. With everything there and quiet and no failing call it fails only for a limit. |
| CopyHost.Budget.AddFile | backend/app/operations/backup.py:164-175 | No error only if the file and total limits still hold. |
| CopyHost.Budget.AddDirectory | backend/app/operations/backup.py:177-181 | Fails exactly when the limit is used up or the deadline has passed. |
| CopyHost.Budget.ReserveFile | backend/app/operations/backup.py:158-162 | A link costs one file when it is scanned. |
| CopyHost.Budget.CheckCopySize | backend/app/operations/backup.py:183-190 | A growing file is stopped before a byte beyond the limits is written. |
| CopyFrames.StackIsBounded | backend/app/operations/backup.py:946-1034 | The stack never holds more than max depth + 1 frames. |
| CopyFrames.PopStep | backend/app/operations/backup.py:971-992 | Leaving a directory makes its subtree a child of the frame below and keeps all records. |
| CopyFrames.PushStep | backend/app/operations/backup.py:1022-1034 | Entering a directory keeps the stack. |
| CopyFrames.LeafStep | backend/app/operations/backup.py:994-1010 | Copying a leaf appends exactly its record to what the frames have made. |
| CopyFrames.FrameIsTree | backend/app/operations/backup.py:971-988 | A finished frame whose directory stood unchanged is a faithful subtree. |
| CopyFrames.SortingOrders | backend/app/operations/backup.py:813 | Scanned entries come out in strict name order. |
| Snapshot.EachFileOnce | backend/app/operations/backup.py:955-1065 | The records of a tree with sorted directories name every non-directory entry once. |
| Snapshot.FaithfulIsSorted | backend/app/operations/backup.py:787-813 | A faithful tree has its siblings in name order throughout. |
| Snapshot.QuietWorldFixesRecords | backend/app/operations/backup.py:946-1065 | If nothing changes, any two faithful copies of a directory whose links were followed where they lead have the same records. |
| Snapshot.QuietCopiesAgree | backend/app/operations/backup.py:946-1065 | So if nothing changes, any two successful copies of one source path have the same records. |
| Snapshot.CopiedIsKept | backend/app/operations/backup.py:712-716 | As files are created exclusively, what one copy has placed stays as it is through all later ones. |
| Snapshot.NoRootsNoLinks | backend/app/operations/backup.py:795-800 | What is confined to no roots at all has no link. |
| FileWorld.StampFreezes | backend/app/operations/backup.py:657-693 | If every change leaves a new stamp, two equal stats freeze everything between them. |
| AttemptLoop.Run.Execute | worker/app/runner.py:229-460 | Only turns that can dispatch and turns in which nothing completes keep the loop going: it is followed until its log shows more of one kind than asked for, and every other turn brings its end nearer. Every run produces a proper log; at a report the counters, the summary and the log agree, success is reported exactly for a log that ends with its first success, and otherwise everything dispatched was answered, raised or refused. |
| AttemptLoop.Run.Turn | worker/app/runner.py:262-385 | One turn, with that outcome, counted in the log by whether it could dispatch and whether anything completed; a turn that could not dispatch leaves fewer attempts pending by those it saw complete, and with none pending it ends the run. |
| AttemptLoop.Run.Schedule | worker/app/runner.py:263-300 | Polls exactly when a poll is due by the reading at the head of the turn, and dispatches everything that is due: it ends only stopped, late, paused, full, or before the next due time. |
| AttemptLoop.Run.Adopt | worker/app/runner.py:267-274 | The answered rate, never below zero, is in force at once with its interval and limit; the schedule restarts one interval from now exactly when the change is not negligible. |
| AttemptLoop.Run.Poll | worker/app/runner.py:266-276 | One poll adopts one rate, asks to stop exactly when control ended the run, and sets the next poll half a second after the reading it began with. |
| AttemptLoop.Run.Dispatch | worker/app/runner.py:282-292 | Nothing is dispatched once stopping was asked for or the window was seen closed, and dispatching ends only for one of the reasons the loop tests. |
| AttemptLoop.Run.StartAttempt | worker/app/runner.py:290-291 | One more pending attempt, dispatched under the rules; the next is due one interval after this one was due. |
| AttemptLoop.Run.Handle | worker/app/runner.py:313-385 | A completed attempt is counted in exactly one way; the first success ends the run. |
| AttemptLoop.Run.HandleAll | worker/app/runner.py:313-385 | Completed attempts are looked at in any order until one succeeds. |
| AttemptLoop.Run.HandleAnswer | worker/app/runner.py:329-373 | Counts, window, samples and last error after an answer are those of the log. |
| AttemptLoop.Run.HandleRaised | worker/app/runner.py:316-321 | The same after an exception. |
| AttemptLoop.Run.HandleRefused | worker/app/runner.py:323-327 | The same after a refused permit; a refusal that says so stops the run. |
| AttemptLoop.Run.Prune | worker/app/runner.py:278-280 | The pruned window is the list of answers at most one second old, and its length is the rate. |
| AttemptLoop.Run.PruneNow | worker/app/runner.py:366-369 | The same with a new clock reading for every test. |
| AttemptLoop.Run.Conclude | worker/app/runner.py:387-460 | At an end without success nothing is pending, so the drain has nothing to do, and the three counts add up to what was dispatched. |
| AttemptLoop.Run.Begin | worker/app/runner.py:262-264 | The head of a turn: one reading of the clock, by which a poll is due exactly from its time on, and one of the window. |
| AttemptLoop.Run.Wait | worker/app/runner.py:303-311 | The attempts that completed are no longer pending and wait to be looked at; the turn is counted. |
| AttemptLoop.Run.EveryDispatchIsAccountedFor | worker/app/runner.py:263-300 | At every loop head everything dispatched is pending, answered, raised or refused. |
| AttemptLoop.Run.Summarize | worker/app/runner.py:349-363 | Total attempts equal the sum of the status counts. |
| Pacing.RateBound | worker/app/runner.py:201-292 | For any completions, stalls and rate changes, the dispatches made by any time are at most one more than that time pays for, each stretch between restarts at its shortest interval. |
| Pacing.StretchBound | worker/app/runner.py:267-292 | Between two restarts at most the time since the first over the shortest interval in force, and one more before any restart: unused time is not carried over. |
| Pacing.PaceIsKept | worker/app/runner.py:244-292 | At every point of every log the next due time is paid for, in its stretch and in all. |
| Pacing.DispatchKeepsPace | worker/app/runner.py:291 | Adding the interval in force keeps the next due time behind what was dispatched. |
| Pacing.AdoptingKeepsPace | worker/app/runner.py:269-272 | So does a rate change, restarted or not. |
| SumBound.SumBoundsExactly | worker/app/runner.py:201-292 | 1 + the sum over constant stretches of length over interval bounds the dispatches of every run between two rates if and only if the rates have the same interval or differ by more than the restart threshold. |
| SumBound.DispatchesAreCovered | worker/app/runner.py:201-292 | The bound for runs of any number of rates all of whose changes are of that kind. |
| SumBound.AllowanceIsTheSum | worker/app/runner.py:267-272 | On such runs the sum is what the time pays for. |
| SumBound.SmallRiseBeatsTheSum | worker/app/runner.py:271-272 | For any smaller rise: a log the loop can write, polls included, that beats the sum. |
| SumBound.SmallDropBeatsTheSum | worker/app/runner.py:271-292 | For any smaller drop: another, that dispatches on time at the old rate until the poll after the drop. |
| SumBound.RateItselfBoundsExactly | worker/app/runner.py:201-211 | 1 + time at the planned rate bounds the dispatches of every run that stays at it if and only if the rate is zero or at least 0.1. |
| SumBound.KeepsUpExactly | worker/app/runner.py:244-292 | A run at a constant rate that has made every dispatch due by a time has made one at its start and exactly one for every interval since; the interval is ten seconds at most. |
| SumBound.DueAtConstantRate | worker/app/runner.py:290-292 | At a constant rate the n-th dispatch is due n intervals after the start. |
| Pacing.ConcurrencyBound | worker/app/runner.py:201-211 | Attempts in flight never exceed the configured maximum, at any point of any log. |
| Pacing.ConcurrencyFitsTheRate | worker/app/runner.py:204-210 | The limit is the least whole number of attempts that holds the multiplier's seconds of dispatches at the rate, counted as one a second at least; cut off at the maximum, and never below one. |
| Pacing.LimitKeepsTheRate | worker/app/runner.py:201-292 | If every attempt ends within the multiplier's seconds and the maximum is not reached, the limit holds a dispatch back only after as many dispatches in that time as the rate asks for. |
| Pacing.NoDispatchAfterStop | worker/app/runner.py:282-288 | No dispatch follows a stop. |
| AttemptLog.EveryAttemptIsCounted | worker/app/runner.py:313-330 | Finished attempts are the answered, the raised and the refused; every answer has a time, every answer and exception a sample. |
| AttemptLog.RecentIsASuffix | worker/app/runner.py:278-280 | The answers of the last second are what is left after dropping the old ones from the front. |
| AttemptLog.EndsOfARun | worker/app/runner.py:80-81 | Success is one of two status codes, and a refusal stops the run exactly if it begins with `stop:` in letters of either case. |
| AttemptLog.CountsAddUp | worker/app/runner.py:41-43 | The values of a dictionary kept by `_add_count` add up to the number of things counted. |
| ResponseSamples.Summary.Record | worker/app/runner.py:46-77 | `first` is the first three of everything recorded, `last` the last three, each status the first three with it, and a status is present exactly if it occurred. |
| RdapPool.Pool.Run | tools/candidate_harvester/candidate_harvester.py:400-457 | For every completion order: at the end each submitted domain was looked at once, what is written is the first accepted results in that order up to the limit, and the limit was reached or nothing is left to submit. It is followed until more waits than asked for have timed out; every other turn brings its end nearer. |
| RdapPool.Pool.Turn | tools/candidate_harvester/candidate_harvester.py:437-456 | A turn either times out or, with its completions processed and the pool refilled, has less left to do. |
| RdapPool.Pool.Wait | tools/candidate_harvester/candidate_harvester.py:438 | What completed leaves the pending ones, and the wait is recorded with its number. |
| RdapPool.Pool.SubmitNext | tools/candidate_harvester/candidate_harvester.py:420-432 | The next domain of the source is submitted; the submitted domains are a prefix of the source, never longer than the maximum number of checks. |
| RdapPool.Pool.Refill | tools/candidate_harvester/candidate_harvester.py:434-455 | Ends with the pool full, the limit reached or nothing left; the refill at the start does not look at the limit. |
| RdapPool.Pool.Process | tools/candidate_harvester/candidate_harvester.py:460-484 | Every completed result is looked at once, in any order. |
| RdapPool.Pool.ProcessOne | tools/candidate_harvester/candidate_harvester.py:472-483 | Counted by lifecycle, shown for debugging up to its limit, written if accepted and still wanted. |
| RdapPool.Pool.Drained | tools/candidate_harvester/candidate_harvester.py:436-457 | Written is the smaller of the limit and the number of accepted results. |
| RdapPool.AcceptedExactly | tools/candidate_harvester/candidate_harvester.py:503-523 | Only accepted lifecycles; and in redemption, if a bound is given, only a known number of days within every bound. |
| Reservoir.Collect | tools/candidate_harvester/candidate_harvester.py:526-547 | The sample kept by the loop is the one of the stream positions that the draws determine; with at most as many entries as places it is all of them. |
| Reservoir.EverySampleIsEquallyLikely | tools/candidate_harvester/candidate_harvester.py:538-545 | Counting all outcomes of the draws: every set of k of the n positions is the final sample in the same number of runs. |
| Reservoir.EveryPositionIsEquallyLikely | tools/candidate_harvester/candidate_harvester.py:538-545 | Each of the n positions is in the sample in k of every n runs. |
| Reservoir.SampleIsDistinct | tools/candidate_harvester/candidate_harvester.py:538-545 | A sample holds k different positions of the stream. |
| Reservoir.OutcomesAreTheValidDraws | tools/candidate_harvester/candidate_harvester.py:543 | The outcomes counted are exactly the sequences of values that `randrange` can return. |
| AlertRuns.Monitor.RunAlertCycle | backend/app/operations/watchdog.py:259-309 | One cycle, with its saves and its message failing in any way, is a step of the run; it raises exactly for a code that is not allowed or a save that failed, and otherwise returns the state that is in the file. |
| AlertRuns.Monitor.Turn | backend/app/operations/watchdog.py:268-309 | Which messages are attempted, what is saved, when it raises and what it returns, branch by branch. |
| AlertRuns.Monitor.Deliver | backend/app/operations/watchdog.py:299-309 | The pending state is saved before the message is sent, the told state after it was acknowledged. |
| AlertRuns.Monitor.Save | backend/app/operations/watchdog.py:158-198 | A save fails before or after the file is replaced. |
| AlertRuns.FailureNeedsTwoCycles | backend/app/operations/watchdog.py:272-285 | In any run with failing saves and damaged files: a failure is reported only if the last cycle on record saw the same set of codes and was not reported. |
| AlertRuns.RecoveryNeedsAFailure | backend/app/operations/watchdog.py:286-294 | A recovery is attempted only after an acknowledged failure that no recorded healthy state has followed. |
| AlertRuns.RecoveriesNeedFailures | backend/app/operations/watchdog.py:299-309 | Acknowledged recoveries are at most the acknowledged failures and the recoveries whose recording was lost. |
| AlertRuns.RecoveriesNeverOutnumberFailures | backend/app/operations/watchdog.py:299-309 | If no recording is lost they never outnumber the failures, in any prefix. |
| AlertRuns.UnheardIsRetried | backend/app/operations/watchdog.py:273-277 | A message that is not acknowledged is attempted again on every further cycle with the same codes whose first save works. |
| AlertRuns.HeardIsNotRepeated | backend/app/operations/watchdog.py:274-275 | Once acknowledged and recorded, cycles with the same codes send nothing and leave the file alone. |
| AlertRuns.SecondCycleReports | backend/app/operations/watchdog.py:272-285 | Two cycles with the same problems attempt a report exactly unless the file holds the report of some failure. |
| AlertRuns.FailureIsReportedExactly | backend/app/operations/watchdog.py:272-285 | A cycle attempts a report if and only if the file holds the same problems, not yet reported, and the pending state was saved. |
| AlertRuns.RecoveryIsAnnouncedExactly | backend/app/operations/watchdog.py:286-302 | A cycle attempts a recovery message if and only if it is healthy, the file owes one and the pending state was saved. |
| AlertRuns.ReportedStays | backend/app/operations/watchdog.py:272-285 | A reported failure stays reported through every unhealthy cycle, whatever its codes and saves, and sends nothing. |
| AlertRuns.ReportedFailureIsFollowedUp | backend/app/operations/watchdog.py:259-309 | Over histories: after an acknowledged and recorded failure the first healthy cycle whose state gets saved announces the recovery, however many problems come and go in between. |
| AlertRuns.HealthyCycleSettles | backend/app/operations/watchdog.py:286-309 | A healthy cycle whose calls all work leaves the healthy state, with nothing owed. |
| AlertRuns.PendingRecoverySurvivesExactly | backend/app/operations/watchdog.py:283-309 | A recovery that is not yet acknowledged stays owed through a cycle if and only if the cycle records nothing, or it is healthy and its message is not both acknowledged and recorded as such. |
| AlertRuns.NewProblemDropsTheRecovery | backend/app/operations/watchdog.py:283-290 | A problem that comes while a recovery is not yet acknowledged, and clears before it is reported, takes the recovery with it. |
| AlertRuns.UnrecordedRecoveryRepeats | backend/app/operations/watchdog.py:307-308 | A recovery whose recording was lost is announced again. |
| AlertRuns.FileIsLastRecorded | backend/app/operations/watchdog.py:121-138 | What the file reads as is what the last undamaged recording cycle saved, for the codes of that cycle. |
| Watchdog.SavedStateIsReadBack | backend/app/operations/watchdog.py:121-166 | A state read back is the state saved. |
| Watchdog.StateDependsOnTheSet | backend/app/operations/watchdog.py:106-118 | The state depends on the set of codes only. |
| Watchdog.SortedSetIsCanonical | backend/app/operations/watchdog.py:111-112 | Lists with the same codes sort to the same tuple, and a sorted tuple to itself. |
| DiscoveryBoard.Board.Enqueue | backend/app/services/discovery_worker_runtime.py:68-122 | One queued task for each of the first due domains without an active one, each for the least loaded worker of its moment; still at most one active task a domain. |
| DiscoveryBoard.Board.HandOut | backend/app/services/discovery_worker_runtime.py:106-121 | The choices are greedy: fewest open tasks, then lowest id. |
| DiscoveryBoard.Board.PickWorker | backend/app/services/discovery_worker_runtime.py:108 | The least worker by open tasks and id. |
| DiscoveryBoard.Board.CountOpen | backend/app/services/discovery_worker_runtime.py:98-104 | The open tasks of every worker. |
| DiscoveryBoard.Board.Expire | backend/app/services/discovery_worker_runtime.py:45-65 | Fails exactly the active tasks assigned before the cut-off and returns their number: no active task that old remains, and nothing else changes; still at most one active task a domain. |
| DiscoveryBoard.Board.TakeResult | backend/app/api/routes/worker_runtime.py:598-608 | A result, however late, ends its own task and leaves a task that replaced it alone; it is refused exactly for a task that is not there or belongs to another worker. |
| DiscoveryBoard.Board.Acknowledge | backend/app/api/routes/worker_runtime.py:578-597 | Acknowledging starts a queued task, notes the time, leaves an active task active and changes no other; it is refused exactly for a task that is not there or belongs to another worker. |
| DiscoveryBoard.SelectedAreFree | backend/app/services/discovery_worker_runtime.py:83-93 | The selected domains are different, due and free, and one is passed over only when the batch is full. |
| DiscoveryBoard.NewTasksKeepOneActive | backend/app/services/discovery_worker_runtime.py:78-121 | Tasks for different free domains keep at most one active task a domain, and make one for each. |
| DiscoveryBoard.BatchIsBalanced | backend/app/services/discovery_worker_runtime.py:106-121 | Every worker that got a task ends with at most one open task more than any other eligible worker. |
| DiscoveryBoard.BatchIsOptimal | backend/app/services/discovery_worker_runtime.py:106-121 | No other way of handing out as many tasks has a lower highest number of open tasks. |
| Allocation.GreedyIsOptimal | backend/app/services/discovery_worker_runtime.py:106-121 | Whatever level another assignment stays within, the greedy one stays within. |
| Allocation.ChosenStayLow | backend/app/services/discovery_worker_runtime.py:106-121 | Chosen workers end at most one above any eligible worker. |
| Allocation.OrderDoesNotMatter | backend/app/services/discovery_worker_runtime.py:108 | The choices depend on the set of eligible workers and their loads only. |
| AccessKeys.Reconcile | frontend/src/vpnCustomerWorkspace.ts:104-123 | The loop keeps exactly the overrides that no key of the snapshot settles. |
| AccessKeys.ReconcilingShowsTheSameExactly | frontend/src/vpnCustomerWorkspace.ts:52-123 | No shown name or link changes if and only if the entries of the snapshot with the same id all settle the override of that id or none of them does. |
| AccessKeys.ReconcilingShowsTheSame | frontend/src/vpnCustomerWorkspace.ts:52-123 | In a snapshot without repeated ids no shown name or link changes, and the override of a listed key is dropped exactly when it makes no difference to them. |
| AccessKeys.ReconcilingIsIdempotent | frontend/src/vpnCustomerWorkspace.ts:104-123 | Reconciling again changes nothing. |
| AccessKeys.UnlistedAreKept | frontend/src/vpnCustomerWorkspace.ts:104-123 | Overrides of keys that are not listed are kept. |
| AccessKeys.RepeatedIdsMayShowOther | frontend/src/vpnCustomerWorkspace.ts:109-120 | With a repeated id it may change what is shown. |
| AccessKeys.NewerMeansLater | frontend/src/vpnCustomerWorkspace.ts:68-102 | On timestamps of the backend's form the string comparison is the comparison of instants, to the nanosecond and across offsets, whether or not `Date.parse` lets a day run past the end of its month. |
| AccessKeys.ShownIsLatest | frontend/src/vpnCustomerWorkspace.ts:52-102 | Of the listed and the locally changed version the one of the later instant is shown, the local one if they are of the same. |
| Timestamps.TextIsRead | frontend/src/vpnCustomerWorkspace.ts:67-84 | Reading a timestamp gives back every field that was written. |
| Timestamps.FieldsAreInPlace | frontend/src/vpnCustomerWorkspace.ts:67-68 | Year, month, day, hour, minute and second, from the left, at fixed places. |
| Timestamps.SecondsAreCounted | frontend/src/vpnCustomerWorkspace.ts:75 | Each tick of a clock, over the ends of minutes, hours, days, months and years, is one second more, from 0 at the start of 1970. |
| Timestamps.MidnightIsNextDay | frontend/src/vpnCustomerWorkspace.ts:75 | Hour 24 is the first second of the next day. |
| Timestamps.ZonesShift | frontend/src/vpnCustomerWorkspace.ts:75 | A clock ahead of UTC by hours and minutes shows a time that many seconds earlier than the same fields in UTC, one behind a later one; no zone means UTC. |
| Timestamps.FractionsCount | frontend/src/vpnCustomerWorkspace.ts:79-82 | A padded fraction counts nanoseconds. |
| Timestamps.DigitOrderIsValueOrder | frontend/src/vpnCustomerWorkspace.ts:92 | Padded fractions compare like their values. |
| Timestamps.DaysAreCounted | frontend/src/vpnCustomerWorkspace.ts:75-78 | The day numbers behind the instants: each day one more than the day before, 0 on 1970-01-01. |
| Timestamps.DaysRunOn | frontend/src/vpnCustomerWorkspace.ts:75-78 | A day past the end of its month is as many days into the next. |

## Left out

- AttemptLoop.Run.Execute: the source has no bound on turns; the model follows the loop until its log shows more than given
  numbers, any numbers, of turns that could dispatch or of turns in which nothing completed. At a success the attempts that completed in the same
  wait and were not yet looked at are in none of its counts, as in the source.
- RdapPool.Pool.Run: is followed until more than a given number of waits, any number, have timed out; the source waits on.
- TreeWalk.CopyTree: the frames are values in a local sequence, and a frame carries the moments it was opened and scanned,
  which the program does not record. Where an absolute path leads is any function of the file system and the path. That a
  copy succeeds is claimed for trees of regular files and directories in a file system that does not change, with no call
  failing, the deadline far and the destination free, and up to the limits; there is no such claim for trees with links.
- Retaining.RemoveSet: a set removed in part has any contents, whichever entries were deleted; that the deletion itself
  is complete is proved in `TreeRemoval`, of the tree below the set.
- TreeCopy.VisitLink: that the link itself stood still depends on the directory it is in, which is checked only when its
  frame is left; so its part of the snapshot is claimed once that check has passed.
- AccessKeys.NewerMeansLater: for texts of other forms `Date.parse` is an arbitrary function.
- DiscoveryBoard.Board.TakeResult: the observation, the update of the domain and the notification are not modelled.
- Watchdog.SavedStateIsReadBack: JSON text, file permissions and the size limit of the state file are not modelled.
- Running the database dump, process limits, file modes and ownership, ancestor checks and the lock: one creator at a time
  is assumed; whether the checks before and after publication pass is not modelled.
- Hashes are taken as injective, and printing and parsing of JSON as inverse; metadata size limits, the pattern for set
  names beyond its fixed-width fields and deadline arithmetic are not modelled (a deadline may pass at any check).
- `close` and `fstat` on an open descriptor are taken not to fail in the tree copy.
- Timeouts, heartbeats and progress reports of the attempt loop, and exceptions of control calls inside it, which end
  the run without a report; the time of day in samples is left out.
- The checks of a domain against RDAP, the permit service and the message services: any answer is possible.
- Discovery queries: the due domains are an arbitrary sequence without repetition; concurrent transactions on the task
  table, observations and notifications are left out.
- `_inspect_latest_success_fd` reads through descriptors of the root; the model reads one view of it.
- Domain scoring, lifecycle classification tables, readiness checks, settings, schemas and the user interface.
