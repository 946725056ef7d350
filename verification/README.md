# LZCore storage and job protocols, verified

A Dafny model of the crash-tolerant protocols in LZCore's storage and job layers. Persistent state is a
value, each atomic save, rename, copy or unlink is one step, and a crash is stopping between any two steps.
For each protocol there are

* a specification: the list of single writes an operation makes, as a function of the state it finds;
* theorems about every prefix of that list, every run, every link graph, every writer, every schedule;
* the operation itself, as a class whose fields are rewritten in place and whose methods are proved to perform
  exactly that list, or as a method with the loop the program has.

Verify everything with `dafny verify dfyconfig.toml`.

| files | protocol |
|---|---|
| `MemoryGraph`, `MemoryLifecycle`, `MemoryConfirm`, `MemoryGate`, `MemoryStore`, `MemoryService`, `MemoryRuns`, `MemoryFindings` | memory revisions: a link graph, retrieval derived by reachability, saves one record at a time |
| `FileIndex` | the JSON-lines file index behind a last-wins view |
| `FileSettlement`, `FileReconcile`, `FileMutation`, `FileWorkspace` | managed file mutation: snapshot, intent, arbitrary writer, settlement, reconciliation |
| `DirectoryTree`, `Restore`, `RestoreRun`, `RestoreService` | journaled restore at start-up |
| `Migration`, `MigrationRun`, `MigrationChanges`, `MigrationService` | journaled migration of legacy directories |
| `JobExecution`, `JobService` | job execution under an adversarial queue |
| `TurnRegistry`, `TurnClaims`, `TurnRuns`, `TurnFindings`, `TurnService` | idempotency keys and turns of a session |
| `TemplateLexer`, `TemplateParser`, `TemplatePrinter`, `TemplateRoundTrip`, `TemplateRender` | the prompt template language |
| `FilePaging` | keyset paging over changing files |
| `ArchiveSearch` | the rebuildable search index over compaction archives |
| `FileLocking`, `LockService`, `LockFindings` | the re-entrant lock over threads and processes |
| `CodingRecords` | coding records under revision compare-and-swap |

## What is assumed

* SHA-256, its 128-bit checkpoint prefix included, is injective: a digest is represented by what it was computed from.
* An atomic write, a rename, an unlink, a mkdir and one `copy2` of one file are single steps. (`copy2` is not
  atomic in fact: a restore stopped inside one leaves a short credential file which the next start skips.)
* Generated ids are new. Code under a file lock or session lock is one step with respect to other code under it;
  the look and the update of `update_session_turn_stage` and of `finish_session_turn_snapshot` are one step. Job
  updates that take no session lock (attaching a run, restoring a session, the job manager, workers) are taken to
  fall between the claims, finishes, closings and attachments of a session, not between two writes of one of them.
* Clocks, directory order, secret and redaction patterns, the consolidation decision and what other processes do
  in the meantime are parameters, and the theorems hold for all of their values.
* During a file mutation no other intent is pending and no commit is pending when it starts; the writer may do
  anything to any file except the kept copies.
* Between starts nobody else changes the directories of a restore or a migration, except where a theorem says so.
* A registry file holds the record of the key it is named after. A session's jobs are all listed (a workspace has at most 500) and the job snapshot is created.

## What turned out not to hold

* Deleting a memory record can, stopped before its last write, bring an old record back: the guard also cleans up
  for a record that is itself replaced and not in force, and expires the nearest ancestors first, although it is one
  of those that keeps a farther one out. `DeleteNoRevival` gives the exact condition, `DeletionCanRevive` a run.
* Confirming a revision leaves a gap after its first save exactly when the links of the record it takes over from
  lead back to it (`ConfirmNoGap`). A run gets there if a new id is one that a stored record of low value already
  names (`ConfirmCanLeaveGap`); while every new id is one that no stored record has or names it never happens
  (`NoGapInRuns`).
* A restore raises at every start, for ever, exactly when the payload has a file where the original has a folder
  with credentials below it; the original stays in the recovery folder (`RestoreConverges`, `ClashExists`).
* A line of the file index that is JSON but not an object fails reading, updating, deleting and compacting;
  malformed and blank lines do not (`IndexFile.ReadRecords`).
* The size of an unchanged referenced file is not looked at by settlement, so a wrong one stays wrong
  (`SettledPathHasOneOwner`, `WrongSizeStays`).
* A retry that is decided while another is decided and unwritten breaks the retry limit, and nothing else does
  (`RetryLimitExactly`, `OverlappingRetriesExceedLimit`).
* An update written after the job has changed can be against the transition table: `LateWriteTable` lists the
  statuses for each operation, `OvertakenLeavesTable` says which operations this can happen to, `LateWriteLeavesTable`
  shows a failed job becoming succeeded. A forced retry is against it on four statuses even when nothing comes
  between (`FreshDecisionFollowsTable`), and so is the soft deletion of a succeeded job (`LockedStepsFollowTable`).
* Setting a job running with its old turn still marked running, while another job of the session has an open turn,
  makes two open turns (`RestartedJobMayReopen`, `AtMostOneOpenTurn`). A claim makes sure; attaching a run
  (jobs/lifecycle.py:662) and restoring a session (backend/api/session_routes.py:282) do not (`TwoTurnsOpen`).
* Of the identity fields of a coding record exactly the five that a candidate fills in while it is being built can
  change (`IdentityChangesExactly`): by one update exactly while it is being built (`OneUpdateExactly`), and since
  any update may set its state back to building, by two otherwise (`ReopenedCandidateChanges`).
* The lock excludes other processes only if the outermost entry of a key is exited last (`OutOfOrderExit`); after an
  exit out of order two processes can be inside (`OutOfOrderLetsTwoIn`).

## Model

| member | source | states |
|---|---|---|
| `MemoryGraph.AncestorsAreReachable` | storage/memory_governance.py:348-360 | On any link graph, cycles included, the ancestor walk returns exactly the records the links reach without leaving the ownership domain or coming back to the start; none twice |
| `MemoryGraph.AncestorOrder` | storage/memory_governance.py:348-360 | An earlier ancestor of a record reaches every later one through its own links |
| `MemoryGraph.AncestorsCover` | storage/memory_governance.py:348-360 | The ancestor list is closed: whatever a listed record replaces is listed as well, or is the record itself |
| `MemoryGraph.SupersededActive` | storage/memory_governance.py:363-374 | An active record is out of retrieval exactly when some other active record reaches it by links |
| `MemoryGraph.RetrievableIsShown` | storage/memory_governance.py:376-391 | Retrieval restated without the chain walk: retrievable means live and not reached by any other active record |
| `MemoryGraph.RemovalBreaks` | storage/memory_governance.py:282-299 | Removing a record leaves every link path that did not run through it |
| `MemoryLifecycle.RetireAllPrefix` | storage/memory_governance.py:698-704 | An interrupted clean-up has expired the active ancestors up to some point of the chain and no others |
| `MemoryLifecycle.RetiredKeepsHidden` | storage/memory_governance.py:698-704 | While the record whose ancestors are being expired is in force, no interruption point uncovers anything |
| `MemoryLifecycle.RetireStates` | storage/memory_governance.py:675-689 | The store after each prefix of the writes of a rejection or expiry |
| `MemoryLifecycle.RetireNoRevival` | storage/memory_governance.py:675-689 | For every link graph and every prefix of the saves of `reject_memory` and `expire_memory`, no other record becomes retrievable that was not before |
| `MemoryLifecycle.DeleteStates` | storage/memory_governance.py:282-299 | The store after each prefix of the writes of a deletion |
| `MemoryLifecycle.DeleteCompletes` | storage/memory_governance.py:282-299 | A deletion that runs to its end makes nothing else retrievable, for every link graph |
| `MemoryLifecycle.DeletePrefixNoRevival` | storage/memory_governance.py:282-299 | No prefix of a deletion makes anything else retrievable, outside the unsafe states |
| `MemoryLifecycle.UnsafeDeletionRevives` | storage/memory_governance.py:282-299 | In every unsafe state some prefix of the deletion makes another record retrievable; the lemma returns the prefix |
| `MemoryLifecycle.DeleteNoRevival` | storage/memory_governance.py:282-299 | Every prefix of a deletion is free of revivals if and only if the deleted record is active, or not replaced, or none of its live replaced ancestors is replaced only by nearer ancestors |
| `MemoryConfirm.OneRetrievablePerChain` | storage/memory_governance.py:363-391 | Of the ancestors of any record at most one is retrievable |
| `MemoryConfirm.ConfirmStates` | storage/memory_governance.py:652-664 | The store at every interruption point after the first save of a confirmation: the confirmed record is in force and everything else only loses force |
| `MemoryConfirm.ConfirmNoOverlap` | storage/memory_governance.py:652-664 | From the first save of a confirmation on, no interruption point leaves an ancestor of the confirmed record retrievable |
| `MemoryConfirm.HeldIsTarget` | storage/memory_governance.py:636-638 | An active record that leads back to the one being confirmed is its direct target, or the confirmation is refused as stale |
| `MemoryConfirm.ConfirmNoGap` | storage/memory_governance.py:652-664 | If an ancestor was retrievable, the confirmed record is retrievable at every prefix from the second save on, and already after the first if and only if that ancestor's links do not lead back to it |
| `MemoryGate.FindConflicts` | storage/memory_governance.py:412-431 | Conflict selection returns only visible active or pending records under the same key that nothing has replaced, never the candidate itself |
| `MemoryGate.AdmissibleKeeps` | storage/memory_governance.py:591-594 | A save that the gates allow keeps every record at one active direct replacement at most |
| `MemoryGate.GateAdmissible` | storage/memory_governance.py:453-620 | Every save of `_write_locked`, in every branch, is one that the gates allow when it happens |
| `MemoryGate.ConfirmAdmissible` | storage/memory_governance.py:630-665 | Every save of a confirmation is one that the gates allow when it happens |
| `MemoryGate.RunsAreForkFree` | storage/memory_governance.py:564-575 | In every state reached by any run of writes, confirmations, retirements and deletions, each stopped anywhere, no record has two active direct replacements |
| `MemoryGate.OneDirectReplacement` | storage/memory_governance.py:564-575 | The same said of one record: two active records that directly replace it are the same record |
| `MemoryRuns.RunsAreAcyclic` | storage/memory_governance.py:453-704 | In every state reached by any run, each operation stopped anywhere, no record leads back to itself, if every candidate's id is one that no stored record has or names |
| `MemoryRuns.NoGapInRuns` | storage/memory_governance.py:652-664 | After such a run, confirming a revision one of whose ancestors is retrievable leaves no gap: the confirmed record is retrievable from the first save on |
| `MemoryStore.ViewSuperseded` | storage/memory_governance.py:323-342 | A workspace's own listing decides supersession exactly as the whole store would, because revisions stay inside the ownership domain |
| `MemoryStore.ViewRetrievable` | storage/memory_governance.py:376-391 | A workspace's own listing decides retrieval exactly as the whole store would |
| `MemoryStore.RevisionAncestors` | storage/memory_governance.py:348-360 | The loop over a listing in any order computes the ancestor walk |
| `MemoryStore.MarkReplaced` | storage/memory_governance.py:367-373 | The inner loop adds a replacement for exactly the ancestors up to the first one it may not replace |
| `MemoryStore.SupersededRecords` | storage/memory_governance.py:363-374 | The result has exactly the superseded ids as keys, each mapped to a record that replaces it |
| `MemoryStore.Select` | storage/memory_governance.py:380-390 | The selection loop returns the hits in listing order, cut at the limit when it is positive |
| `MemoryStore.HitsExactly` | storage/memory_governance.py:376-391 | Without a limit, retrieval returns exactly the retrievable records in scope |
| `MemoryStore.MemoryFiles.Get` | storage/memory_governance.py:305-317 | Reading by id returns the record if it is visible to the workspace |
| `MemoryStore.MemoryFiles.ListRetrievable` | storage/memory_governance.py:376-391 | The stored files are listed, derived and filtered to exactly the hits: every result is one, and none is missing unless the limit was reached |
| `MemoryStore.MemoryFiles.RetireRevisionAncestors` | storage/memory_governance.py:698-704 | The saves performed are the clean-up's write list |
| `MemoryStore.MemoryFiles.RetireMemory` | storage/memory_governance.py:675-689 | The saves performed are the retirement's write list; a missing record changes nothing |
| `MemoryStore.MemoryFiles.DeleteFile` | storage/memory_governance.py:282-299 | The saves and the unlink performed are the deletion's write list |
| `MemoryService.IsSuperseded` | storage/memory_governance.py:567-567 | The staleness test agrees with supersession in the whole store |
| `MemoryService.ExpireGroup` | storage/memory_governance.py:660-663 | The conflict group loop performs the group's write list over the listing |
| `MemoryService.ConfirmMemory` | storage/memory_governance.py:630-665 | Replies with the refusal of the checks, or performs exactly the confirmation's write list |
| `MemoryService.WriteMemory` | storage/memory_governance.py:453-620 | Reply and saves of the write gate, branch by branch |
| `MemoryService.GatherConflicts` | storage/memory_governance.py:571-573 | Conflicts under the key plus an active explicit target that is not among them |
| `MemoryService.FindDuplicate` | storage/memory_governance.py:576-589 | The first conflict with the same stripped text |
| `MemoryService.FindNewest` | storage/memory_governance.py:592-592 | The most recently updated conflict, the first listed among equals |
| `MemoryService.ResolveConflicts` | storage/memory_governance.py:590-604 | A user's statement takes over from what it conflicts with; any other candidate becomes a conflict and the active records of the group are marked |
| `MemoryService.Persist` | storage/memory_governance.py:606-614 | The candidate is saved, then an undecided target is rejected, then the ancestors are retired |
| `MemoryFindings.DeletionCanRevive` | storage/memory_governance.py:282-299 | A run from the empty store, with new ids, after which a deletion stopped before its last write brings an old record back |
| `MemoryFindings.ConfirmCanLeaveGap` | storage/memory_governance.py:501-506 | A run in which a candidate of low value, saved with its link unchecked, names the id a later revision gets; confirming that revision, stopped after its first save, leaves neither it nor the rule it revises retrievable |
| `MemoryFindings.RingNeedsNamedId` | storage/memory_governance.py:501-567 | No run with new ids produces that store |
| `FileIndex.ViewDistinct` | storage/index.py:117-145 | The deduplicated view holds each id once and no empty id |
| `FileIndex.AppendRefinesView` | storage/index.py:85-114 | Appending a line takes the id out of the view and puts the record at its end |
| `FileIndex.UpdateRefinesView` | storage/index.py:148-179 | Updating all lines of an id amends its entry in place, and no other |
| `FileIndex.DeleteRefinesView` | storage/index.py:182-206 | Deleting all lines of an id removes its entry and keeps the order of the others |
| `FileIndex.CompactRefinesView` | storage/index.py:209-251 | Compaction removes exactly the entries whose lifecycle is `deleted`, in order |
| `FileIndex.ViewRefinesMap` | storage/index.py:85-251 | Each operation on the ordered view is the operation on the map from id to record |
| `FileIndex.OperationRefines` | storage/index.py:85-251 | One operation on the log is that operation on the view, order included, and on the map; the log stays readable |
| `FileIndex.LogRefinesMap` | storage/index.py:85-251 | Any sequence of append, update, delete and compact on the log is the same sequence on the view, in last-write order, and on the map; blank, duplicate and malformed lines never show |
| `FileIndex.KeepLast` | storage/index.py:135-145 | The two passes keep, in line order, the last record of each id |
| `FileIndex.PickIsLastOf` | storage/index.py:135-145 | What the two passes keep is the view the other operations are proved about |
| `FileIndex.IndexFile.Append` | storage/index.py:85-114 | The file after an append |
| `FileIndex.IndexFile.ReadRecords` | storage/index.py:117-145 | Fails exactly if some line is JSON but not an object, and else returns the view |
| `FileIndex.IndexFile.Update` | storage/index.py:148-179 | Rewrites the file as specified and reports whether the id was found; fails, leaving the file alone, exactly if a line is JSON but not an object |
| `FileIndex.IndexFile.Delete` | storage/index.py:182-206 | The same for deletion |
| `FileIndex.IndexFile.Compact` | storage/index.py:209-251 | Rewrites the file to the retained view and returns the four counts of the summary |
| `FileSettlement.SettlePlain` | storage/file_mutations.py:98-111 | An unreferenced file: any stage is finished without an error, through stages only |
| `FileSettlement.SettleUnchanged` | storage/file_mutations.py:104-111 | A referenced file the writer left alone: its copy is dropped and nothing else changes |
| `FileSettlement.SettleChanged` | storage/file_mutations.py:112-131 | A referenced file that changed: its record moves to the kept copy and the current path gets the new identity |
| `FileSettlement.SettleFromStage` | storage/file_mutations.py:86-135 | From every stage an interruption can leave, `_settle` raises nothing, every prefix of its writes is again a stage, and it ends done |
| `FileSettlement.SettleWithin` | storage/file_mutations.py:86-135 | All writes of one settlement belong to its own item |
| `FileSettlement.BytesSurvive` | storage/file_mutations.py:86-135 | At every stage the original bytes are at the record's path or in the kept copy; once done the record resolves to them with the original hash |
| `FileReconcile.CommitPassClears` | storage/file_audit.py:153-175 | The commit pass carries every pending commit of an interrupted settlement through and leaves none |
| `FileReconcile.SettlePassFinishes` | storage/file_mutations.py:62-65 | With no commit pending, settling every item of an intent raises nothing and finishes all of them, through safe states only |
| `FileReconcile.RoundsRecoverable` | storage/file_mutations.py:138-163 | Any number of reconciliations, each stopped after any write, leaves a state from which settlement can be finished |
| `FileReconcile.DoneWorldsAgree` | storage/file_mutations.py:86-135 | Two finished worlds agree on index and disk up to `created_at` |
| `FileReconcile.SettlementConverges` | storage/file_mutations.py:86-163 | Settlement stopped after any write, then any number of reconciliations stopped after any write, then one that is not: no conflict is raised, no intent remains, index and disk equal the uninterrupted result up to `created_at` |
| `FileReconcile.SettledPathHasOneOwner` | storage/file_mutations.py:86-135 | Each settled path that still exists has exactly one active owner with the hash on disk; its size matches too if and only if an unchanged referenced record had the right size before |
| `FileMutation.WrongSizeStays` | storage/file_mutations.py:104-111 | For any file contents: a referenced record with a wrong size goes through a mutation without an error and keeps the wrong size |
| `FileMutation.PrepareResult` | storage/file_mutations.py:40-60 | What the preparation loop produces when it does not raise: an item for each concerned record, none twice |
| `FileMutation.PrepareRaises` | storage/file_mutations.py:49-55 | It raises if and only if some concerned record is the second for its path or a referenced one whose bytes are not the recorded ones; the first such record in index order decides which error |
| `FileMutation.PreparedIndependent` | storage/file_mutations.py:40-60 | The prepared items do not interfere: their paths, ids and copies are pairwise distinct |
| `FileMutation.WriterLeadsToStage` | storage/file_mutations.py:61-65 | Whatever the writer does to anything but the kept copies, every item starts settlement at a stage |
| `FileMutation.BytesSurvivePreparation` | storage/file_mutations.py:40-60 | Before the writer runs, every referenced file's bytes are still at its own path, at every interruption point |
| `FileMutation.ReferencedBytesSurvive` | storage/file_mutations.py:30-83 | For every referenced in-scope file, any writer, any interruption and any number of interrupted reconciliations, the original bytes exist at the record's path or the copy's; once the intent is closed the record resolves to them |
| `FileMutation.PreparedOneOwner` | storage/file_mutations.py:42-50 | Any active record with an item's path is that item's own record |
| `FileWorkspace.MutationSettles` | storage/file_mutations.py:30-83 | A mutation whose writer leaves the kept copies alone settles without an error |
| `FileWorkspace.Workspace.CommitRecord` | storage/file_store.py:159-167 | Commit intent, index line, intent removed, in that order |
| `FileWorkspace.Workspace.SettleItem` | storage/file_mutations.py:86-135 | Result and writes of `_settle`, branch by branch, error cases included |
| `FileWorkspace.Workspace.SettleChangedVersion` | storage/file_mutations.py:112-131 | The branch for a referenced file that changed |
| `FileWorkspace.Workspace.SettleItems` | storage/file_mutations.py:62-65 | Items in order up to the first that raises |
| `FileWorkspace.Workspace.ReconcileCommits` | storage/file_audit.py:153-175 | The commit pass over the intents in directory order |
| `FileWorkspace.Workspace.Reconcile` | storage/file_audit.py:146-201 | Commits, then the pending mutation intent, which is closed only if every item settled |
| `FileWorkspace.Workspace.PrepareItems` | storage/file_mutations.py:40-57 | Items, copies and error of the preparation loop; if it raises, the copies are gone and nothing has changed |
| `FileWorkspace.Workspace.ManagedMutation` | storage/file_mutations.py:30-83 | A whole mutation for an arbitrary writer: preparation error with nothing changed, or the settlement of every item |
| `Restore.FinalFiles` | desktop_app/backup.py:289-298 | The final tree has every payload entry and, beyond those, exactly the original files below `secrets` folders that the payload lacks, with their original bytes |
| `Restore.LegalKeeps` | desktop_app/backup.py:274-303 | Every single rename, mkdir, copy and journal write of the protocol keeps the root whole: original, absent with the original in recovery, or final |
| `Restore.CarryAllOutcome` | desktop_app/backup.py:289-298 | Carrying credentials over, in any listing order, takes legal steps only and stops only at a payload file in the way |
| `Restore.Complete` | desktop_app/backup.py:289-298 | A replacement that holds every needed file is the final tree, and then nothing blocked it |
| `Restore.RestoreRootOutcome` | desktop_app/backup.py:274-303 | From every stage, one pass over a root completes it, or raises exactly if a payload file sits where the original has a folder with credentials below |
| `RestoreRun.RestoreNeverMixes` | desktop_app/backup.py:264-306 | After any number of starts, each cut anywhere, a root is the whole original, absent, or the whole final tree, and the original is in place or in the recovery folder |
| `RestoreRun.RestoreConverges` | desktop_app/backup.py:264-306 | The next start that is not cut completes without raising if and only if no payload file blocks a credential file; its result depends neither on where earlier starts were cut nor on listing order, and the start after it does nothing |
| `RestoreRun.ClashNeverCompletes` | desktop_app/backup.py:289-298 | With such a payload file, no start ever completes and nothing of that payload comes into use |
| `RestoreRun.ClashExists` | desktop_app/backup.py:289-298 | A concrete plan with such a payload file |
| `RestoreService.DataFolder.MakeParents` | desktop_app/backup.py:296-296 | `mkdir(parents=True, exist_ok=True)` makes exactly the missing folders, topmost first, and fails exactly on a file in the way |
| `RestoreService.DataFolder.CarryOver` | desktop_app/backup.py:289-298 | The nested loops over `secrets` folders perform the carrying steps |
| `RestoreService.DataFolder.RestoreOne` | desktop_app/backup.py:274-303 | The loop body performs the steps of one root and reports its error |
| `RestoreService.DataFolder.ApplyPendingRestore` | desktop_app/backup.py:264-306 | The whole function performs the run that the convergence results are about |
| `Migration.AcceptedCopyIsExact` | desktop_app/environment.py:103-127 | Even if the source is changed at any moment, an accepted copy has, for each of its files, the bytes the source still has at the end, and every entry as it was seen |
| `Migration.QuietCopy` | desktop_app/environment.py:103-127 | With a source nobody changes, the copy is accepted exactly if the source has no symbolic link, and then equals the source |
| `MigrationRun.MigrateRootOutcome` | desktop_app/environment.py:164-181 | From every stage, one pass over a root completes it, or raises exactly if its source has a link |
| `MigrationRun.MigrationNeverPartial` | desktop_app/environment.py:145-183 | With sources nobody changes, after any number of runs, each cut anywhere, a migrated root is absent or the whole source |
| `MigrationRun.MigrationConverges` | desktop_app/environment.py:145-183 | With sources nobody changes, the next run that is not cut completes if and only if no source has a link, always with the same result; later runs change nothing |
| `MigrationChanges.RootStaysWhole` | desktop_app/environment.py:164-181 | Whatever others do to the source during the copy, one pass over a root keeps it absent or one accepted copy at every write, and puts it in place if nothing is raised |
| `MigrationChanges.MigratedIsWhole` | desktop_app/environment.py:145-183 | With sources that may change at any time, after any number of runs, each cut anywhere, a root is absent or one copy accepted in one of the runs; a complete journal means all roots are there |
| `MigrationService.LegacyFolder.CopyChecked` | desktop_app/environment.py:103-127 | The copy loop, with its digest comparisons and the final check of the source |
| `MigrationService.LegacyFolder.RemoveTree` | desktop_app/environment.py:173-173 | Removing a partial copy entry by entry, the directory itself last |
| `MigrationService.LegacyFolder.MigrateOne` | desktop_app/environment.py:164-181 | The loop body performs the steps of one root and reports its error |
| `MigrationService.LegacyFolder.MigrateLegacy` | desktop_app/environment.py:145-183 | The whole function performs the run that the convergence results are about |
| `JobExecution.StartsWithin` | jobs/store.py:107-132 | Over any stretch of any interleaving: starts plus one if now queued are at most starts plus one if queued before plus the times the job was put into `queued` |
| `JobExecution.StartsBounded` | jobs/store.py:107-132 | From creation on, a body starts at most as often as the job was put into `queued`, minus one while it still is |
| `JobExecution.DeliveriesAloneNeverRestart` | jobs/worker.py:76-121 | A job that has left `queued` is not started again by any deliveries, however late, repeated or reordered, unless someone puts it back |
| `JobExecution.OneClaimWins` | jobs/store.py:107-132 | Of two workers holding the same job only the first starts it |
| `JobExecution.CountedAlways` | jobs/manager.py:121-135 | While no two retries overlap, the stored retry count is the number of retries and stays within the limit |
| `JobExecution.RetryLimitKept` | jobs/manager.py:121-135 | Over runs without overlapping retries, the starts are at most the other enqueueings plus `max_retries` |
| `JobExecution.RetryLimitExactly` | jobs/manager.py:121-135 | A retry that is decided leaves the limit safe in every continuation without further overlaps if and only if no other retry is decided and unwritten at that moment |
| `JobExecution.OverlapExceeds` | jobs/manager.py:121-135 | From any state, at any limit, an overlapping retry extends to a run that carries out one retry more than the limit and starts the body that often, the body failing each time and no retry being forced |
| `JobExecution.OverlappingRetriesExceedLimit` | jobs/manager.py:121-135 | For every positive limit, a run from the new job, with no forced retry, in which the body is retried once more than the limit |
| `JobExecution.FreshDecisionFollowsTable` | jobs/manager.py:121-129 | With nothing between look and update, the update follows the transition table if and only if it is not a forced retry, within the limit, of a running, paused, succeeded or cancelled job |
| `JobExecution.LockedStepsFollowTable` | jobs/store.py:107-205 | Claim, fence and cancellation request follow the transition table; soft deletion does unless the job has succeeded |
| `JobExecution.LateWriteTable` | jobs/manager.py:81-200 | For each operation and whatever happens between its look and its update: the statuses on which that update is against the table, exactly |
| `JobExecution.OvertakenLeavesTable` | jobs/manager.py:81-200 | Every operation that has decided on an update, `mark_running` alone excepted, can be overtaken so that the update is against the table |
| `JobExecution.LateWriteLeavesTable` | jobs/manager.py:154-166 | An update overtaken by a fence takes a failed job to succeeded, which the table forbids |
| `JobService.ReclaimedRunningIsFenced` | jobs/worker.py:85-95 | A repeated delivery that finds the job running marks it failed and does nothing else |
| `JobService.OneDeliveryOneStart` | jobs/worker.py:62-134 | A whole worker iteration during which nobody puts the job into `queued` starts at most one body, and only if the job was queued when it began |
| `JobService.JobRecordFile.UpdateJob` | jobs/store.py:89-104 | The patched fields, over whatever the record has become |
| `JobService.JobRecordFile.ClaimForExecution` | jobs/store.py:107-132 | Succeeds exactly on a queued job, which is then running without a cancel request |
| `JobService.JobRecordFile.FenceReclaimed` | jobs/store.py:135-173 | Fails a running job on a repeated delivery; otherwise the delivery proceeds if the job was there |
| `JobService.JobRecordFile.RequestCancellation` | jobs/store.py:176-205 | Sets the flag on a running job; reports whether it was new |
| `JobService.JobRecordFile.Perform` | jobs/manager.py:81-200 | Look, whatever others do meanwhile, then the update decided from the look |
| `JobService.JobRecordFile.RunJob` | jobs/runner.py:11-48 | Claim, body, and the outcome: nothing once the lease is lost or the job has failed or been cancelled, else success, or failure if that is refused |
| `JobService.JobRecordFile.RunOnce` | jobs/worker.py:76-127 | Delivery, fence, and the run if the fence let it through |
| `TurnRegistry.SurveyLegal` | jobs/lifecycle.py:144-164 | The first pruning loop writes and unlinks only what it may, one file at a time |
| `TurnRegistry.SortKeeps` | jobs/lifecycle.py:165-165 | The sort keeps exactly the listed records, in order of time |
| `TurnRegistry.OldestIsOutranked` | jobs/lifecycle.py:165-171 | When the k-th oldest record over the limit is dropped, 256 terminal records at least as new are retained |
| `TurnRegistry.PruneLegal` | jobs/lifecycle.py:134-171 | Every unlink of a prune, wherever it is cut, takes a terminal record older than seven days or outranked by 256 retained ones |
| `TurnRegistry.PruneResult` | jobs/lifecycle.py:134-171 | After a prune at most 256 terminal records remain, none older than seven days, and every record whose job has not ended is still there |
| `TurnClaims.RecordStep` | jobs/lifecycle.py:90-131 | One write that passes its check: a record does not return to running, disappears only by a legal eviction, and changes status in a prune only to its job's outcome |
| `TurnClaims.RestartedJobMayReopen` | jobs/lifecycle.py:735-750 | Setting a job running again keeps that if and only if the job has no left-over turn or no other turn is open |
| `TurnClaims.WhatCloses` | jobs/lifecycle.py:572-634 | Which steps can end an open turn; a finish only for its own request or where one of the two names is empty |
| `TurnClaims.StaleFinishClosesNothing` | jobs/lifecycle.py:591-597 | A finish for another request changes nothing |
| `TurnClaims.DecideOutcome` | jobs/lifecycle.py:229-307 | What the claim does after pruning is right at every write and its answer is true of what it leaves |
| `TurnClaims.ClaimOutcome` | jobs/lifecycle.py:196-307 | A claim grants exactly if the key is not remembered after pruning and no turn is open; then the turn is open under its key and remembered; otherwise no job changes |
| `TurnClaims.FinishingOutcome` | jobs/lifecycle.py:324-361 | A finish, its two prunes included, writes rightly throughout and changes no job |
| `TurnRuns.RunIsRight` | jobs/lifecycle.py:90-361 | In every run of claims, finishes, closings, attachments and closings after a restart, each stopped after any write, and of single updates by anyone else, every write passes the check that guards it |
| `TurnRuns.CloseRestartedRight` | agent/runtime/turn_closeout.py:112-140 | Closing what a restart left writes only records that have ended, also where the record had been evicted meanwhile |
| `TurnRuns.RecordOverRun` | jobs/lifecycle.py:90-131 | At every write of every such run: a record does not return to running and disappears only by a legal eviction |
| `TurnRuns.EndedStaysEnded` | jobs/lifecycle.py:90-131 | Over any stretch of a run during which a record exists, once ended it stays ended |
| `TurnRuns.GrantsSeparatedByEviction` | jobs/lifecycle.py:224-307 | Between two claims of one key that were both answered as granted, its record was evicted, having ended, and being older than seven days or outranked by 256 retained records at least as new |
| `TurnRuns.LaterGrantFollowsClose` | jobs/lifecycle.py:252-258 | Of any two granted claims of a run, the later follows a write that ended the earlier one's turn |
| `TurnRuns.AtMostOneOpenTurn` | jobs/lifecycle.py:174-193 | At every point of a run at most one turn of the session is open, if and only if nothing but a claim sets a job with a left-over turn running while another turn is open |
| `TurnFindings.TwoTurnsOpen` | jobs/lifecycle.py:735-750 | A run from the empty session, under two client request ids, that ends with two granted turns open |
| `TurnService.SortStamps` | jobs/lifecycle.py:165-165 | Insertion sort, equal times staying in order |
| `TurnService.SessionTurns.PruneRegistry` | jobs/lifecycle.py:134-171 | Performs exactly the prune's steps |
| `TurnService.SessionTurns.RunningTurn` | jobs/lifecycle.py:174-193 | The first open job in listing order |
| `TurnService.SessionTurns.BeginTurn` | jobs/lifecycle.py:421-470 | Finds or creates the session's job, sets it running, records the turn |
| `TurnService.SessionTurns.ClaimTurn` | jobs/lifecycle.py:196-307 | Answer and writes of the claim |
| `TurnService.SessionTurns.FinishClaimed` | jobs/lifecycle.py:324-361 | Prune, the record's terminal state unless it is missing or names another job, prune again |
| `TurnService.SessionTurns.CloseSnapshot` | jobs/lifecycle.py:572-631 | The turn's terminal state, unless another request is active; then a requested cancellation ends the job, as a second write |
| `TurnService.SessionTurns.EnsureJobRunning` | jobs/lifecycle.py:735-750 | The two updates that set a job running, or nothing |
| `TurnService.SessionTurns.AttachRun` | jobs/lifecycle.py:637-692 | Finds or creates the job, sets it running unless it was cancelled, and ends it |
| `TemplateLexer.TokensConcatenate` | prompts/renderer.py:56-56 | The tokens put together are the input |
| `TemplateLexer.LexAlternates` | prompts/renderer.py:56-56 | Texts and tags alternate, and every tag token ends at its first closing mark |
| `TemplateLexer.LexTag` | prompts/renderer.py:56-56 | A plain text, a tag and the rest are lexed apart, whatever the rest is |
| `TemplateParser.Parse` | prompts/renderer.py:58-93 | Parsing terminates by the tokens remaining, and a block ends only at one of its stop directives |
| `TemplateParser.ParseFrom` | prompts/renderer.py:58-93 | The loop with its index and node list computes the recursive parse, errors included |
| `TemplatePrinter.ForRead` | prompts/renderer.py:76-76 | A written `for` directive is matched as a `for` with the same name and path, and as nothing else |
| `TemplatePrinter.ExpressionIsInner` | prompts/renderer.py:64-66 | Every accepted variable expression can stand between the marks and survives stripping |
| `TemplateRoundTrip.LexJoined` | prompts/renderer.py:56-56 | Well-spaced texts and tags, joined, are lexed back as themselves |
| `TemplateRoundTrip.EmitRead` | prompts/renderer.py:58-93 | The tokens of a list of nodes without neighbouring texts are parsed as those nodes, in any block and before any continuation |
| `TemplateRoundTrip.FuseWritten` | prompts/renderer.py:54-93 | Joining neighbouring texts changes nothing that is written |
| `TemplateRoundTrip.WrittenRead` | prompts/renderer.py:54-93 | Whatever list of nodes is written, in any block and before any continuation, is lexed and parsed as those nodes with neighbouring texts joined |
| `TemplateRoundTrip.PrintThenParse` | prompts/renderer.py:54-93 | Every nested if/else/for tree whose texts, neighbouring ones taken together, hold no opening mark and do not end in a brace before a tag is printed, lexed and parsed back to itself, up to empty texts and the joining of neighbouring ones |
| `TemplateRoundTrip.PrintThenParseApart` | prompts/renderer.py:54-93 | A tree without neighbouring texts is read back to itself, up to empty texts |
| `TemplateRender.RenderTidy` | prompts/renderer.py:95-115 | Empty text nodes never change what is rendered |
| `TemplateRender.RenderFuse` | prompts/renderer.py:95-115 | Neither does joining neighbouring texts |
| `TemplateRender.PrintThenRender` | prompts/renderer.py:54-117 | A tree printed and read back renders the same in every context |
| `FilePaging.PaddedSizesOrdered` | storage/file_workspace.py:43-43 | Zero-padded 20-digit sizes below 10^20 compare as the numbers do |
| `FilePaging.RemainingRows` | storage/file_workspace.py:45-66 | The rows after the cursor, filtered and sorted: exactly the matching rows past the boundary, strictly in order |
| `FilePaging.PageRows` | storage/file_workspace.py:45-70 | A page starts past its cursor, and every matching row is in it or past the next cursor |
| `FilePaging.BrowseAscending` | storage/file_workspace.py:36-73 | Following cursors while rows are inserted, removed and changed shows rows strictly in order |
| `FilePaging.BrowseBySizeDescends` | storage/file_workspace.py:36-73 | In size order the rows shown go down by the number, over any changes between pages, while every size is below 10^20 |
| `FilePaging.StableRowsShownOnce` | storage/file_workspace.py:36-73 | Every row that stays present with an unchanged key and still matches is shown exactly once |
| `FilePaging.PagesMakeTheList` | storage/file_workspace.py:36-73 | With unchanged files, the pages put together are the whole sorted selection |
| `FilePaging.Sorted` | storage/file_workspace.py:53-53 | The sort, stable, in the direction of the order |
| `FilePaging.ListFiles` | storage/file_workspace.py:36-73 | The page, the total, the next cursor and both errors |
| `FileLocking.StepKeeps` | storage/locking.py:33-108 | Every step of entering and exiting keeps counters, in-process lock, file lock and nesting consistent |
| `FileLocking.MutualExclusion` | storage/locking.py:33-108 | Over all threads and processes at most one thread is inside a key, the held counter is the nesting depth, and being inside is holding the file lock |
| `FileLocking.OutermostReleases` | storage/locking.py:92-108 | An exit gives the file lock back exactly if it is the outermost of its key |
| `FileLocking.LastInFirstOut` | storage/locking.py:92-108 | Leaving the entry entered last is always in order |
| `FileLocking.FailedAcquireChangesNothing` | storage/locking.py:50-58 | An acquire that gives up leaves every counter and every lock as it was |
| `FileLocking.OutOfOrderExit` | storage/locking.py:92-108 | An exit keeps the invariant if and only if it is not an outer exit with entries of the same key still nested; that one frees the file lock while the thread is inside |
| `LockFindings.OutOfOrderLetsTwoIn` | storage/locking.py:92-108 | A run with one exit out of order after which threads of two processes are inside the key at once |
| `LockService.LockTable.Enter` | storage/locking.py:33-58 | The thread is one entry deeper, or exactly as it was, whatever others did while it waited |
| `LockService.LockTable.Exit` | storage/locking.py:92-108 | The innermost entry is exited, with others free to run between the two releases |
| `CodingRecords.RevisionCountsChanges` | storage/coding_state_store.py:57-80 | Over every run with arbitrary updaters, a record's revision goes up by exactly the number of its effective changes |
| `CodingRecords.OneWinnerPerRevision` | storage/coding_state_store.py:58-60 | Of two effective updates of a record, the later expected a larger revision: at most one wins per expected revision |
| `CodingRecords.IdentityNeverChanges` | storage/coding_state_store.py:68-73 | Identity fields that are never sealed do not change over any run in which the record stays |
| `CodingRecords.SealedNeverChange` | storage/coding_state_store.py:68-73 | Over every run in which the record is not being built, no identity field changes, the sealed ones included |
| `CodingRecords.ReopenedCandidateChanges` | storage/coding_state_store.py:68-73 | Any candidate takes any other value of any of the five sealed fields, present or not: by one update while it is being built, otherwise by two, the first setting it back to building |
| `CodingRecords.OneUpdateExactly` | storage/coding_state_store.py:68-73 | An identity field of a record survives every single update by anyone if and only if the record is not being built or the field is not one of the five |
| `CodingRecords.IdentityChangesExactly` | storage/coding_state_store.py:68-73 | An identity field of a record survives every run in which the record stays if and only if it is not one of the five that a candidate seals |
| `CodingRecords.IdentityStep` | storage/coding_state_store.py:68-77 | Each change keeps the identity fields, those still being sealed excepted, and the verdict of a finished review |
| `CodingRecords.VerdictFrozen` | storage/coding_state_store.py:74-77 | A finished review keeps its state and verdict for ever |
| `CodingRecords.NothingAfterTombstone` | storage/coding_state_store.py:81-83 | After a session's tombstone none of its records is changed and none appears; they are only removed |
| `CodingRecords.RefusedAfterTombstone` | storage/coding_state_store.py:81-83 | Every update in a deleted session's name is refused and changes nothing |
| `CodingRecords.CodingStore.CheckIdentity` | storage/coding_state_store.py:68-73 | The loop over protected keys, with the sealing exception |
| `CodingRecords.CodingStore.ChangeRecord` | storage/coding_state_store.py:51-83 | Reply and new state of `change` for whatever the updater returned |
| `CodingRecords.CodingStore.DeleteSessionRecords` | storage/coding_state_store.py:86-98 | Exactly the session's records are removed, and only after its tombstone |
| `ArchiveSearch.RebuiltDescribes` | storage/context_epoch_store.py:307-321 | A rebuild, in any listing order, describes exactly the messages of the archives it went through, each distinct text once |
| `ArchiveSearch.SearchSeesArchives` | storage/context_epoch_store.py:282-321 | Over every run of saves, lost indexes and searches, after a search the tables agree with a plain scan of the archives; in particular an unchanged signature means they still do |
| `ArchiveSearch.EachDistinctOnce` | storage/context_epoch_store.py:322-333 | An unfiltered search returns each distinct matching message exactly once, and only what its archive has at that place |
| `ArchiveSearch.EachOccurrenceOnce` | storage/context_epoch_store.py:322-333 | A search of one checkpoint returns each matching occurrence in it exactly once |
| `ArchiveSearch.ArchiveStore.SaveEpoch` | storage/context_epoch_store.py:101-136 | An archive is added to those that are there and none is rewritten |
| `ArchiveSearch.ArchiveStore.Rebuild` | storage/context_epoch_store.py:307-321 | The loops of the rebuild compute the specified tables |
| `ArchiveSearch.ArchiveStore.SearchEpochs` | storage/context_epoch_store.py:271-340 | Rebuilds unless the signature is unchanged, refuses an unknown checkpoint, and returns rows none of which fails the recheck |

## Left out

- Ranking, excerpts and page cuts of archive search, archives that fail their integrity check, and message redaction before saving.
- Projection hooks, events, broadcasts, metrics, job indexes and workspace statistics: no later step reads them.
- Emptying, restoring and purging files, artifact commits and the file restore intent: their intents are separate.
- Redaction and secret detection: pattern matching, taken as parameters of the write gate.
- Legacy schema-1 memory records, `conflict_memory_ids`, and the warnings of a write reply.
- `proposed_action` expiry and conflict-group expiry: modelled, but not claimed to revive nothing, because neither retires ancestors.
- One active memory per key: not claimed, because a later conflict overwrites the group of an earlier one.
- I/O errors, files that cannot be read, and permissions: every step that is taken succeeds.
- Malformed registry files: the registry is written atomically by the code itself, so none arises; a key longer than 256 characters is refused before anything else.
- Deleting a session for good: it removes the session's whole registry, running records included, and ends the run.
- The `replay_expired` flag of a record: pruning turn logs sets it and nothing else; closing after a restart skips flagged records, and a run may do either.
- Progress, stage and tool entries of a turn snapshot, provisional messages and turn logs.
- Redis queue commands: deliveries are arbitrary instead.
- The `files` tally of the migration journal: it misses a root whose run stopped between rename and journal write.
- The duplicate branch of index compaction, which no view of distinct ids reaches.
- Backup creation and reading, encryption, archive checks, and the validity checks on a restore request and its plan.
- Symbolic links inside a restore payload, and case-insensitive names: a payload has no links, and names compare exactly.
- Letters beyond ASCII in template names; attributes of values that are not dictionaries; how a value is shown and escaped, which is a parameter.
- Parsing then printing a template: an unclosed directive right after another tag can be accepted.
- Decoding of cursors and folder names; a cursor is its scope and key.
- `msvcrt` and `flock` details: the file lock is held by one thread or none.
- Coding records whose `revision` is not a number.
