# Verified models of the desktop shell's concurrent and persistent core

This project models the parts of the Shannon desktop application that keep
state across concurrent commands, crashes and restarts, and proves what those
parts promise. `dafny verify dfyconfig.toml` checks all of it.

**Batches.** A best-of-N batch starts N agent branches in git worktrees, queues
them on a process-wide semaphore of four permits, streams their spend into a
record, finalizes each through one choke point, mirrors the record to disk, and
lets the user adopt one branch or discard the batch.

- `BatchRecord` holds the record and every function that changes it.
- `BatchProtocol` is the transition system: any number of batches and branches,
  any interleaving of start, queue, spend, engine end, terminal write, adopt,
  discard, lazy load, listing, and a crash followed by a restart. Its invariant
  is proved for every run.
- `BatchTheorems` are the consequences for whole runs.
- `BatchHandles` takes one batch with the identity of its handles: what happens
  when the registry gets a new handle while tasks and commands hold the old one.
- `BatchRegistry` has the objects: handles, registry, disk and inbox. Their
  methods are proved against the record functions, and lemmas show that each
  is the corresponding protocol step.
- `BatchGit`, `BatchStart` and `BatchCleanup` add the repository: worktree
  creation with rollback, the cleanup rules, auto-commit and merge.

**One session's latch.** `SessionLatch` takes the `querying` latch, the
cancellation token and the pending-stop flag under any interleaving of sends,
stops, deletions, events and exits, each command one step. `SessionFine` takes
the same session lock by lock and says exactly where the two differ.

**Protocols that resolve once.** `BackgroundTasks` (cancel against the runner),
`AskUser` (answer against time-out), `ActiveRuns` (reference-counted runs).

**Algorithms.** `TomlProfile` (printer against a reader), `Numstat`, `Utf8Cut`,
`ArtifactRegistry` (bounded queue and URLs), `TokenCache`, `LogCollector`.

## What was found

These are places where the code does not do what its comments or names
promise. Each is stated as a condition that holds if and only if the code goes
wrong, and a witness shows an input.

- **Stops and exits overlap in five bad ways.** Stop, deletion and exit take their
  locks one after the other. `SessionFine.Slip` lists the moments that matter: a
  stop takes the token an older run left behind; a stop raises the flag after its
  run consumed it; a run consumes a flag raised for another; an exit drops a newer
  run's token; an exit clears a newer run's flag. A run of the session is free of
  lost and inherited stops, and stays stoppable, up to the first slip and not
  beyond (`SafeStepIff`, `SafeRunIff`); six traces reach the slips. That the
  latch changed hands since the stop began is neither needed nor enough for an
  inherited stop (`SecondStopTrace`).
- **Deleting a session does not cancel a run that has latched but not stored its
  token, nor one whose token an older run's exit has dropped**, although the comment
  says a running query must not outlive its session. The first holds at any grain
  (`DeleteReachesRunIff`, `DeletedRunStreamsOn`), the two together are exact lock by
  lock (`FineDeleteReachesRunIff`, `WipedTokenMissesDelete`).
- **Listing and loading race with everything else.** `list` and `get_or_load` look for
  a live handle, read the disk, and register a new handle over whatever is live by
  then. Nobody can tell that from one step iff the record they read is still the live
  one (for `list`, also the one on disk) and neither start, a branch task nor a command
  may still write through the handle they replace (`ReplaceIsAtomicIff`,
  `LateLoadIsAtomicIff`). With a fresh read, the last part alone decides whether one
  record per batch remains (`LateLoadIsSafeIff`). Otherwise a starting batch shows as failed
  (`StaleListIsReachable`), a batch discarded in flight keeps a running row
  (`DiscardedBatchDiverges`), an adopted branch is discarded through a second handle
  (`TwoHandlesTwoCommands`), or an adoption is forgotten (`StaleReadForgetsAdoption`).
- **A copied record file is listed twice, and the copy may win.** Without a live handle
  a run gets one row per file that carries its id, and the file read last becomes the
  registered record and overwrites the run's own file (`RowsPerRun`, `LastReadWins`,
  `CopyReplacesRecord`).
- **Adopt and discard of one batch overwrite each other.** Each checks under one lock
  and writes under a later one. The late write is the intended step iff its checks
  would still pass, or it repeats what was done and the inbox item says so already
  (`LateAdoptIsStepIff`, `LateDiscardIsStepIff`). Otherwise a discarded batch is
  adopted, an adopted one ends discarded with its index set (`LastWriterWins`), or a
  second adoption moves the index (`SecondAdoptWins`). The discard meanwhile deletes
  the branch being adopted (`DiscardTakesAdopting`).
- **A failed start can destroy an older batch's branch.** An existing path counts as
  created, and the rollback removes its worktree and deletes its branch
  (`FailedStartRestores`, `FailedStartDamage`, `OldBatchIsLost`).
- **A failed start can leave a branch behind.** `git worktree add -b` makes the branch
  first, and the rollback covers only the rows before the one that failed
  (`FailedStartRestores`, `FailedBranchStays`).
- **A start can succeed with fewer branches than asked for**, where a path exists
  (`StartCreatesAll`, `StartCountsBranches`, `StartWithoutBranch`).
- **A failed branch can be deleted with its work.** A `git status` that fails reads as
  clean, and a commit count that fails, or whose base no longer resolves, reads as
  0; commits on a detached head in the worktree are not counted at all
  (`FailedRowKeptIff`, `FailedWorkSurvivesIff`, `RenamedBaseLosesWork`,
  `FailingStatusLosesEdits`, `DetachedCommitIsLost`).
- **Adoption merges the branch of the record, but commits leftover edits to whatever
  the worktree has checked out** (`EditsReachHeadIff`, `SwitchedBranchMissesEdits`).
- **The sender of an aborted question stays in the map**, timer or not, until somebody
  answers it (`AbandonedEntryStays`).
- **A profile with a control character other than newline, carriage return or tab is
  written as a file that does not load** (`ProfileRoundTrip`).
- **The permit is dropped before the branch is finalized** (line 1114), although the
  comment at lines 58-60 of `batch_commands.rs` says it is held until then. The model
  does what the code does.

## Model

| member | source | states |
|---|---|---|
| BatchRecord.AggregateMeaning | desktop/src/batch_commands.rs:255-264 | `completed` iff no branch failed, `failed` iff there are branches and all failed, otherwise `partially_failed`, for every list |
| BatchRecord.ReconcileRestart | desktop/src/batch_commands.rs:478-490 | the in-place loop computes the reconciled record |
| BatchRecord.ReconcileLaws | desktop/src/batch_commands.rs:478-490 | reconciliation is idempotent, never leaves `running`, leaves finished branches and all other fields alone, marks exactly the running branches as interrupted |
| BatchRecord.ReconcileOfRunning | desktop/src/batch_commands.rs:478-490 | a running record becomes `completed` iff no branch was running or failed; with a running branch it becomes `failed` or `partially_failed` |
| BatchRecord.ReconcileIgnoresSpend | desktop/src/batch_commands.rs:478-490 | records equal but for spend reconcile to records equal but for spend |
| BatchRecord.FindBranch | desktop/src/batch_commands.rs:248-250 | the first branch with the index, or none iff there is none |
| BatchRecord.TruncateChars | desktop/src/batch_commands.rs:270-276 | text within the limit is unchanged, longer text keeps its first characters up to the limit and gains one |
| BatchRecord.FinalizeMeans | desktop/src/batch_commands.rs:1152-1219 | the terminal write by record fields: the first row with the index takes status, error (whole up to 500 characters, else cut and marked), summary and verification of its run; a running record none of whose rows runs takes the status its rows give; the item, and when it is appended; nothing else changes |
| BatchRecord.AdoptCheckMeans | desktop/src/batch_commands.rs:1571-1592 | by record fields: the checks pass iff the batch is neither running, adopted nor discarded and its first row with the index is completed; which refusal gives which of the five errors |
| BatchRecord.Refreshed | crates/shannon-core/src/inbox_store.rs:586-604 | a refresh rewrites one row's text, keeps every source and every other row |
| BatchProtocol.StepKeepsInv | desktop/src/batch_commands.rs:1059-1219 | every step keeps the invariant on records, disk mirrors, tasks, permits and inbox |
| BatchProtocol.RunKeepsInv | desktop/src/batch_commands.rs:1059-1219 | it holds in every state of every run, restarts included |
| BatchProtocol.StepMoves | desktop/src/batch_commands.rs:1059-1219 | what a step of the whole system does to any one batch |
| BatchProtocol.StepKeepsPermits | desktop/src/batch_commands.rs:1059-1118 | each step keeps free permits plus executing branches at four |
| BatchProtocol.OutcomeKeepsRecord | desktop/src/batch_commands.rs:1166-1195 | the terminal write replaces one row and keeps the status and adoption rules of the record |
| BatchTheorems.LiveStatus | desktop/src/batch_commands.rs:1123-1219 | in any state of any run: `running` iff a branch runs and the batch is not discarded; an aggregate status equals the aggregate of finished branches; an adopted index iff adopted, and then of a completed branch |
| BatchTheorems.TerminalRowsFrozen | desktop/src/batch_commands.rs:1123-1219 | once every branch is finished no row changes again, through any later commands and crashes |
| BatchTheorems.AdoptedForever | desktop/src/batch_commands.rs:1563-1657 | an adopted batch stays the same record in every later state |
| BatchTheorems.DiscardedForever | desktop/src/batch_commands.rs:1675-1720 | a discarded batch stays discarded, also when branches finalize afterwards |
| BatchTheorems.IdentityFixed | desktop/src/batch_commands.rs:1465-1490 | what start wrote (names, paths, base, prompt, count) is what every later state knows of the batch |
| BatchTheorems.CrashRecovery | desktop/src/batch_commands.rs:296-317 | after a crash at any moment past the first persist, loading gives what reconciling the lost record would have given, but for the spend of branches in flight |
| BatchTheorems.LiveSpendIsSumOfCosts | desktop/src/batch_commands.rs:822-828 | a live branch's spend is the sum of the costs reported for it over the run |
| BatchTheorems.DiskSpendNeverExceeds | desktop/src/batch_commands.rs:822-828 | for non-negative costs the disk never claims more spend than memory |
| BatchTheorems.PermitsConserved | desktop/src/batch_commands.rs:1059-1118 | free permits plus executing branches of all batches are four in every state |
| BatchTheorems.FinalizedOnce | desktop/src/batch_commands.rs:1059-1118 | no branch is finalized twice in a run; in its process it was finalized iff its task says so |
| BatchTheorems.RecordedOutcome | desktop/src/batch_commands.rs:1166-1188 | a finished row carries the outcome its engine run was observed to have: status, error (none for none, whole up to 500 characters, else its first 500 and a mark), diff summary, exit and test counts |
| BatchTheorems.RemainingMove | desktop/src/batch_commands.rs:1059-1118 | a measure over the tasks drops at every task step and stands still otherwise |
| BatchTheorems.TaskStepsBounded | desktop/src/batch_commands.rs:1059-1118 | a batch of n branches takes at most 3n task steps over any run, crashes included; while live, done and remaining steps together are at most 3n |
| BatchTheorems.TasksNeverStuck | desktop/src/batch_commands.rs:1059-1118 | while a batch has tasks left, one of them can step, or all permits are taken and a holder's engine run can end |
| BatchTheorems.NoTaskLeftMeansSettled | desktop/src/batch_commands.rs:1190-1216 | no task left iff every row is finished, and then the batch has left `running` |
| BatchTheorems.QuietMeansSettled | desktop/src/batch_commands.rs:1059-1118 | once no task step is enabled, every batch started in this process has left `running` |
| BatchTheorems.StartGoesThrough | desktop/src/batch_commands.rs:1463-1500 | from any state a fresh batch can be registered, persisted and spawned, and is then in memory and on disk as start wrote it, all branches queued |
| BatchTheorems.PermitIsTaken | desktop/src/batch_commands.rs:1059-1085 | a queued branch can take a permit whenever one is free; nothing else changes |
| BatchTheorems.SpendIsAdded | desktop/src/batch_commands.rs:822-828 | an executing branch adds any cost to its own row in memory and to nothing else |
| BatchTheorems.PermitIsGivenBack | desktop/src/batch_commands.rs:1086-1114 | its engine run can end in any way and gives the permit back |
| BatchTheorems.QueueFailureIsObserved | desktop/src/batch_commands.rs:1075-1085 | a queue that fails takes no permit, and the branch is observed as failed with that message |
| BatchTheorems.ObservedIsFinalized | desktop/src/batch_commands.rs:1123-1219 | an observed branch can always be finalized; memory and disk then hold the written record, and no permit moves |
| BatchTheorems.AttemptIsLastFinalize | desktop/src/batch_commands.rs:1190-1216 | the inbox append is attempted exactly by the step that finalizes the last branch of a batch not discarded, once; accepted, it adds one item with that batch's id, title and branches, which the record then names; no other step adds one |
| BatchTheorems.InboxAtMostOnce | desktop/src/batch_commands.rs:1190-1216 | over any run, restarts included, at most one attempt and one inbox item per batch |
| BatchTheorems.AdoptRefreshesItem | desktop/src/batch_commands.rs:1630-1638 | adopting rewrites the text of the batch's own item and nothing else |
| BatchTheorems.DiscardRefreshesItem | desktop/src/batch_commands.rs:1703-1711 | discarding rewrites the text of the batch's own item and nothing else |
| BatchTheorems.AdoptStepMeans | desktop/src/batch_commands.rs:1563-1640 | by record fields, for a live batch or one on disk: an adopt goes through iff the batch is neither running, adopted nor discarded, its first row with the index is completed and git merged; then memory and disk hold the record with that index, otherwise the batch is only loaded |
| BatchTheorems.DiscardStepMeans | desktop/src/batch_commands.rs:1675-1712 | a discard goes through iff the batch is neither adopted nor discarded; then memory and disk hold the discarded record, otherwise the batch is only loaded |
| BatchTheorems.LoadStepsMean | desktop/src/batch_commands.rs:372-414 | what a load and a listing make live and put on disk, for every batch |
| BatchTheorems.RestartMeans | desktop/src/batch_commands.rs:319-342 | a crash can come in any state: disk, inbox and history stay, nothing is live, all four permits are free |
| BatchTheorems.StaleListFailsLiveBatch | desktop/src/batch_commands.rs:386-414 | any running persisted batch missing from the snapshot is replaced by a failed record, and the invariant is lost |
| BatchTheorems.StaleListIsReachable | desktop/src/batch_commands.rs:386-414 | such a state is reached by one start between the two halves |
| BatchTheorems.LateAdoptIsStepIff | desktop/src/batch_commands.rs:1571-1640 | an adopt that writes after its checks leaves the whole system, inbox included, as the protocol's step does iff the checks still pass, or the same branch was adopted meanwhile and the item says so |
| BatchTheorems.LateAdoptFineIff | desktop/src/batch_commands.rs:1571-1640 | it keeps the batch's invariant iff every row is terminal, and an adopted record iff it is for the same branch |
| BatchTheorems.SecondAdoptWins | desktop/src/batch_commands.rs:1571-1640 | of two adopts that both pass their checks the later moves the adopted index, and no other rule notices |
| BatchTheorems.LateDiscardIsStepIff | desktop/src/batch_commands.rs:1682-1712 | a discard that writes after its check leaves the whole system as the protocol's step does iff the check still passes, or it was discarded meanwhile, nothing is in flight and the item carries these counts already |
| BatchTheorems.LateDiscardFineIff | desktop/src/batch_commands.rs:1682-1712 | in every state of a batch it keeps the batch's invariant iff no adopt came in between |
| BatchTheorems.LastWriterWins | desktop/src/batch_commands.rs:1571-1629 | wherever adopt and discard both pass their checks, the later write reopens a discarded batch or leaves a discarded one with an adopted index |
| BatchHandles.SameIsIndistinguishable | desktop/src/batch_commands.rs:351-364 | states that differ only in which handle holds equal records, and give the registry, the tasks and every command that may write the same handles, answer alike after any further steps |
| BatchHandles.ReplaceIsAtomicIff | desktop/src/batch_commands.rs:351-364 | registering a new handle over a live one, with any record read before, cannot be told from leaving it alone by any further steps iff the live record is what was read, reconciled (with write-back: also on disk), and neither start, a task nor a command may still write through the old handle |
| BatchHandles.StartedIsCoherent | desktop/src/batch_commands.rs:351-364 | a batch just registered satisfies the batch rules, with start as the only other holder of its handle |
| BatchHandles.StepKeepsCoherent | desktop/src/batch_commands.rs:1059-1118 | without such a replacement every step of start, tasks, adopt and discard keeps the batch rules and that all who may write hold the live handle |
| BatchHandles.OwnKeepsCoherent | desktop/src/batch_commands.rs:1059-1118 | then start and tasks, writing through their own handle, move the registered record as the protocol's steps do |
| BatchHandles.LateLoadIsAtomicIff | desktop/src/batch_commands.rs:372-414 | in such a batch the second half of `list` or `get_or_load` cannot be told from the atomic step iff nobody else may still write through the live handle and the record read is current; read just now, iff nobody may write and (for `list`) the disk record is not `running` |
| BatchHandles.LateLoadIsSafeIff | desktop/src/batch_commands.rs:372-414 | with the record now on disk it keeps one record per batch iff nobody else may still write through the live handle |
| BatchHandles.DiscardedInFlightIsReached | desktop/src/batch_commands.rs:1675-1720 | start, one executing branch and a discard lead to the state of the next row |
| BatchHandles.DiscardedBatchDiverges | desktop/src/batch_commands.rs:386-414 | there `list` shows nothing wrong, and when the branch ends the registry keeps a running row that the disk has finished |
| BatchHandles.TwoHandlesTwoCommands | desktop/src/batch_commands.rs:372-380 | after a restart an adopt and a discard load a handle each; the adoption is written, and then the discard, whose check passes on its own handle |
| BatchHandles.StaleReadForgetsAdoption | desktop/src/batch_commands.rs:386-414 | a record read before an adoption and registered after it takes the adoption off the registry and the disk |
| BatchRegistry.WrittenLoadsBack | desktop/src/batch_commands.rs:431-449 | what a handle writes is what a later load registers, reconciled, under its own id only and never under an id that names a path |
| BatchRegistry.LoadRegistersIff | desktop/src/batch_commands.rs:431-449 | a load adds an entry iff the id is well-formed, its file is readable, and neither that id nor the id in the file is live |
| BatchRegistry.ValidIdMeans | desktop/src/batch_commands.rs:431-439 | an id is refused iff it is empty, has a slash or backslash, or two dots in a row; one of hexadecimal digits and dashes never is |
| BatchRegistry.GeneratedIdLoads | desktop/src/batch_commands.rs:431-449 | every batch whose id is a UUID and whose file is readable loads after a restart, reconciled |
| BatchRegistry.RowsPerRun | desktop/src/batch_commands.rs:403-411 | a run without a live handle gets one row per file that carries its id |
| BatchRegistry.SortKeepsTies | desktop/src/batch_commands.rs:412-413 | rows of one moment keep the order they were read in |
| BatchRegistry.LastReadWins | desktop/src/batch_commands.rs:403-411 | of the files with an id that is not live, the one read last becomes the registered record and the content of that id's file; all else stays |
| BatchRegistry.CopyReplacesRecord | desktop/src/batch_commands.rs:403-411 | a store where an older copy replaces the record and its file, and the run has two rows |
| BatchRegistry.OwnFilesListOnce | desktop/src/batch_commands.rs:403-411 | when every file carries its own id, in any order of the directory exactly the readable records without a live handle are taken over, one row each |
| BatchRegistry.BatchRunHandle.Persist | desktop/src/batch_commands.rs:296-317 | the disk holds the record, other files are unchanged |
| BatchRegistry.BatchRunHandle.FoldBranchSpend | desktop/src/batch_commands.rs:822-828 | memory changes as specified, disk does not |
| BatchRegistry.BatchRunHandle.FinalizeBranch | desktop/src/batch_commands.rs:1152-1219 | record, inbox and disk after the locked write, as the specification says and by record fields: the row's status, error and summary, the other rows, when the item is appended and what it holds |
| BatchRegistry.BatchRunHandle.Adopt | desktop/src/batch_commands.rs:1563-1657 | by record fields: which batch and row pass, which of the five errors each refusal gives; only a merge changes record, disk and inbox |
| BatchRegistry.BatchRunHandle.Discard | desktop/src/batch_commands.rs:1675-1720 | refused iff adopted or discarded; otherwise record, disk and item text |
| BatchRegistry.BatchRunRegistry.Register | desktop/src/batch_commands.rs:351-364 | the handle replaces or adds one entry |
| BatchRegistry.BatchRunRegistry.GetOrLoad | desktop/src/batch_commands.rs:372-380 | a live handle wins; otherwise the id is invalid iff it is empty, has a slash, a backslash or two dots in a row, else not found iff there is no file, a read error iff the file is unreadable, and loads in the remaining case: registered reconciled under the id it carries and not written back; errors change nothing |
| BatchRegistry.BatchRunRegistry.List | desktop/src/batch_commands.rs:386-414 | for any store and any order of the directory: every live run as it is, every readable record without a live handle reconciled, registered and written back under its own id; those rows, newest first and stable; no live handle replaced |
| BatchRegistry.ListRefines | desktop/src/batch_commands.rs:386-414 | what `List` promises is the protocol's list step, in any order of the directory |
| BatchRegistry.LoadRefines | desktop/src/batch_commands.rs:372-380 | what `GetOrLoad` promises is the protocol's load step |
| BatchRegistry.FinalizeRefines | desktop/src/batch_commands.rs:1152-1219 | what `FinalizeBranch` promises is the protocol's terminal write |
| BatchRegistry.AdoptRefines | desktop/src/batch_commands.rs:1563-1657 | loading and adopting is the protocol's adopt step, inbox included |
| BatchRegistry.DiscardRefines | desktop/src/batch_commands.rs:1675-1720 | loading and discarding is the protocol's discard step, inbox included |
| BatchGit.RowsDistinct | desktop/src/batch_commands.rs:1432-1440 | names and paths of one batch never collide and pass the deletion guard |
| BatchGit.CreateWorktrees | desktop/src/batch_commands.rs:1426-1460 | for any repository, the loop creates all rows, or names the first that fails (free path with a taken branch name, or a git error) and leaves what the rollback of the earlier rows and the failed call leave |
| BatchGit.RollBack | desktop/src/batch_commands.rs:1447-1453 | the rollback loop is the fold of worktree removal and branch deletion, errors ignored |
| BatchGit.FailedStartRestores | desktop/src/batch_commands.rs:1426-1463 | for any repository and any failures, all is as before iff the failing call leaves no trace and every earlier row is undone: new ones removed, old worktrees and old branches not |
| BatchGit.FailedStartDamage | desktop/src/batch_commands.rs:1426-1463 | with removals working, all that changes: every worktree at the earlier rows' paths goes, so does every old branch of theirs that is checked out nowhere else, and the failing row's own left-overs stay |
| BatchGit.OldBatchIsLost | desktop/src/batch_commands.rs:1426-1463 | a repository in which a start fails and removes an older batch's worktree, edits, branch and commit |
| BatchGit.FailedBranchStays | crates/shannon-core/src/scheduled_worktree.rs:198-213 | a start whose first creation fails after git made the branch leaves that branch |
| BatchGit.StartCreatesAll | desktop/src/batch_commands.rs:1426-1463 | a row has its branch and worktree at the base iff its path was free or it stood there just so; all that was there stays |
| BatchGit.StartWithoutBranch | desktop/src/batch_commands.rs:1426-1463 | a repository in which a start succeeds and one row has neither branch nor worktree |
| BatchGit.StartCountsBranches | crates/shannon-core/src/scheduled_worktree.rs:176-215 | a successful start adds one branch per row iff every path was free |
| BatchStart.StartBatch | desktop/src/batch_commands.rs:1352-1493 | bad input touches nothing, and which input gives which error; success iff every row could be created, and then a fresh record whose row n is named "batch-", the first eight characters of the id, a dash and n, with its worktree of that name in the base directory, forked from the very commits of the head where the path was free; title and prompt trimmed, the title 50 characters of the prompt if blank; a failure registers nothing and leaves what the failed start leaves |
| BatchStart.DifferentIdsShareNoName | desktop/src/batch_commands.rs:1424-1440 | batches whose ids differ in their first eight characters share no branch name and no path |
| BatchStart.NamesStayOwn | desktop/src/batch_commands.rs:1465-1490 | the names the cleanup relies on hold for the batch's record in every later state, crashes included |
| BatchCleanup.CleanupBranches | desktop/src/batch_commands.rs:1725-1760 | the loop computes the specified cleanup; removed, skipped and excepted branches add up to all |
| BatchCleanup.CleanupKeeps | desktop/src/batch_commands.rs:1029-1053 | branch and worktree of the adopted, excepted, running and unknown rows, and of failed rows whose edits or unmerged commits git reports, are untouched whichever git calls fail |
| BatchCleanup.CleanupFrame | desktop/src/batch_commands.rs:1725-1760 | branches and worktrees that are not the batch's, and the head, are untouched |
| BatchCleanup.CleanupAsJudged | desktop/src/batch_commands.rs:1725-1760 | the loop removes and lists what the initial state says, in order, although each removal changes the repository it judges |
| BatchCleanup.SkippedFor | desktop/src/batch_commands.rs:1029-1053 | a row is listed as adopted, running, unknown or with unmerged work iff it is that, judged before the cleanup in this order; git is named only for rows to remove |
| BatchCleanup.UnremovedKeepsBranch | desktop/src/batch_commands.rs:1738-1757 | a worktree that cannot be removed keeps its branch, and the row is listed |
| BatchCleanup.UndeletedKeepsBranch | desktop/src/batch_commands.rs:1738-1757 | a branch that cannot be deleted stays when its worktree is gone, and the row is listed |
| BatchCleanup.OnlyBatchBranchesGo | desktop/src/batch_commands.rs:1004-1013 | whatever a record says, a cleanup deletes no branch without the prefix "batch-" |
| BatchCleanup.RowRemoved | desktop/src/batch_commands.rs:1738-1757 | a removable row that git can delete is gone, branch and worktree |
| BatchCleanup.FailedRowKeptIff | desktop/src/batch_commands.rs:912-933 | a failed row git can remove keeps branch and worktree iff `git status` answers and there are edits, or the base resolves, the count answers and some commit of the branch is not in it |
| BatchCleanup.FailedCommitsSurvive | desktop/src/batch_commands.rs:923-933 | while the base resolves and the count answers, no commit of a failed branch becomes unreachable |
| BatchCleanup.FailedWorkSurvivesIff | desktop/src/batch_commands.rs:912-933 | commits only a failed row has, on its branch or a detached head in its worktree, survive iff `git status` reports dirt or the count reports unmerged commits, which for a commit of the branch it does iff the base resolves and git answers |
| BatchCleanup.RenamedBaseLosesWork | desktop/src/batch_commands.rs:923-933 | a repository whose base branch was renamed: a commit becomes unreachable |
| BatchCleanup.FailingStatusLosesEdits | desktop/src/batch_commands.rs:912-921 | a repository where `git status` fails on a dirty worktree: the edits go |
| BatchCleanup.DetachedCommitIsLost | desktop/src/batch_commands.rs:912-933 | a repository where an agent committed on a detached head: the worktree is clean, the commit becomes unreachable |
| BatchCleanup.AdoptBranch | desktop/src/batch_commands.rs:1563-1657 | which batch and row pass, by record fields; then a capture that fails, a head or branch that is gone and a merge that does not start are errors, a conflict is told as one, a merge or nothing to merge adopts; without a merge the record stays and the repository gains at most the captured edits |
| BatchCleanup.CaptureFailsIff | desktop/src/batch_commands.rs:935-965 | the capture fails iff there is no worktree, `git status` fails, or there are edits and committing them fails |
| BatchCleanup.CaptureCleans | desktop/src/batch_commands.rs:935-965 | a capture adds the edits to what the worktree has checked out, leaves it clean and changes nothing else |
| BatchCleanup.DiscardBatch | desktop/src/batch_commands.rs:1675-1720 | refused after adoption or discard; otherwise cleanup, with removed plus skipped equal to all branches |
| BatchCleanup.AdoptAccounts | desktop/src/batch_commands.rs:1725-1760 | an adoption removes, lists as skipped, or keeps as the adopted one every branch |
| BatchCleanup.AdoptedBranchIsMerged | desktop/src/batch_commands.rs:935-1003 | after adoption the head reaches all it did, all of the adopted branch, and at most a merge commit more; that branch and its clean worktree stand |
| BatchCleanup.EditsReachHeadIff | desktop/src/batch_commands.rs:935-965 | uncommitted edits reach the head iff the worktree had the batch's branch, or the head's, checked out |
| BatchCleanup.SwitchedBranchMissesEdits | desktop/src/batch_commands.rs:935-965 | a merged adoption that leaves an edit off the head |
| BatchCleanup.DiscardTakesAdopting | desktop/src/batch_commands.rs:1692-1698 | a concurrent discard deletes the branch being adopted: before the capture the adoption fails, after the merge the head keeps the commits and the branch is gone |
| SessionLatch.StepKeepsInv | desktop/src/commands.rs:1550-1583 | every step keeps the invariant on latch, token, pending stop and fired tokens |
| SessionLatch.RunKeepsInv | desktop/src/commands.rs:1550-1583 | it holds in every state of every run |
| SessionLatch.OneRunAtATime | desktop/src/commands.rs:1550-1583 | at most one run is between latch and exit, and a stored token is that run's |
| SessionLatch.IdleIsClean | desktop/src/commands.rs:2719-2736 | an idle session carries no token, no pending stop and no unfinished run |
| SessionLatch.StoppedIsHistory | desktop/src/commands_chat.rs:440-467 | a run counts as stopped iff a stop was issued while it held the latch |
| SessionLatch.NoInheritedStop | desktop/src/commands.rs:2719-2736 | a run's token fires only for a stop in its own epoch, a deletion that took it, or its own budget |
| SessionLatch.NoRunStartsCancelledUnasked | desktop/src/commands.rs:1566-1583 | a run that starts cancelled was stopped, or had its token taken by a deletion, in its own epoch |
| SessionLatch.NoLostStop | desktop/src/commands_chat.rs:440-467 | after a stop on a latched session that run's own token is fired at once, or before its first stream step |
| SessionLatch.StoppedRunSeesNoEvent | desktop/src/commands.rs:1428-1440 | a stopped run takes no further event and cannot end normally; it can only be cancelled or panic |
| SessionLatch.LatchReopensAtExit | desktop/src/commands.rs:2719-2736 | a send is refused while the latch is up and accepted with an unfired token once it is down; only the run's exit lowers it |
| SessionLatch.RunGoesThrough | desktop/src/commands.rs:1550-1583 | from any idle state an unstopped send is accepted, stores its token, streams, takes events and leaves the session idle |
| SessionLatch.StreamIsLeft | desktop/src/commands.rs:2183-2430 | an event over budget fires the run's own token, a failing one ends its loop, and so do a cancelled stream and a panic |
| SessionLatch.DeletedIsHistory | desktop/src/commands_sessions.rs:1881-1893 | a run counts as deleted iff a deletion took its token |
| SessionLatch.DeleteReachesRunIff | desktop/src/commands_sessions.rs:1881-1893 | with deletion and exit one step each, a deletion cancels the latched run iff that run has stored its token; otherwise it changes nothing |
| SessionLatch.DeletedRunStreamsOn | desktop/src/commands_sessions.rs:1907-1911 | a run of the session in which a deleted session's query streams on |
| SessionFine.StopPartsCompose | desktop/src/commands_chat.rs:443-464 | the parts of a stop, with nothing between, are the atomic stop |
| SessionFine.DeletePartsCompose | desktop/src/commands_sessions.rs:1881-1893 | the parts of a deletion's cancel are the atomic one |
| SessionFine.ExitPartsCompose | desktop/src/commands.rs:2719-2736 | the three parts of the exit block, with nothing between, are the atomic exit |
| SessionFine.RunKeepsFineInv | desktop/src/commands.rs:1550-1583 | what holds lock by lock without condition: mutual exclusion, whose token the slot can hold, what commands in flight are about |
| SessionFine.FineOneRunAtATime | desktop/src/commands.rs:1550-1583 | at most one run is between latch and latch reset |
| SessionFine.SafeStepIff | desktop/src/commands_chat.rs:443-464 | from a state where every stop is heard, nobody is cancelled unasked and stops reach, a step leads out iff it is one of the five slips |
| SessionFine.SafeRunIff | desktop/src/commands_chat.rs:443-464 | a run of the session stays safe up to any point iff no step before is a slip |
| SessionFine.FineHistory | desktop/src/commands_chat.rs:440-467 | the histories of stops and deletions are those of the run |
| SessionFine.FineNoLostStop | desktop/src/commands_chat.rs:440-467 | without slips, a stop has fired its run's token once the run streams and no command for it is in flight |
| SessionFine.FineNoInheritedStop | desktop/src/commands.rs:2719-2736 | without slips, a run is cancelled only by its own stop, deletion or budget |
| SessionFine.FineDeleteReachesRunIff | desktop/src/commands_sessions.rs:1881-1893 | in every run, lock by lock: a deletion reaches a run still to leave its stream iff that run has stored its token and, unless it is cancelled already, no older run's exit has dropped it; if the slot is empty a miss changes nothing |
| SessionFine.FineDeleteReachesHolderIff | desktop/src/commands_sessions.rs:1881-1893 | without slips a deletion reaches the run that holds the latch, before it leaves, iff that run has stored its token |
| SessionFine.ReachedIsFired | desktop/src/commands_sessions.rs:1881-1893 | a run reached stays so, and is cancelled once the command that took its token has fired it |
| SessionFine.UnheardRunsOn | desktop/src/commands.rs:1566-1583 | a stop that is not heard is lost: left alone its run streams and takes events |
| SessionFine.UnstoppableLosesStop | desktop/src/commands.rs:2727-2730 | a streaming run whose token was dropped cannot be stopped |
| SessionFine.LateMarkTrace | desktop/src/commands_chat.rs:452-463 | a run into the slip of a flag raised too late |
| SessionFine.WipedTokenTrace | desktop/src/commands.rs:2727-2730 | a run into the slip of an exit that drops the next run's token |
| SessionFine.WipedTokenMissesDelete | desktop/src/commands_sessions.rs:1881-1893 | the same run, and a deletion that finds no token and leaves the run streaming |
| SessionFine.ClearedFlagTrace | desktop/src/commands.rs:2731-2736 | a run into the slip of an exit that clears the next run's flag |
| SessionFine.OldTokenTrace | desktop/src/commands_chat.rs:445-451 | a run into the slip of a stop that takes the previous run's token |
| SessionFine.IdleStopTrace | desktop/src/commands_chat.rs:452-463 | a run into an inherited stop: a stop of an idle session cancels the next send |
| SessionFine.SecondStopTrace | desktop/src/commands_chat.rs:452-463 | a run into an inherited stop whose flag was raised in its own epoch |
| SessionLatch.SessionState.TryLatch | desktop/src/commands.rs:1550-1560 | accepted iff the latch was down, and then it is up; slot and flag stay |
| SessionLatch.SessionState.StoreFreshToken | desktop/src/commands.rs:1562-1567 | the slot holds the run's own fresh token; latch and flag stay |
| SessionLatch.SessionState.ConsumeCancelPending | desktop/src/commands.rs:1569-1583 | the token is cancelled iff it was or a stop was pending; the flag is down, latch and slot stay |
| SessionLatch.SessionState.CancelQuery | desktop/src/commands_chat.rs:440-467 | the slot is emptied and its token cancelled, no other; with an empty slot the flag is raised iff the latch is up; the latch stays |
| SessionLatch.SessionState.CancelForDelete | desktop/src/commands_sessions.rs:1881-1893 | the slot is emptied and its token cancelled, no other; latch and flag stay |
| SessionLatch.SessionState.ResetOnExit | desktop/src/commands.rs:2719-2736 | latch, slot and flag are cleared |
| BackgroundTasks.TaskTable.Finalize | desktop/src/commands.rs:409-436 | the first task with the id takes status, time and output iff it is running; anything else changes nothing |
| BackgroundTasks.TaskTable.Cancel | desktop/src/commands.rs:3229-3266 | the first task with the id is cancelled with token, status, time and output iff it is running; otherwise the error, and no change |
| BackgroundTasks.CancelHalvesCompose | desktop/src/commands.rs:3229-3266 | firing the token and setting the status, with nothing between, are the command |
| BackgroundTasks.StepKeepsInv | desktop/src/commands.rs:3141-3202 | every step of cancel and runner keeps the task and update invariants |
| BackgroundTasks.RunKeepsInv | desktop/src/commands.rs:3141-3202 | they hold in every state of every run |
| BackgroundTasks.TokenMatchesStatus | desktop/src/commands.rs:3229-3266 | with the lock free a token is cancelled iff its task is; a completion time is set iff terminal |
| BackgroundTasks.TerminalTaskFrozen | desktop/src/commands.rs:409-436 | a terminal task never changes again, whoever comes second |
| BackgroundTasks.OneTerminalUpdate | desktop/src/commands.rs:3158-3202 | at most one terminal update per task, of its own status, and exactly one once reported |
| BackgroundTasks.FinishedIsReported | desktop/src/commands.rs:3158-3202 | a runner at rest leaves a terminal task with its update sent |
| BackgroundTasks.CancelledHasNoCard | desktop/src/commands.rs:339-399 | a task cancelled at any moment never has an inbox card |
| BackgroundTasks.EndsAsStreamed | desktop/src/commands.rs:3136-3147 | in every run a task not cancelled ends `failed` iff its stream ended with an error, `completed` iff without, with that stream's output |
| BackgroundTasks.CardIff | desktop/src/commands.rs:339-399 | in every run a task has an inbox card iff its stream ended without error, or with one that is not blank, and was then reported to a store that answered; the card tells the task's status |
| BackgroundTasks.EndsWhenStamped | desktop/src/commands.rs:409-436 | a terminal task carries the time of its runner's write, or of a cancel with the cancel's text |
| BackgroundTasks.TaskGoesThrough | desktop/src/commands.rs:3136-3202 | from any state with the lock free a task can start, stream, decide, be written and be reported; only its own entries are new |
| BackgroundTasks.CancelledRunnerRests | desktop/src/commands.rs:3136-3202 | the runner of a cancelled task can come to rest, and writes and reports nothing |
| BackgroundTasks.RunningCanBeCancelled | desktop/src/commands.rs:3229-3266 | a running task can be cancelled whenever the lock is free, with one update |
| AskUser.RunKeepsInv | desktop/src/ask_user_handler.rs:70-97 | each sender is in one place (map, responder, used or lost) in every state of every run |
| AskUser.OtherIdsUntouched | desktop/src/ask_user_handler.rs:264-295 | a step on one id leaves every other id's question, sender and answer alone |
| AskUser.ResultIsJustified | desktop/src/ask_user_handler.rs:179-217 | a result is the accepted response, the auto-continue answer (switch on) or NoInput (sender lost), and its id is gone from the map |
| AskUser.ResolvedForever | desktop/src/ask_user_handler.rs:179-217 | a wait yields one outcome |
| AskUser.FirstResponseStands | desktop/src/ask_user_handler.rs:264-295 | no later response replaces the first accepted one |
| AskUser.LateResponsesAreNoOps | desktop/src/ask_user_handler.rs:264-295 | responses to answered, resolved or unknown ids change nothing |
| AskUser.RespondIsAccepted | desktop/src/ask_user_handler.rs:264-295 | a response to a question whose sender sits in the map is accepted and can be delivered |
| AskUser.AcceptedIsReturned | desktop/src/ask_user_handler.rs:179-217 | an accepted answer is what the question returns, unless the timer runs out first, the sender is lost or the wait is dropped |
| AskUser.RespondRefines | desktop/src/ask_user_handler.rs:264-295 | a response and its delivery with no step between remove the entry and answer a waiting question, and no other id |
| AskUser.AskGoesThrough | desktop/src/ask_user_handler.rs:70-97 | a fresh id can be asked about and then waits with its sender in the map; the wait can be dropped |
| AskUser.TimeoutGoesThrough | desktop/src/ask_user_handler.rs:190-212 | a timed, unanswered question can time out, returns the preset answer and leaves the map |
| AskUser.LostSenderWakes | desktop/src/ask_user_handler.rs:179-189 | a sender lost in the map or on its way wakes the question without input |
| AskUser.UntimedNeverTimesOut | desktop/src/ask_user_handler.rs:179-217 | asked with auto-continue off, a question never times out |
| AskUser.DeliveredAnswerWins | desktop/src/ask_user_handler.rs:179-217 | an answer delivered while waiting is the result, timer or not |
| AskUser.WaitingIsAnswerable | desktop/src/ask_user_handler.rs:70-97 | a waiting question can always still be answered or woken |
| AskUser.AbandonedEntryStays | desktop/src/ask_user_handler.rs:179-189 | the sender of a dropped wait stays in the map until a response or its loss, and only those take it |
| AskUser.PendingQuestions.Park | desktop/src/ask_user_handler.rs:70-97 | a fresh channel is parked under the id, other entries unchanged |
| AskUser.PendingQuestions.Respond | desktop/src/ask_user_handler.rs:264-295 | the entry is removed and answered if its receiver lives; an unknown id changes nothing |
| AskUser.PendingQuestions.Expire | desktop/src/ask_user_handler.rs:190-212 | the entry is removed and the preset answer returned |
| ActiveRuns.CountsAreGuards | desktop/src/commands.rs:855-886 | after any registers and drops each count is the number of live guards, with no zero entry |
| ActiveRuns.NoPhantomRun | desktop/src/commands.rs:847-886 | with every guard dropped the registry is empty |
| ActiveRuns.ActiveRunRegistry.TakeGuard | desktop/src/commands.rs:860-870 | one guard more, counts still exact |
| ActiveRuns.ActiveRunRegistry.ReleaseGuard | desktop/src/commands.rs:873-886 | one guard less, counts still exact |
| ActiveRuns.ActiveRunRegistry.SoleSession | desktop/src/commands.rs:905-922 | answers s iff s alone has live guards and is on the uncontended rail |
| TomlProfile.TomlBasicString | desktop/src/automation_commands.rs:455-470 | the loop prints the escaped string |
| TomlProfile.TomlStringArray | desktop/src/automation_commands.rs:472-485 | the loop prints the items, separated and bracketed |
| TomlProfile.RenderProfileToml | desktop/src/automation_commands.rs:432-453 | the printed document is the specified rendering |
| TomlProfile.RenderedMeans | desktop/src/automation_commands.rs:432-453 | the document after its comment, line for line |
| TomlProfile.EscapedStaysOnLine | desktop/src/automation_commands.rs:455-470 | a printed string has no raw tab, newline or carriage return, and every quote in it is escaped |
| TomlProfile.ReadEscaped | desktop/src/automation_commands.rs:455-470 | printed string content reads back as the string iff its control characters are the three escaped ones, and otherwise not at all |
| TomlProfile.ReadPrintedItems | desktop/src/automation_commands.rs:472-485 | a printed array reads back as the list under the same condition on each item |
| TomlProfile.ReadRendered | desktop/src/automation_commands.rs:432-453 | the rendered document reads as its five fields iff every string is clean |
| TomlProfile.ProfileRoundTrip | desktop/src/automation_commands.rs:432-485 | a rendered profile loads as itself iff it is named and clean; any other does not load |
| TomlProfile.RenderedInjective | desktop/src/automation_commands.rs:432-485 | clean named profiles that render alike are equal |
| Numstat.SummarizeNumstat | desktop/src/batch_commands.rs:862-881 | the loop computes the totals over the lines as u64 counters |
| Numstat.LinesMean | desktop/src/batch_commands.rs:867-868 | text splits at newlines, each taking one carriage return before it along |
| Numstat.LineMeans | desktop/src/batch_commands.rs:868-878 | any line that is not blank counts one file and the numbers before its first two tabs; what is no number counts as 0 |
| Numstat.NumbersMean | desktop/src/batch_commands.rs:868-878 | a printed number reads back, with or without a plus, iff it fits 64 bits; only digits after at most one plus are a number |
| Numstat.RowReadsBack | desktop/src/batch_commands.rs:868-878 | a printed row is one line that reads as its own counts, whatever its path |
| Numstat.NumstatRoundTrip | desktop/src/batch_commands.rs:862-881 | printed rows summarize to their count and sums modulo 2^64, exact when they fit, binary rows as 0 |
| Numstat.SummariesAdd | desktop/src/batch_commands.rs:862-881 | summaries of whole-line outputs add up over concatenation, for any text |
| Utf8Cut.BoundarySplits | desktop/src/batch_commands.rs:904-910 | a byte boundary is the end of a prefix of whole code points |
| Utf8Cut.BoundaryWithinThree | desktop/src/batch_commands.rs:904-910 | from any byte a boundary is at most three bytes back |
| Utf8Cut.CutPatch | desktop/src/batch_commands.rs:897-912 | the longest prefix of whole code points within the limit, at most three bytes short of it, the whole patch when it fits |
| Utf8Cut.CutPdfText | desktop/src/commands.rs:606-622 | the same for the PDF text loop, which starts past the end of short text |
| ArtifactRegistry.FreshId | desktop/src/commands_artifact.rs:83-88 | a generated id is always a valid one |
| ArtifactRegistry.FreshIdInjective | desktop/src/commands_artifact.rs:83-88 | an id is `a` and 32 digits; different random bytes give different ids |
| ArtifactRegistry.ValidIdMeans | desktop/src/commands_artifact.rs:70-79 | the valid ids are those of one to 64 ASCII letters, digits, dashes and underscores |
| ArtifactRegistry.IdFromRequest | desktop/src/commands_artifact.rs:155-163 | an id is accepted iff the path is one slash and a valid id, without a query |
| ArtifactRegistry.UrlRoundTrip | desktop/src/commands_artifact.rs:140-163 | the URL of a text asks for that text iff it is a valid id, and otherwise at most for the part before a fragment |
| ArtifactRegistry.BoundedIsSuffix | desktop/src/commands_artifact.rs:94-117 | the registry holds the newest entries of the uncapped queue, at most 64 |
| ArtifactRegistry.UnboundedIsKept | desktop/src/commands_artifact.rs:94-117 | the uncapped queue holds exactly the entries registered and not unregistered since |
| ArtifactRegistry.SurvivesIff | desktop/src/commands_artifact.rs:94-117 | an id is present iff registered, not unregistered since and never behind 64 newer live ones |
| ArtifactRegistry.InteractiveArtifactRegistry.Register | desktop/src/commands_artifact.rs:94-103 | the queue gains the entry and keeps within the cap |
| ArtifactRegistry.InteractiveArtifactRegistry.RegisterInteractive | desktop/src/commands_artifact.rs:207-225 | accepted iff neither empty nor over 2 MiB, with an error for each; a refusal changes nothing |
| ArtifactRegistry.InteractiveArtifactRegistry.Unregister | desktop/src/commands_artifact.rs:107-116 | answers whether the id was still there, and removes it |
| ArtifactRegistry.InteractiveArtifactRegistry.Lookup | desktop/src/commands_artifact.rs:119-128 | a valid id is found iff it survives, with the content registered under it |
| ArtifactRegistry.InteractiveArtifactRegistry.Serve | desktop/src/commands_artifact.rs:190-200 | a request is served iff it names a surviving id |
| TokenCache.EntriesWereCounted | desktop/src/commands_chat.rs:1480-1546 | at most 128 entries, each counted in an earlier call on its path with its stamp |
| TokenCache.NothingForgotten | desktop/src/commands_chat.rs:1480-1546 | while fewer than 128 files are asked for, each keeps an entry with the stamp it had last |
| TokenCache.FullIsEmptied | desktop/src/commands_chat.rs:1480-1546 | a count that finds 128 entries empties the cache, and only such a one |
| TokenCache.AnswerIsACount | desktop/src/commands_chat.rs:1480-1546 | every answer is the count of a state of the file with the stamp it has now |
| TokenCache.CacheIsTransparentIff | desktop/src/commands_chat.rs:1480-1546 | the cache answers like the uncached count after every history iff modification time and size tell the count |
| TokenCache.AttachmentTokensCache.Estimate | desktop/src/commands_chat.rs:1480-1546 | the object answers as specified; a missing file is an error and changes nothing |
| LogCollector.BundleIsMaximal | desktop/src/commands_diagnostics.rs:57-79 | no file skipped for its size fits into the final bundle; every other named file is in it |
| LogCollector.BundleIsOfFiles | desktop/src/commands_diagnostics.rs:57-79 | the bundle holds named files of the directory, none twice |
| LogCollector.CollectLogs | desktop/src/commands_diagnostics.rs:57-79 | the loop stays within 20 MiB and flags truncation iff a file was skipped for its size |

## Left out

- BatchProtocol.StepKeepsInv: the locked write of `finalize_branch`, adopt, discard, `get_or_load` and `list` are one step each, on one record per batch. The source releases the record lock between the check and the write of adopt and of discard: the late-adopt and late-discard lemmas say what one such write does, and whole runs do not interleave them. Handles replaced while in use are in `BatchHandles`.
- BatchHandles.StepKeepsCoherent: one batch, a command's check and write one step, permits and the inbox left out; git is not part of it.
- BatchTheorems.CrashRecovery: writes to disk and renames succeed and are whole; torn or failed writes are not modelled.
- BatchTheorems.LiveSpendIsSumOfCosts: spend is a real number, so floating-point rounding is not modelled.
- BatchTheorems.InboxAtMostOnce: the user deleting inbox items, and other features writing to the inbox, are not modelled.
- BatchTheorems.TasksNeverStuck: progress assumes that engine runs end; a fair scheduler is not modelled.
- BatchGit.CreateWorktrees: failures of `git rev-parse` and directory creation inside `create_named` count as creation failures; a failing call leaves nothing, its branch, or branch and worktree, and a registered worktree whose directory is missing counts as no worktree.
- BatchCleanup.AdoptBranch: the worktree directory replaced by a plain directory counts as missing, and tags or remote branches with the base's name do not resolve.
- BatchStart.StartBatch: resolving the session's working directory and the not-a-repository error belong to the caller's world.
- SessionLatch.NoLostStop: holds with stop, deletion and exit as one step each; `SessionFine` says exactly when it holds below that grain.
- SessionLatch.DeleteReachesRunIff: holds with deletion and exit as one step each; `FineDeleteReachesRunIff` is the condition below that grain.
- SessionFine.SafeRunIff: consuming the flag and cancelling the own token, both in the sending task, are one step, and a registry entry replaced after a deletion is not modelled.
- BackgroundTasks.FinishedIsReported: a panic inside the runner, which would leave its task running, is not modelled.
- BatchRegistry.BatchRunRegistry.List: nothing else runs between its steps; `BatchHandles` says what changes when something does. The order of live handles, which is that of a hash map, is not promised.
- ArtifactRegistry.UrlRoundTrip: what a URL parser does to a text that is not a valid id is modelled for queries and fragments only: it also strips tabs and newlines ("ab\nc" asks for "abc") and removes dot segments. Valid ids have none of these.
- AskUser.ResultIsJustified: how many `ask-user-resolved` events a request emits is not modelled; an answer between the deadline and the removal can produce one of each kind.
- TomlProfile.ProfileRoundTrip: the reader covers what the printer can produce (section headers, comments, basic strings, arrays of strings); the rest of TOML v1.0.0 is not read.
- Numstat.SummarizeNumstat: counters wrap, as in a release build; a debug build panics instead.
- TokenCache.AttachmentTokensCache.Estimate: metadata and content are read at one moment; a write between the two is not modelled.
- LogCollector.CollectLogs: reading and sorting the directory and writing the zip are not modelled, and file sizes are unbounded numbers.
- Git itself, the file system, windows and notifications, the engine and its streams, the database, PDF and Office parsing are parameters or abstract.
- The test-count parser behind `verification`, budget guards and the session registry's internals are called but not modelled.
- The conversation token cache: its key is a lossy snapshot and it caches failures, so no agreement holds.
- Exactly one terminal event per interactive turn: it depends on a promise of the engine that is not in these files.
- Static tables, mode mappings and cost formulas: easy case splits.
