# IGoNotes: verified model of Git synchronization

IGoNotes keeps note directories in step with a remote Git branch through the system's Git. This project
models the parts of it where a mistake loses notes, publishes the wrong commit or leaves a base in a state that
lies about itself, and proves what they promise. `dafny verify dfyconfig.toml` checks everything.

| module | what it models |
|---|---|
| `CommitGraph`, `GitSession` | the commit graph; the repository, the remote branch and the journal row of one operation, with every Git command and every checkpoint as one step |
| `Sync`, `Completion`, `Recovery`, `Backup`, `Connect`, `Initialize` | the sync, conflict, recovery and initial-connection protocols on those steps |
| `Journal`, `Statuses`, `NoteIndex` | the operation journal, the status table with its failure budget, the note index transaction |
| `ManagerState`, `ManagerSafety`, `ManagerRuns`, `Admissions`, `Manager` | the two-lock job manager: its steps, what they keep, whole runs, what an admission queues, and its code |
| `ManagerRecovery`, `Restart` | the manager's restart, and a crash followed by a restart |
| `Scheduler`, `Coordinator` | the autosync scheduler, the lock-free conflict set |
| `Configuration`, `Settings`, `GateRelease` | the configured bases, the settings transaction, and the conflict gates a new configuration releases |
| `Replacement`, `ReplacementStatuses` | replacing the whole configuration: which base continues which, and where its status row goes |
| `Redaction` | the Knuth-Morris-Pratt redaction of secrets |
| `Records`, `ConflictParser`, `IndexParser`, `PorcelainParser`, `ConflictGroups`, `Resolution` | reading conflicts from Git's output, cross-checking and classifying them, resolving one |

## How the outside world enters

* A Git object id is the commit it names: a finite tree of parents. Hashing is taken to be injective.
* Each Git command and each checkpoint reads one entry of a script that says what happens around it: another client
  moves the remote first, the process dies before or after the command, the command is refused, or it is applied and
  reported as failed. A statement about every script is a statement about every crash point and every interleaving
  with the remote. A script is calm if none of this happens, and steady if nothing but moves of the remote does; the
  protocols are also proved to succeed on calm ones, and a Sync on steady ones with one move that merges.
* What is assumed of Git: a merge that succeeds leaves HEAD descending from both sides, a merge that fails leaves HEAD
  where it was, an accepted push is a fast-forward, `update-ref` with an old value is a compare-and-swap. Nobody else
  writes to the local repository while an operation runs.
* Other failures (database, file system, configuration lookups) are parameters of the methods and of the steps.

## What turned out to be conditional

* **A recovery that reports an error can leave a base ungated**, in exactly two ways. `RecoverLocal` opens the gate of
  a base in order before it writes the base's status row (`internal/service/git_manager.go:1693-1703`), so a failing
  status write leaves the base without a gate. As `RecoverLocal` runs in a new process, where no gate is set, a gate
  that was set is lost this way only if two configured bases share a path and the one before found it out of order.
  And a base whose journal or status record cannot be read is skipped (`internal/service/git_manager.go:1374-1385`),
  so its gate stays as it was: in a new process, open, even over a merge in progress. `RestartedManager.RecoverBase`
  and `RecoverAll` prove that these are the only ways (if and only if); `GateOpensUnsaved` and
  `UnreadBaseStaysUngated` give an input for each. Without an error every merge in progress is gated, and a process
  only serves after a restart without an error (`StartUp`).
* **Recovery names the trusted remote at every crash point only for a Sync that started from one.** Without a trusted
  remote, the gap between journalling the candidate and moving the managed ref is ambiguous
  (`CandidateGapNeedsTrust`, if and only if); admission never starts such a Sync (`SyncTrustIsAgreement`).
* **A moved base is not always asked to reconnect.** When the configuration is replaced, a base that moves with its Git
  connection gets a row that asks to reconnect, unless a base further down the list, without a connection of its own,
  is renamed in that same directory: its row then overwrites the request
  (`internal/service/settings_service.go:1314-1334`). `ReconnectIsAskedFor` states this as an if and only if, and
  `ReconnectCanBeLost` carries such a configuration through the whole replacement.
* **A base can end up with two status rows** after a replacement if a row that nobody configured owned already has its
  new name (`TwoRowsExactly`, if and only if; `OneRowEach` for the causes, `TwoRowsCanRemain` for an input).
* **A resumed connection can leave commits behind.** When an earlier run's snapshot is on record it is used again
  (`internal/git/connect.go:189-201`) and no new one is taken, so commits made since on a HEAD off the selected branch
  are backed up by nothing. After a success such a HEAD is kept if and only if the selected branch, the recorded
  snapshot, the fetched branch or a backup ref reaches it (`Initialize`, for a HEAD that is not itself a merge of the
  snapshot or of the fetched commit). Without a snapshot on record, or with HEAD on the selected branch, nothing is
  lost wherever the run stops. `DetachedHeadIsLeft` runs a whole connection that succeeds and leaves a detached HEAD
  behind. If HEAD is on another branch, its commits
  stay on that branch, which is not among the refs of this statement, and are not lost. Only a caller of the exported
  `Service.Initialize` can pass such a row: the manager, its only caller in the program, overwrites snapshot, backup,
  candidate and push of the operation with empty values just before the call
  (`internal/service/git_manager.go:981`, `internal/service/git_manager.go:940-947`).
* **The evidence of a rename** uses the empty path for "no rename yet" (`internal/git/conflict.go:460`,
  `internal/git/conflict.go:468`). `RenameDeleteEvidence` is exact for entries as the name-status parser returns them,
  which never have an empty old path.

## Model

| member | source | states |
|---|---|---|
| CommitGraph.AncestorAntisymmetric | internal/git/sync.go:257-264 | Two commits that reach each other are equal, so a ref that only moves to descendants never comes back to a value it left |
| CommitGraph.ParentsExcludeChild | internal/git/conflict_resolution.go:229-239 | A merge commit is different from each of its parents and is in no parent's history |
| CommitGraph.MergeOn | internal/git/sync.go:490-537 | A clean merge, fast-forward or not, contains the whole history of both sides, and nothing else but itself |
| Journal.ApplyKeepsWellformed | internal/repository/git_operation_repo.go:33-135 | Every guarded statement, accepted or refused, keeps at most one active row per repository path |
| Journal.JournalRun | internal/repository/git_operation_repo.go:33-135 | Over any sequence of writes with any failures: one active row per path, finished rows never change, admission columns are immutable, no row disappears |
| Journal.FinishKeepsJournalled | internal/repository/git_operation_repo.go:84-135 | Finishing never replaces an identifier or backup ref that a checkpoint recorded |
| Journal.OperationTable.CreateQueued | internal/repository/git_operation_repo.go:33-58 | A row is created exactly when its id is new and its path has no active row, queued and otherwise as given; otherwise the table is unchanged |
| Journal.OperationTable.Checkpoint | internal/repository/git_operation_repo.go:60-82 | Progress is recorded exactly for an active row: every column of progress takes its own value, the columns of admission stay, and no other row changes |
| Journal.OperationTable.Finish | internal/repository/git_operation_repo.go:84-135 | A row is closed exactly when it is active and the state is terminal, and is not active afterwards: an empty identifier column takes its own value and any other one stays, a path list that is given becomes its own column and one that is not stays, and no other row changes |
| GitSession.Session.Save | internal/git/sync.go:38-55 | A checkpoint either overwrites the progress columns of an active row or leaves the row; success means it was written, failure may mean either |
| GitSession.Session.UpdateTrust | internal/git/sync.go:276-304 | The managed ref moves only from the expected value, with the row, HEAD and fetch ref it moved under on record |
| GitSession.Session.SwapTrust | internal/git/sync.go:294-303 | A swap that was applied but reported as failed counts as done once the ref has been read again |
| GitSession.Session.PushBranch | internal/git/sync.go:108-131 | Success means the remote has exactly this commit and took it as a fast-forward; a failed push may have been taken; where every command is carried out, a push that the remote does not take is rejected |
| Sync.RequireSyncTrust | internal/git/sync.go:306-319 | Passing it means the managed ref is the remote that was trusted last |
| Sync.AdvanceSyncTrust | internal/git/sync.go:276-304 | Trust moves to the candidate or not at all, only to a descendant, only when the row and the fetch ref name the candidate; undisturbed, it moves if and only if the managed ref was the trusted one |
| Sync.FetchSyncCandidate | internal/git/sync.go:230-274 | The new trusted remote descends from the old one, is journalled first, and recovery names the managed ref at every point in between; undisturbed, it succeeds if and only if the remote branch descends from the trusted remote |
| Sync.PreAddMergeState | internal/git/sync.go:415-432 | A pre-existing or unreadable merge always ends the run as a conflict, named interrupted exactly if it is unreadable, gone or without unmerged paths, and otherwise nothing was written |
| Sync.MergeSyncCandidate | internal/git/sync.go:490-537 | HEAD keeps its history; success means HEAD contains the candidate and no merge is open; a merge left open is described by the row and reported with its unmerged paths; undisturbed, related histories merge |
| Sync.RunSyncWorktree | internal/git/sync.go:321-399 | Snapshot and merge lose nothing on any exit and journal the commit to push |
| Sync.PrePushSyncCheck | internal/git/sync.go:575-606 | Passing it means HEAD and trust are still those of this pass |
| Sync.CompleteSyncPush | internal/git/sync.go:608-627 | Trust moves to the accepted commit or stays, recoverable either way; success means journal, managed ref and remote agree |
| Sync.Sync | internal/git/sync.go:57-143 | For every script: HEAD and the managed ref only move to descendants, every push and every trust move was journalled before it was made, at most two pushes, recovery names the managed ref at every stop, success means managed ref, HEAD, journal and last accepted push are one commit, a merge left open is handed over exactly. An undisturbed run whose sides fit together succeeds, and so does one during which another client moves the branch once, anywhere, to a descendant that merges: the second pass publishes the result |
| Recovery.CandidateGapNeedsTrust | internal/git/recovery.go:260-294 | Between journalling a candidate and trusting it, recovery is unambiguous if and only if the operation started from a trusted remote |
| Recovery.RemoteIsBorneOut | internal/git/recovery.go:260-311 | Recovery never names another remote than the managed ref, and names it if and only if the refs bear out what the row says: it is the trusted remote, or the pushed commit that HEAD is at, or the fetched candidate, or the row says nothing |
| Recovery.UnreadRefProvesNothing | internal/git/recovery.go:260-311 | With a fetch ref that cannot be read the remote is named exactly where it would be without such a ref |
| Recovery.LabelsExactly | internal/git/recovery.go:118-258 | For every row, repository and inspection, each of the nine labels is given if and only if its own condition on merge state, row and refs holds |
| Recovery.AnswerExactly | internal/git/recovery.go:118-258 | What recovery reports of HEAD, merge, paths, remote and push, and nothing of them where it cannot look; it blocks if and only if there is an error, and there is none exactly at rest with known progress or nothing unaccounted for |
| Recovery.FailureExactly | internal/git/recovery.go:118-214 | Which error blocks |
| Completion.HandoffPersists | internal/git/conflict.go:115-126 | A conflict handed over by Sync meets the object-id checks of inspection, completion and abort, through finishing, queueing a follow-up and any resolution |
| Completion.ReversedMergeIsRefused | internal/git/connect.go:1211-1246 | A merge of the local side into the fetched branch never passes the checks made for the other direction unless both sides are equal |
| Sync.TakeSnapshot | internal/git/sync.go:329-375 | A worktree that the inspection finds changed, and only that, becomes a commit on HEAD; the local side found first stays on record |
| Sync.PublishPass | internal/git/sync.go:97-138 | Undisturbed: done if the remote still is the candidate, else a second pass if there is one left, else rejected. Where every command is carried out but the branch may move, a refused push asks for the second pass if there is one left and is the error otherwise; a second pass is only ever asked for because the branch moved or a push was refused; the stages journalled on the way are exactly those of the protocol, in order |
| Completion.VerifyCompletion | internal/git/conflict_resolution.go:77-127 | Completion starts, undisturbed if and only if, HEAD, MERGE_HEAD and the managed ref are the journalled ones and no path is unmerged |
| Completion.LabelsAreSound | internal/git/recovery.go:118-258 | Each label of recovery is given if and only if the completion is in the situation it names: uncommitted, committed but not journalled, journalled and not pushed, push issued, push accepted and trusted |
| Completion.CommitCompletion | internal/git/conflict_resolution.go:160-190 | Wherever the commit step stops, the state is one recovery tells apart; success means the merge commit has exactly the journalled parents and is journalled |
| Completion.TrustPushed | internal/git/conflict_resolution.go:214-227 | The managed ref moves only to the commit the remote accepted, and is journalled after |
| Completion.CompleteConflict | internal/git/conflict_resolution.go:138-227 | Wherever it stops: one of the five situations, stages journalled in order, at most one push, HEAD and trust keep their history; success means the remote accepted the merge and trust followed; an undisturbed completion of a resolved merge succeeds |
| Completion.AbortConflict | internal/git/recovery.go:10-62 | HEAD and trust stay; recovery says aborted if and only if the merge is gone, and in conflict or completable if and only if it is still there; undisturbed, it succeeds if and only if the recorded ids match |
| Backup.ValidRefsAreNames | internal/git/connect.go:954-969 | A journalled ref is accepted if and only if it is a name this operation can have given |
| Backup.NamesAreDistinct | internal/git/connect.go:947-952 | Different collision numbers give different ref names |
| Backup.FirstFreeName | internal/git/connect.go:990-1000 | The search ends at the first name that no ref has |
| Backup.EnsureBackup | internal/git/connect.go:971-1051 | Terminates for all refs and races; returns the journalled name of a ref holding the snapshot; never changes an existing ref; creates no ref before its name is journalled; undisturbed, a new name is always found, and a journalled one is taken if and only if it is valid and holds the snapshot or is free |
| Backup.Compact | internal/git/connect.go:1717-1724 | In-place compaction of an ascending list of strings keeps exactly its elements, each once, in order |
| Backup.SortedUnique | internal/git/connect.go:1711-1725 | The strictly ascending list of exactly the given strings |
| Backup.SortedFormIsUnique | internal/git/connect.go:1711-1725 | There is only one such list, so the result depends on nothing but which strings there are |
| Connect.MergeIfNeeded | internal/git/connect.go:1250-1297 | Success means HEAD contains the commit and everything it contained before, with no merge open, and without the confirmation that they share a commit |
| Connect.SelectBranch | internal/git/connect.go:1113-1233 | HEAD ends on the selected branch, which keeps its history; a HEAD that was on it keeps its history too; undisturbed, it succeeds if and only if the branch exists, was fetched, or may be created at a snapshot |
| Connect.DetectPopulation | internal/git/connect.go:628-697 | A half-finished checkout of the fetched branch into an empty directory is recognized only where the refs are as such a run left them; undisturbed, nothing is changed and the answer is exactly what refs and inspections of the directory say |
| Connect.SelectAndMerge | internal/git/connect.go:1113-1248 | The commit to push contains the snapshot, the selected branch and the fetched branch, and nothing besides them but merges of the last two; without the confirmation each of the two merges joins histories that share a commit, and undisturbed that is exactly when it succeeds |
| Connect.EstablishTrust | internal/git/connect.go:1053-1111 | Trust moves to the fetched commit or not at all; from a previously trusted remote only to a descendant; undisturbed, exactly if trust is where it was left and the candidate descends from it, or this operation had moved it already |
| Connect.PublishInitial | internal/git/connect.go:294-349 | At most one push, journalled before; success means accepted, trusted and journalled |
| Initialize.Preflight | internal/git/connect.go:526-626 | Passing it means no merge is open, the journalled backup holds the journalled snapshot, and the managed ref is the remote trusted last or was moved on by this very operation; undisturbed, it passes if and only if no merge is open, a recorded backup has a name of this operation and a recorded snapshot, and the refs do not contradict the row, or, without a repository, nothing is on record; it answers exactly whether only the end of a push is missing |
| Initialize.FinishAccepted | internal/git/connect.go:1359-1445 | A push that the remote already accepted is not repeated: trust moves to it, from a trusted remote only to a descendant; undisturbed, if and only if HEAD still is that commit and trust is accounted for |
| Initialize.Initialize | internal/git/connect.go:97-355 | For a new row or one of an earlier run: success means the accepted and trusted commit contains the snapshot, the selected branch and the fetched branch; wherever it stops the selected branch and a HEAD on it keep their history, a HEAD elsewhere is kept if its snapshot is taken now or if branch, snapshot or a backup reached it, trust only moves on, no backup ref has changed and there was at most one push; after a success with an earlier snapshot a HEAD elsewhere is kept if and only if branch, snapshot, fetched commit or a backup reaches it; no branch is created and no histories that share no commit are joined without the confirmation for it; an undisturbed, confirmed run, new or resumed at its snapshot, succeeds if its refs fit; a deleted branch is never created again and an accepted push never repeated |
| Initialize.DetachedHeadIsLeft | internal/git/connect.go:189-201 | An input that a whole undisturbed connection accepts, merges and pushes, after which the commits of the detached HEAD are in no backup |
| Statuses.BudgetIsForOperationalFailures | internal/service/git_resilience_contracts.go:33-97 | Exactly the failed syncs and completions use the budget whose code is not one of the 21 listed, which name something to decide or repair, or a decision; exactly a success that leaves the base in sync refills it |
| Statuses.StatesOfOutcomes | internal/service/git_resilience_contracts.go:33-66 | Each state of an ended job, ready, conflict, needs reconnect, paused or error, is shown if and only if its own condition on kind, ending, earlier state and code holds; a deleted branch and a rewritten history pause |
| Statuses.CounterIsTally | internal/repository/git_status_transition.go:30-87 | Over every run of transitions the stored counter is the number of increments since the last reset, and the increment that reaches five pauses the row |
| Statuses.PublishStatus | internal/service/git_manager.go:154-187 | Success means the row is the published one with the counter and state its old row determines, or is gone; a failed publication leaves the table as it was, except for a seeded row whose removal fails too; no other row changes |
| ManagerSafety.StepIsSafe | internal/service/git_manager.go:277-463 | Every step of every thread keeps: one job per path, its id in flight and active in the journal, nothing in flight without an active row |
| ManagerSafety.RenameIsSafe | internal/service/git_manager.go:1147-1155 | Renaming the captured entry keeps its identity in queue, in-flight table and journal |
| ManagerSafety.CloseCapturedIsSafe | internal/service/git_manager.go:1156-1159 | After the journal write of an eviction the captured index still names the job whose row was closed |
| ManagerSafety.EvictIsSafe | internal/service/git_manager.go:1160-1164 | Removing the entry by its captured index removes that job and no other |
| ManagerSafety.FinishIsSafe | internal/service/git_manager.go:1221-1335 | Ending a job, however its writes fail, leaves it either finished in the journal or still active and in flight |
| ManagerSafety.CheckpointCommutes | internal/service/git_manager.go:925-966 | Journal write and publication of a checkpoint may be seen as one step of the state machine: an enqueue or a close that comes before it or between the two writes may as well come after |
| ManagerSafety.EndingCommutes | internal/service/git_manager.go:1221-1335 | Likewise an enqueue or a close before the step that ends a job |
| ManagerRuns.MovesKeepOrder | internal/service/git_manager.go:836-872 | Evictions, renames and appends never let a later job overtake an earlier one |
| ManagerRuns.ManagerRun | internal/service/git_manager.go:277-872 | Every interleaving of admissions, refreshes, worker steps, synchronous jobs and close: at most one job per path, first in first out, finished rows never change, at most five failures between two resets, a paused row is left only through Resume |
| ManagerRuns.OneJobPerPath | internal/service/git_manager.go:314-330 | Two jobs of one path never exist, and a queued job is the operation in flight |
| ManagerRuns.StepKeepsBudget | internal/service/git_manager.go:314-392 | No step but Resume changes a paused row, and the counter is the increments recorded since the last reset |
| ManagerRuns.ResumeCompensates | internal/service/git_manager.go:362-392 | A Resume that queues nothing and whose compensations succeed leaves the status table as it was and no operation active that was not |
| Admissions.AdmitQueuesExactly | internal/service/git_manager.go:299-462 | An admission queues its job if and only if the base is open for it and all its statements are stored: the job is then the last of the queue, under its own ticket, its new row journalled and in flight, and the status row working, with the failures it had unless the base was resumed; nothing else changes |
| Admissions.UnshownRowIsClosed | internal/service/git_manager.go:434-462 | A row whose status could not be stored is closed as failed, otherwise just as it was created; if that fails, too, it stays queued and in flight |
| Admissions.StaleJobIsClosed | internal/service/git_manager.go:1142-1166 | A queued job whose base was changed under it has its row closed as failed, otherwise as it was |
| Admissions.AdmitAdopts | internal/service/git_manager.go:318-410 | An active operation that the process does not know yet is taken over as the one in flight exactly if it is for this base and what is asked for is welcome; nothing else happens |
| Admissions.AdmitConflictQueuesExactly | internal/service/git_manager.go:538-655 | A completion or an abort is queued if and only if a conflict is shown and inspected, nothing is under way and row and status are stored: its row takes over every identifier of the conflicting operation, and the conflict stays shown |
| Admissions.AdmitConflictAdopts | internal/service/git_manager.go:567-588 | A completion or an abort takes over an active operation of its own kind for this base, and no other |
| Manager.GitManager.constructor | internal/service/git_manager.go:64-115 | A manager over any well-formed journal and status table starts in a state that keeps every invariant |
| Manager.GitManager.Capture | internal/service/git_manager.go:1127-1141 | The loop finds the path's job, the one the state machine captures |
| Manager.GitManager.Renew | internal/service/git_manager.go:1142-1159 | Keeps, renames or closes the captured job as the state machine says |
| Manager.GitManager.Evict | internal/service/git_manager.go:1160-1164 | The index used after the journal write is that of the captured job |
| Manager.GitManager.Admit | internal/service/git_manager.go:299-392 | Admission takes the step of the state machine; an accepted job is the last of the queue; the answer is a duplicate if and only if what is asked for is welcome and an operation for this very base is in flight or journalled as active, and is then that operation |
| Manager.GitManager.AdmitDurably | internal/service/git_manager.go:434-462 | A job is queued if and only if its row and its status were stored |
| Manager.GitManager.ResumePaused | internal/service/git_manager.go:362-392 | Resume either queues the job or reports a refusal with nothing queued |
| Manager.GitManager.EnqueueSynchronous | internal/service/git_manager.go:475-484 | Accepted if and only if the manager is open |
| Manager.GitManager.Pop | internal/service/git_manager.go:852-861 | The worker takes the first job of the queue, and none after close |
| Manager.GitManager.SaveProgress | internal/service/git_manager.go:925-966 | The status of a checkpoint is published only after the checkpoint is stored |
| Manager.GitManager.FinishJob | internal/service/git_manager.go:1230-1335 | Except for an abort that succeeds, the row is closed and the classified status published independently of each other's failure; once published, the row shows exactly the state and counter that the outcome calls for, a fifth failure in a row included |
| Manager.GitManager.FinishAbort | internal/service/git_manager.go:1257-1286 | An abort that succeeds publishes its status first and closes its row only once that is stored; the published row shows exactly what the outcome calls for |
| Manager.GitManager.CompleteTerminal | internal/service/git_manager.go:1345-1354 | A job leaves the in-flight table if and only if its row was closed |
| ManagerRecovery.SyncTrustIsAgreement | internal/service/git_manager.go:1765-1820 | A Sync is admitted with exactly the remote that the status names and the last operation on this remote stands behind, and otherwise not at all |
| ManagerRecovery.InitializeTrustIsConsistent | internal/service/git_manager.go:1765-1820 | An initialization is refused only over a remote that the status names and the journal denies; otherwise it starts from the one on record |
| ManagerRecovery.JudgementIsSound | internal/git/recovery.go:118-214 | A merge in progress always blocks, progress labels never do, and readable refs give exactly the managed ref |
| ManagerRecovery.AgreementAdmits | internal/service/git_manager.go:1765-1820 | Once journal, status and managed ref agree, the next Sync is admitted with exactly the managed ref |
| ManagerRecovery.BehindExactly | internal/service/git_manager.go:1398-1446 | Whose conflict it is: that of the operation the status leads to, or of the last one of this base that met a conflict, or nobody's |
| ManagerRecovery.InConflictExactly | internal/service/git_manager.go:1447-1466 | A base is in conflict if and only if unmerged paths or an unreadable merge are found, or nobody was ending a conflict that the records know of |
| ManagerRecovery.RestartSaysWhatIs | internal/service/git_manager.go:1466-1703 | The row a restart leaves, case by case: error exactly for a committed completion not known to be accepted, ready exactly for an accepted one or a base in order that was not paused, paused exactly for an abort that is over or a base in order that was, conflict and needs reconnect exactly otherwise; with the error, the operation and the paths each case names, and failures as before unless a completion was accepted |
| ManagerRecovery.PauseOutlives | internal/service/git_manager.go:1693-1699 | A base to which nothing happened is paused after a restart if and only if it was before, with as many failures |
| ManagerRecovery.RestartClosesRight | internal/service/git_manager.go:1467-1629 | The row an unfinished operation is closed with: everything it had journalled is kept; it has succeeded exactly if it was a completion that turned out to be accepted or an abort that turned out to be over, met a conflict exactly if there is one that is not settled otherwise, and has failed in every other case |
| ManagerRecovery.GateOpensUnsaved | internal/service/git_manager.go:1693-1703 | An input for which a gate that an earlier base at the same path had set is opened although an error is returned |
| ManagerRecovery.UnreadBaseStaysUngated | internal/service/git_manager.go:1374-1385 | An input for which a new process leaves a merge in progress ungated; it returns an error and does not serve |
| ManagerRecovery.StartUp | cmd/api/main.go:120-122 | A process that serves has gated every merge in progress; one that does not has gated exactly those whose records it could read |
| ManagerRecovery.RestartedManager.RecoverBase | internal/service/git_manager.go:1365-1705 | There is no error if and only if the reads succeed and everything the case calls for is stored. Then a merge in progress is gated, the gate fits the status, status row and closed journal row say exactly what the case calls for and a recorded conflict is announced; a base to which nothing happened stays paused if and only if it was; over a merge in progress the gate is set if and only if it was set before or the records could be read; a base is left ungated with an error if and only if it is in order and the last status write fails, or it was ungated and its records cannot be read; an interrupted Sync ends with journal, status and managed ref agreeing; a completion ends ready if and only if recovery says pushed |
| ManagerRecovery.RestartedManager.Settle | internal/service/git_manager.go:1526-1540 | The gate opens exactly when status and row were both stored |
| ManagerRecovery.RestartedManager.RecoverTransition | internal/service/git_manager.go:1467-1602 | An unfinished completion or abort is settled if and only if the index sync, the checkpoint, the status and the row it needs are stored |
| ManagerRecovery.RestartedManager.CloseUnfinished | internal/service/git_manager.go:1604-1629 | The closed row names the recovered remote, and the paths of the conflict if there is one |
| ManagerRecovery.RestartedManager.RecoverAll | internal/service/git_manager.go:1356-1707 | Without an error every fully configured base with a merge in progress is gated and every unfinished row of one closed; in any case exactly those are gated that were gated before or whose records could be read; with working storage, rows of their own paths and bases in different places there is no error |
| Restart.SyncThenRestart | internal/git/recovery.go:260-311 | A Sync stopped anywhere and a restart without errors: journal, status and managed ref agree, nothing is lost, and the next Sync is admitted with that remote, whether or not a conflict was already announced; with working storage there is no error |
| Restart.CompleteThenRestart | internal/git/recovery.go:118-258 | A completion stopped anywhere and a restart without errors: the base is ready if and only if the remote accepted the merge and trust followed; with working storage there is no error |
| Scheduler.RebuiltIsScheduled | internal/service/git_scheduler.go:164-198 | A rebuilt schedule has exactly the candidates; none is due before its interval since the last recorded attempt has passed |
| Scheduler.ScheduleExactly | internal/service/git_scheduler.go:131-231 | For every configuration: a base with autosync and an interval of 5, 15, 30 or 60 minutes is scheduled in its place, blocked exactly unless its row is ready or failed with less than five failures, due when it was if interval and last attempt are as before, and otherwise in its five-second slot or once its interval since the last attempt is over, whichever is later |
| Scheduler.GitScheduler.Reconcile | internal/service/git_scheduler.go:131-198 | Success means exactly the bases with autosync and an offered interval are scheduled, each as it has to be: blocked as its status says, else due in its slot, after its interval, or when it was; refused, with nothing changed, if and only if the bases or the status of such a base cannot be read |
| Scheduler.GitScheduler.ReconcileAndLog | internal/service/git_scheduler.go:122-129 | A failed reconciliation keeps the schedule and is due again after the retry delay; a successful one is not |
| Scheduler.GitScheduler.NextDelay | internal/service/git_scheduler.go:248-266 | In every visiting order the delay is the clamped distance to the earliest due time or metadata retry |
| Scheduler.GitScheduler.QueueDue | internal/service/git_scheduler.go:268-305 | Due bases are offered once each, in order of due time, configuration and path, none early; when it goes on, nothing is due any more, and it goes on unless cancelled or refused by a closed manager |
| Scheduler.GitScheduler.Run | internal/service/git_scheduler.go:83-109 | Over every sequence of timers and notifications: each round starts with the schedule its predecessor's reconciliation left, the timer is set for exactly what is due first, bases are offered only when it fires, in order, once each and none early, a failed reconciliation and only that leaves a retry, and only a cancellation or a closed manager ends the run |
| Scheduler.InsertKeepsOrder | internal/service/git_scheduler.go:275-283 | Sorting by due time, configuration order and path yields an ordered list |
| Coordinator.RunIsLinear | internal/service/base_operation_coordinator.go:49-101 | Every interleaving of goroutines: the published set is the fold of the completed updates in the order of their swaps, none is lost, and no snapshot changes |
| Coordinator.BaseOperationCoordinator.SetConflict | internal/service/base_operation_coordinator.go:49-76 | Takes effect at one point between call and return, whatever others do; the retry loop ends |
| Coordinator.BaseOperationCoordinator.ClearConflictForIdentity | internal/service/base_operation_coordinator.go:78-100 | Likewise for clearing by directory identity |
| Coordinator.BaseOperationCoordinator.CheckMutationForIdentity | internal/service/base_operation_coordinator.go:117-136 | Refuses if and only if the completed updates leave the path or the same directory pending |
| NoteIndex.ReplaceFinalizer.Commit | internal/repository/note_repo.go:119-131 | Only the first commit reaches the database, only without an earlier rollback, and later calls repeat its answer |
| NoteIndex.ReplaceFinalizer.Rollback | internal/repository/note_repo.go:133-145 | Never changes committed rows and fails after a successful commit |
| NoteIndex.BeginReplaceAll | internal/repository/note_repo.go:71-109 | Nothing of the new index is seen before the commit; it is prepared if and only if every statement succeeds and no id comes twice, and then holds exactly the given notes; a failed one leaves no transaction open unless its rollback fails |
| NoteIndex.RowOfEach | internal/repository/note_repo.go:86-94 | Every note of an accepted list has its own row |
| Settings.PinnedExactly | internal/service/note_service.go:290-300 | Pinning yields the configuration asked for, with the first base of the current name in the given directory and every other base, setting and name untouched; it is refused if and only if there is no such base |
| Settings.RecordedExactly | internal/service/settings_service.go:513-530 | A place is on record exactly for a connected base that some row of a change places, and it is the one of the first such row |
| Settings.NoteService.PersistConfig | internal/service/note_service.go:173-200 | The file is saved if and only if the service is healthy and the configuration keeps the pinned base, that is if its current path leads to the directory the notes are open in; what is saved is the configuration asked for with the current base there; a failure changes nothing |
| Settings.NoteService.SwitchBaseTransaction | internal/service/note_service.go:227-288 | Index, file and pinned root change together, or stay as they were, or the service says it could not undo the switch; what is saved is the configuration asked for with the current base in the new directory; it succeeds if and only if every step can, and leaves no transaction open |
| Settings.SettingsService.ApplyConfig | internal/service/settings_service.go:271-319 | An error leaves everything as it was, gates included, or degrades the service; success means memory and file hold the configuration asked for, only with the current base in the canonical directory the runtime works on, and comes if and only if it can be saved in place or the switch goes through; then exactly the gates of removed directories are released |
| Settings.SettingsService.RestoreStatuses | internal/service/settings_service.go:538-564 | Status rows are exactly as before, even if failed writes were applied, unless the service is degraded |
| Settings.SettingsService.ApplyConfigWithGitStatuses | internal/service/settings_service.go:491-511 | An error leaves configuration, file, index, root and status rows all as before, or degrades the service, and releases no gate; without a failing write it succeeds whenever the configuration can be applied |
| Settings.SettingsService.Mutate | internal/service/settings_service.go:683-733 | A degraded service refuses every mutation and changes nothing; after a success memory and file hold the configuration asked for, pinned, and the changed status rows |
| GateRelease.KeptDirectoryStaysGated | internal/service/settings_service.go:332-388 | A gate on a directory that a new base lies in is not released, whatever the file system and the status rows say |
| GateRelease.RecordedIdentity | internal/service/settings_service.go:332-346 | A configured path stands for the place on record of the last connected base there, even if nothing is there |
| GateRelease.ResolvedIdentity | internal/service/settings_service.go:347-388 | Without one it stands for what it resolves to, or for no place known for certain |
| GateRelease.ReleaseIsExact | internal/service/settings_service.go:332-388 | Without status rows: nothing is released while a kept path is broken or an alias, otherwise exactly the gates on directories that an old base lay in and no new one lies in |
| GateRelease.Capture | internal/service/settings_service.go:332-408 | The list without duplicates clears only gates that are to be released, and all of them where a canonical path leads to itself |
| GateRelease.ReleaseGates | internal/service/settings_service.go:410-416 | Whatever other goroutines do meanwhile: a gate that is not to be released and that they leave alone stays, one that is to be released and that they do not set again is gone |
| Replacement.MatchReplaceConfigBases | internal/service/settings_service.go:1171-1226 | A new base is matched to an old one if and only if it keeps its name, or is the only claim to the only unnamed old base in its directory. Fails exactly when a directory met on the way cannot be resolved, which depends on the order of the old bases |
| Replacement.OrderIsIrrelevant | internal/service/settings_service.go:1171-1226 | A matching that is found depends on which bases there are, not on the order of either list |
| Replacement.OnlyCandidateAt | internal/service/settings_service.go:1199-1216 | The search finds the only candidate or none, and fails if and only if an unresolvable path comes before two candidates |
| Replacement.ContinuesIsInjective | internal/service/settings_service.go:1171-1226 | No old base is continued by two new ones |
| Replacement.ConnectionsAreCounted | internal/service/settings_service.go:1149-1169 | Every Git connection is counted once for each base that has it |
| Replacement.ProtectReplaceConfigGitFields | internal/service/settings_service.go:1149-1169 | Accepts if and only if every new base has exactly the Git settings of the base it continues, or none |
| Replacement.ConnectionsAreNotCopied | internal/service/settings_service.go:1149-1226 | An accepted configuration has no Git connection the old one did not have, and none more often |
| ReplacementStatuses.PrepareReplaceConfigGitStatuses | internal/service/settings_service.go:1245-1336 | The changes turn the status table into the planned one; refused if and only if a base that needs its row has two, or a directory cannot be resolved |
| ReplacementStatuses.ExistingGitStatusPath | internal/service/settings_service.go:636-662 | Finds the base's only row, or none, and refuses exactly when there are two |
| ReplacementStatuses.NoRowIsOrphaned | internal/service/settings_service.go:1245-1336 | Afterwards every row names a new base, unless it named no configured base before |
| ReplacementStatuses.TwoRowsExactly | internal/service/settings_service.go:1245-1336 | A new base ends up with two rows if and only if a row that is left alone bears its name and either another such row does or the base writes another one last |
| ReplacementStatuses.OneRowEach | internal/service/settings_service.go:1245-1336 | A new base with two rows has a name that a row of nobody configured had, or continues an old base that had two rows |
| ReplacementStatuses.TwoRowsCanRemain | internal/service/settings_service.go:1245-1336 | A configuration that is accepted although one of its bases ends up with two rows |
| ReplacementStatuses.ReconnectIsAskedFor | internal/service/settings_service.go:1314-1334 | A moved base with a connection is asked to reconnect if and only if no later base is renamed in its directory |
| ReplacementStatuses.RenamedRowIsKept | internal/service/settings_service.go:1318-1328 | A renamed base keeps its row up to the name if and only if no later base moves into its directory |
| ReplacementStatuses.ReconnectCanBeLost | internal/service/settings_service.go:1314-1334 | A configuration that the service accepts and carries out without an error, after which the request to reconnect is lost |
| ReplacementStatuses.AcceptedIsExact | internal/service/settings_service.go:1245-1336 | The exact conditions above hold of every table that matches the plan, where connected bases lie in separate directories |
| ReplacementStatuses.ValidateUniqueGitRepositoryPaths | internal/service/settings_service.go:607-634 | Passes if and only if connected bases lie in directories that differ in path and identity |
| ReplacementStatuses.ReplaceConfig | internal/service/settings_service.go:1055-1083 | Success: memory and file hold the new configuration, pinned, settings carried, connections not copied, the status table as planned with no row left behind, reconnections asked for and rows kept exactly as stated above, kept directories still gated; error: everything as before, gates included, or the service is degraded; an acceptable configuration succeeds if nothing fails |
| Redaction.LongestAtIsMaximum | internal/git/errors.go:175-222 | The naive definition picks the longest secret that matches at a position |
| Redaction.ScanRendersSpans | internal/git/errors.go:175-222 | The naive scan's output is the text with exactly its spans replaced |
| Redaction.SpansAreLongestMatches | internal/git/errors.go:175-222 | Replaced spans follow one another without overlap, and each is the longest match at its start |
| Redaction.ChainIsDisjoint | internal/git/errors.go:175-222 | Any two replaced spans are ordered and disjoint, not only neighbours |
| Redaction.SpansCoverSecrets | internal/git/errors.go:175-222 | Every occurrence of every secret starts inside a replaced span, so no copied stretch contains one |
| Redaction.Step | internal/git/errors.go:187-202 | One byte of the scan finds the longest overlap, in a number of fallbacks paid for by earlier matches |
| Redaction.FillPrefixTable | internal/git/errors.go:224-235 | The table holds the longest proper border of every prefix, and the inner loop runs fewer times than the pattern is long |
| Redaction.RecordMatches | internal/git/errors.go:187-202 | Raises the longest match exactly where the secret occurs, with at most as many fallbacks as text bytes |
| Redaction.ReplaceSecretVariants | internal/git/errors.go:175-222 | Equals the naive scan |
| Redaction.ScanTail | internal/git/errors.go:250-257 | The scan of the last bytes ends with the longest overlap there |
| Redaction.PrefixSuffixLength | internal/git/errors.go:241-262 | The largest length of four or more at which the text ends in a proper prefix of the secret, or zero |
| Redaction.ReplaceAll | internal/git/errors.go:147-150 | The single-secret branch equals the naive scan of that one secret |
| Redaction.TailLength | internal/git/errors.go:157-164 | The short-circuited loop finds the maximum over all secrets |
| Redaction.RedactWith | internal/git/errors.go:143-169 | The naive scan, with a cut-off secret at the very end protected as well |
| Records.JoinSplit | internal/git/conflict_parser.go:45-53 | Joining split pieces gives the text back, and only the last piece may hold a separator |
| Records.SplitJoin | internal/git/conflict_parser.go:45-53 | Splitting joined pieces gives the pieces back |
| Records.SplitTerminated | internal/git/conflict_parser.go:45-53 | NUL splitting accepts exactly printed lists of NUL-free parts and returns that list |
| Records.ReadsExactlyWhatIsPrinted | internal/git/conflict_parser.go:55-203 | Output is read as a list of entries if and only if it is that list of valid entries, printed |
| ConflictParser.ParseNameStatus | internal/git/conflict_parser.go:158-185 | Accepts exactly the printed lists of valid entries, whatever bytes their paths hold, and returns that list |
| ConflictParser.ParseCheckAttr | internal/git/conflict_parser.go:187-203 | Accepts exactly the printed lists of attributes with non-empty paths, and returns that list |
| ConflictParser.DigitsOfScore | internal/git/conflict_parser.go:107-120 | A three-digit score is the only spelling of its value |
| ConflictParser.ScoresExactly | internal/git/conflict_parser.go:109-120 | The similarity scores are the numbers up to a hundred in three digits |
| IndexParser.ParseIndexStages | internal/git/conflict_parser.go:122-144 | Accepts exactly the lists of valid records with no stage of a path twice, whatever white space, ASCII or not, separates the metadata |
| IndexParser.KeyIsInjective | internal/git/conflict_parser.go:137-141 | The key for duplicates names path and stage without ambiguity |
| IndexParser.SpaceIsEncoded | internal/git/conflict_parser.go:122-144 | White space is recognized wherever the UTF-8 encoding of one of its code points stands, with the length of that encoding |
| IndexParser.SpaceIsDecoded | internal/git/conflict_parser.go:122-144 | Where white space is recognized, the text starts with the UTF-8 encoding of one of its code points |
| IndexParser.IndexRoundTrip | internal/git/conflict_parser.go:122-144 | Printing an index and parsing it is the identity |
| PorcelainParser.ParsePorcelain | internal/git/conflict_parser.go:55-93 | Accepts exactly the printed lists of valid records and returns type, code, path and original path of each |
| PorcelainParser.ValidIsTaken | internal/git/conflict_parser.go:61-90 | A valid record is read back whatever follows it, even if its path holds spaces |
| ConflictGroups.GroupsPartition | internal/git/conflict.go:236-249 | The groups partition the unmerged stages |
| ConflictGroups.ConflictStageGroups | internal/git/conflict.go:236-292 | Succeeds if and only if unmerged stages, full index and status describe the same conflicts |
| ConflictGroups.MatchIndex | internal/git/conflict.go:250-268 | Counting confirmations decides agreement with the full index |
| ConflictGroups.EvidenceIsUnique | internal/git/conflict.go:459-512 | Two change lists never prove two different conflicts |
| ConflictGroups.RenameDeleteEvidence | internal/git/conflict.go:459-512 | Accepts exactly one rename and one deletion of the old path, or one modification and one deletion, stated on multisets and so independent of order |
| ConflictGroups.ClassifyConflict | internal/git/conflict.go:400-431 | The kind is the one that code, merge bases and evidence determine, and is refused if there is none |
| ConflictGroups.CheckedGroupsHaveACode | internal/git/conflict.go:284-310 | Past the cross-check every group is one of the four classifiable combinations |
| Resolution.RejectResolutionCollision | internal/git/conflict_resolution.go:1189-1208 | Passes if and only if no other unresolved conflict names one of the paths |
| Resolution.BuildResolutionPlan | internal/git/conflict_resolution.go:1082-1141 | A plan exists if and only if the request is valid and its paths are clear; it removes the sources it does not rewrite and stages the conflict's path and the outputs |
| Resolution.PlannableExactly | internal/git/conflict_resolution.go:984-1141 | A request has a plan if and only if it is the answer that the conflict and its action call for, field by field, and no other conflict names a path of the conflict or of the request |
| Resolution.ArrangePlan | internal/git/conflict_resolution.go:1218-1248 | The original path of a rename is staged only if it is an output |
| Resolution.TargetReached | internal/git/conflict_resolution.go:347-378 | Outputs in place, sources gone and the rest unchanged is exactly the target map |
| Resolution.TargetIsStable | internal/git/conflict_resolution.go:347-378 | The target depends on nothing an interrupted run may have changed |
| Resolution.MatchingIsNoLoss | internal/git/conflict_resolution.go:490-718 | What is written over an existing entry outside the conflict's own paths has the same content and kind |
| Resolution.TargetIsResolved | internal/git/conflict_resolution.go:1082-1141 | The target map: the local side at the path named for it, the remote side at its own, a manual content with the mode of the local side first, the other paths of the conflict gone, everything else as before |
| Resolution.Worktree.WriteNonSourceOutputs | internal/git/conflict_resolution.go:704-718 | Touches only free or matching outputs outside the sources and can be repeated |
| Resolution.Worktree.RemoveSources | internal/git/conflict_resolution.go:789-812 | Removes the planned paths and nothing else |
| Resolution.Worktree.WriteSourceOutputs | internal/git/conflict_resolution.go:720-760 | Replaces what stands on the conflict's own paths and touches nothing else |
| Resolution.Worktree.VerifyDestinations | internal/git/conflict_resolution.go:490-594 | Passes if and only if every output outside the sources is free or already there and not tracked |
| Resolution.Worktree.CarryOut | internal/git/conflict_resolution.go:347-378 | Success means exactly the target map; wherever it stops only sources and outputs changed and the destinations still verify |
| Resolution.Worktree.StopAndRunAgain | internal/git/conflict_resolution.go:347-378 | Stopping after any change and resolving again gives the map of an undisturbed run |
| Resolution.Worktree.ResolveConflict | internal/git/conflict_resolution.go:292-386 | Touches no path of another unresolved conflict, and wherever it stops loses nothing outside the conflict's own paths; success means that every side that is kept stands at the path named for it with its own content and mode, the other paths of the conflict are gone and everything else is as it was, with nothing failed on the way; a feasible plan in a reliable worktree succeeds |

## Left out

- Session.Merge: a refused, conflicting or stuck merge is one step; a merge that dies halfway inside Git is not modelled.
- Session.CommitMerge: moving HEAD and removing MERGE_HEAD is one step; a commit that dies between the two, and would be labelled completable although it is made, is not modelled.
- GitManager.WriteJournal: a journal write that is reported as failed is taken not to have been applied here; the protocol modules do model applied-but-failed checkpoints.
- Initialize: how a repository is created, its origin set and checked, and confirmations asked for is not modelled; a confirmation is a yes or no.
- ClassifyConflict: how blobs are previewed, attributes are read and actions are offered for a kind is not modelled.
- ParsePorcelain: fields that the parser does not keep (submodule state, modes) are arbitrary texts without spaces, as the parser treats them.
- CarryOut: a file is written in one step, so a write cut short inside one file is not modelled; directories, Git's clean filters and executable bits beyond adopting a matching file are not either.
- Redact: the list of secret variants is taken as given, non-empty and longest first; deriving it from URLs and the last regular expression over URL user information are not modelled.
- ApplyConfig: the file system is one fixed snapshot for a whole mutation; that a directory changes between resolving its path and switching to it is modelled only as the refusal of its pinned root.
- ReplaceConfig: takes a normalized configuration (trimmed, resolved, unique names); the normalization is not modelled.
- RecoverBase: rows of a renamed base are given with their effective name; how the rename is found is not modelled.
- GitScheduler: wake-ups are given as a list of events; that notifications coalesce is not modelled.
- Running Git processes, timeouts, process trees and environment filtering; Git commands are abstract steps.
- Validation of URLs, branch names and commit templates, confirmation dialogs, error messages.
- HTTP handlers, the web front end, systemd units, directory pickers, the command line.
- Note editing, assets and revisions: they would only add easy members.
- SQL text, JSON, time formatting, symbolic links as files, path canonicalisation and everything specific to Windows.
