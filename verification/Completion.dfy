/** Completing and aborting a conflict: Service.CompleteConflict, Service.AbortConflict, and what a
    restart may conclude from either when it was cut short. */
module Completion {
  import opened Basics
  import opened CommitGraph
  import opened Errors
  import opened Journal
  import opened GitSession
  import opened Recovery
  import opened Sync

  /** The object-id checks of conflict inspection, completion and abort. */
  predicate OidsMatch(op: Operation, repo: Repository) {
    && op.local.Some? && op.candidate.Some? && op.remote.Some?
    && repo.head == op.local
    && repo.mergeHead == op.candidate && repo.mergeHead == op.remote
    && repo.managed == op.remote
  }

  /** A conflict that Sync's merge raised stays answerable: finishing the operation in any way, queueing
      a completion or an abort of it, and resolving paths (which moves no ref) keep every identifier
      that inspection, completion and abort check. */
  lemma HandoffPersists(repo: Repository, row: Operation, f: Finish, unmerged: set<Path>, id: OperationId, kind: Kind)
    requires HandedOff(repo, row)
    ensures HandedOff(repo.(unmerged := unmerged), Finished(row, f))
    ensures OidsMatch(Finished(row, f), repo.(unmerged := unmerged))
    ensures OidsMatch(Inherited(Finished(row, f), id, kind), repo.(unmerged := unmerged))
  {
    FinishKeepsJournalled(row, f);
  }

  /** When initialization has put the branch on the fetched commit and then merges the local snapshot,
      the merge runs the other way round: such a conflict is refused by every check unless the two
      sides are the same commit. */
  lemma ReversedMergeIsRefused(op: Operation, repo: Repository)
    requires op.local.Some? && op.candidate.Some?
    requires repo.head == op.candidate && repo.mergeHead == op.local
    ensures OidsMatch(op, repo) ==> op.local == op.candidate
  {}

  /** verifyConflictCompletion */
  method VerifyCompletion(s: Session, op: Operation) returns (r: Result<()>)
    modifies s`script, s`repo
    ensures SameLocal(old(s.repo), s.repo) && Follows(old(s.script), s.script)
    ensures Calm(old(s.script)) ==> s.repo == old(s.repo) && !r.Crashed? && (r.Ok? <==> OidsMatch(op, s.repo) && s.repo.unmerged == {})
    ensures r.Ok? ==> OidsMatch(op, s.repo) && s.repo.unmerged == {}
    ensures r.Err? ==> r.failure in {GitSession.Safe(RecoveryRequired), GitSession.Safe(MergeNotInProgress), GitSession.Safe(ConflictUnresolved)}
    ensures Calm(old(s.script)) && op.local.Some? && op.candidate.Some? && op.remote.Some? ==>
              && (r == Err(GitSession.Safe(MergeNotInProgress)) <==> s.repo.mergeHead.None?)
              && (r == Err(GitSession.Safe(ConflictUnresolved)) <==> s.repo.mergeHead.Some? && s.repo.unmerged != {})
  {
    if op.local.None? || op.candidate.None? || op.remote.None? {
      return Err(GitSession.Safe(RecoveryRequired));
    }
    var seen := s.Inspect();
    if seen.Crashed? {
      return Crashed;
    }
    if seen.Err? {
      return Err(GitSession.Safe(RecoveryRequired));
    }
    if s.repo.mergeHead.None? {
      return Err(GitSession.Safe(MergeNotInProgress));
    }
    if s.repo.unmerged != {} {
      return Err(GitSession.Safe(ConflictUnresolved));
    }
    if s.repo.head != op.local || s.repo.mergeHead != op.candidate || s.repo.mergeHead != op.remote || s.repo.managed != op.remote {
      return Err(GitSession.Safe(RecoveryRequired));
    }
    r := Ok(());
  }

  /** verifyConflictPushBranch: the merge is over and HEAD is what is to be pushed. */
  method VerifyPushBranch(s: Session, pushed: Commit) returns (r: Result<()>)
    modifies s`script, s`repo
    ensures SameLocal(old(s.repo), s.repo) && Follows(old(s.script), s.script)
    ensures Calm(old(s.script)) ==> s.repo == old(s.repo) && (r.Ok? <==> s.repo.mergeHead.None? && s.repo.head == Some(pushed))
    ensures r.Ok? ==> s.repo.mergeHead.None? && s.repo.head == Some(pushed)
  {
    var _ :- s.Inspect();
    if s.repo.mergeHead.Some? || s.repo.head != Some(pushed) {
      return Err(GitSession.Safe(RecoveryRequired));
    }
    r := Ok(());
  }

  /** HEAD is the merge commit of the operation: exactly two parents, the local side first. */
  predicate IsMergeOf(c: Commit, op: Operation) {
    op.local.Some? && op.remote.Some? && c.parents == [op.local.value, op.remote.value]
  }

  predicate PushAccepted(effects: seq<Effect>, oid: Oid) {
    exists i :: 0 <= i < |effects| && effects[i].Push? && effects[i].accepted && Some(effects[i].oid) == oid
  }

  /** What recovery says of the repository and row as they are, if it can read everything. */
  function Named(s: Session): ConflictState
    reads s
  {
    RecoverLocal(Some(s.row), s.repo, HealthyInspection(s.repo)).result.state
  }

  /** How far a completion has come, read off the repository, the effects and the row. */
  ghost predicate Uncommitted(start: Repository, op: Operation, s: Session)
    reads s
  {
    SameLocal(start, s.repo) && s.effects == []
    && s.row.kind == op.kind && s.row.remote == op.remote
  }

  ghost predicate Merged(start: Repository, op: Operation, s: Session)
    reads s
  {
    s.repo.head.Some? && IsMergeOf(s.repo.head.value, op)
    && SameLocal(start.(head := s.repo.head, mergeHead := None, managed := s.repo.managed), s.repo)
    && s.row.kind == op.kind
  }

  ghost predicate CommittedUnjournalled(start: Repository, op: Operation, s: Session)
    reads s
  {
    Merged(start, op, s) && s.effects == [] && s.repo.managed == op.remote
    && s.row.stage == StageConflictCompleting && s.row.remote == op.remote
  }

  ghost predicate CommittedJournalled(start: Repository, op: Operation, s: Session)
    reads s
  {
    Merged(start, op, s) && s.effects == [] && s.repo.managed == op.remote
    && s.row.stage in {StageConflictCommitted, StageConflictReindexed} && s.row.push == s.repo.head && s.row.remote == op.remote
  }

  ghost predicate PushIssued(start: Repository, op: Operation, s: Session)
    reads s
  {
    Merged(start, op, s) && s.repo.managed == op.remote
    && s.row.stage == StageConflictPushing && s.row.push == s.repo.head && s.row.remote == op.remote
    && (forall i :: 0 <= i < |s.effects| ==> s.effects[i].Push? && Some(s.effects[i].oid) == s.repo.head)
  }

  ghost predicate PushTrusted(start: Repository, op: Operation, s: Session)
    reads s
  {
    Merged(start, op, s) && s.repo.managed == s.repo.head
    && s.row.stage in {StageConflictPushing, StageCompleted} && s.row.push == s.repo.head
    && (s.row.remote == op.remote || s.row.remote == s.repo.head)
    && PushAccepted(s.effects, s.repo.head)
  }

  ghost predicate Reached(start: Repository, op: Operation, s: Session)
    reads s
  {
    || Uncommitted(start, op, s) || CommittedUnjournalled(start, op, s) || CommittedJournalled(start, op, s)
    || PushIssued(start, op, s) || PushTrusted(start, op, s)
  }

  /** The five situations are what recovery tells apart, and it tells them apart correctly. */
  lemma LabelsAreSound(start: Repository, op: Operation, s: Session)
    requires op.kind == ConflictComplete && OidsMatch(op, start) && start.unmerged == {}
    requires Reached(start, op, s)
    ensures Named(s) == CanComplete <==> Uncommitted(start, op, s)
    ensures Named(s) == Ambiguous <==> CommittedUnjournalled(start, op, s)
    ensures Named(s) == NeedsReindex <==> CommittedJournalled(start, op, s) && s.row.stage == StageConflictCommitted
    ensures Named(s) == PushPending <==> CommittedJournalled(start, op, s) && s.row.stage == StageConflictReindexed
    ensures Named(s) == PushUnknown <==> PushIssued(start, op, s)
    ensures Named(s) == Pushed <==> PushTrusted(start, op, s)
  {
    if s.repo.head.Some? && IsMergeOf(s.repo.head.value, op) {
      assert s.repo.head.value.parents[1] == op.remote.value;
      ParentsExcludeChild(s.repo.head.value, 1);
      assert s.repo.head != op.remote;
    }
  }

  /** The order in which a completion journals its stages; recovery relies on it, because the stage says
      which effects may already have happened. */
  const COMPLETION_STAGES: seq<Stage> :=
    [StageConflictCompleting, StageConflictCommitted, StageConflictReindexed, StageConflictPushing, StageCompleted]

  /** verifyConflictCommit: HEAD has exactly the two parents; answers with what the merge changed. */
  method InspectMerge(s: Session, op: Operation) returns (r: Result<Tick>)
    requires s.repo.head.Some?
    modifies s`script, s`repo
    ensures SameLocal(old(s.repo), s.repo) && Follows(old(s.script), s.script)
    ensures r.Ok? ==> IsMergeOf(s.repo.head.value, op) && r.value == Ahead(old(s.script), 2)
    ensures Calm(old(s.script)) ==> s.repo == old(s.repo) && (r.Ok? <==> IsMergeOf(s.repo.head.value, op))
  {
    var _ :- s.Inspect();
    var _ :- s.Inspect();
    if !IsMergeOf(s.repo.head.value, op) {
      return Err(GitSession.Safe(RecoveryRequired));
    }
    r := s.Inspect();
  }

  /** The second half of the callback: check the parents of the new commit and journal it. */
  method JournalMerge(s: Session, op: Operation, ghost start: Repository) returns (r: Result<Commit>)
    requires CommittedUnjournalled(start, op, s) && s.cp.remote == op.remote && s.stages == COMPLETION_STAGES[..1]
    modifies s`script, s`repo, s`row, s`cp, s`stages
    ensures CommittedUnjournalled(start, op, s) || CommittedJournalled(start, op, s)
    ensures SameLocal(old(s.repo), s.repo) && s.stages <= COMPLETION_STAGES
    ensures r.Ok? ==> CommittedJournalled(start, op, s) && s.repo.head == Some(r.value) && s.row.stage == StageConflictCommitted
                      && s.cp.push == s.repo.head && s.cp.remote == op.remote && s.stages == COMPLETION_STAGES[..2]
    ensures SameOperation(old(s.row), s.row) && Follows(old(s.script), s.script)
    ensures Calm(old(s.script)) ==> s.repo == old(s.repo) && (old(s.row).Active() ==> r.Ok?)
    ensures s.cp == old(s.cp).(stage := s.cp.stage, push := s.cp.push, changedPaths := s.cp.changedPaths)
    ensures r.Ok? ==> s.row.changedPaths == Ahead(old(s.script), 2).paths
  {
    var checked :- InspectMerge(s, op);
    s.cp := s.cp.(push := s.repo.head, changedPaths := checked.paths);
    var _ :- s.Save(StageConflictCommitted);
    assert COMPLETION_STAGES[..1] + [StageConflictCommitted] == COMPLETION_STAGES[..2];
    r := Ok(s.repo.head.value);
  }

  /** The callback of CompleteConflict: commit the merge, check its parents, journal it. */
  method CommitCompletion(s: Session, op: Operation, ghost start: Repository) returns (r: Result<Commit>)
    requires op.kind == ConflictComplete && Uncommitted(start, op, s)
    requires OidsMatch(op, start) && start.unmerged == {}
    requires s.row.stage == StageConflictCompleting && s.cp.remote == op.remote && s.stages == COMPLETION_STAGES[..1]
    modifies s`script, s`repo, s`row, s`cp, s`stages
    ensures Reached(start, op, s) && s.effects == [] && s.stages <= COMPLETION_STAGES
    ensures r.Ok? ==> s.stages == COMPLETION_STAGES[..2]
    ensures KeepsHistory(start.head, s.repo.head) && s.repo.managed == start.managed
    ensures r.Ok? ==> CommittedJournalled(start, op, s) && s.repo.head == Some(r.value) && s.row.stage == StageConflictCommitted
                      && s.cp.push == s.repo.head && s.cp.remote == op.remote
    ensures SameOperation(old(s.row), s.row) && Follows(old(s.script), s.script)
    ensures Calm(old(s.script)) && old(s.row).Active() && OidsMatch(op, old(s.repo)) && old(s.repo).unmerged == {} ==>
              r.Ok? && s.repo.remote == old(s.repo).remote
  {
    var _ :- VerifyCompletion(s, op);
    var committed := s.CommitMerge(op.local.value, op.remote.value);
    if s.repo.head != start.head {
      ParentHistory(s.repo.head.value, 0);
    }
    if committed.IsFailure() {
      return if committed.Crashed? then Crashed else Err(GitSession.Safe(RecoveryRequired));
    }
    r := JournalMerge(s, op, start);
  }

  /** The remote has accepted the merge: trust it, then journal that. */
  method TrustPushed(s: Session, op: Operation, pushed: Commit, ghost start: Repository) returns (r: Result<()>)
    requires PushIssued(start, op, s) && s.repo.head == Some(pushed) && Some(pushed) != op.remote
    requires |s.effects| == 1 && s.effects[0].accepted
    requires s.cp.push == s.repo.head && s.cp.remote == op.remote && s.stages == COMPLETION_STAGES[..4]
    modifies s`script, s`repo, s`row, s`cp, s`stages, s`effects
    ensures (PushIssued(start, op, s) || PushTrusted(start, op, s)) && s.repo.head == Some(pushed)
    ensures Pushes(s.effects) == Pushes(old(s.effects)) && s.stages <= COMPLETION_STAGES
    ensures r.Ok? ==> s.stages == COMPLETION_STAGES
    ensures r.Ok? ==> PushTrusted(start, op, s) && s.row.remote == Some(pushed) && s.row.candidate == Some(pushed)
                      && s.row.stage == StageCompleted
    ensures SameOperation(old(s.row), s.row)
    ensures Calm(old(s.script)) && old(s.row).Active() ==> r.Ok?
  {
    assert COMPLETION_STAGES[..4] + [StageCompleted] == COMPLETION_STAGES;
    var moved := s.UpdateTrust(pushed, op.remote);
    assert s.effects[0].accepted;
    assert s.repo.managed != op.remote ==> PushTrusted(start, op, s);
    if moved.IsFailure() {
      return moved;
    }
    s.cp := s.cp.(candidate := Some(pushed), remote := Some(pushed));
    r := s.Save(StageCompleted);
  }

  /** Push the journalled merge, and trust it once the remote has accepted it. */
  method PushAndTrust(s: Session, op: Operation, pushed: Commit, ghost start: Repository) returns (r: Result<()>)
    requires PushIssued(start, op, s) && s.repo.head == Some(pushed) && s.effects == []
    requires s.cp.push == s.repo.head && s.cp.remote == op.remote && s.stages == COMPLETION_STAGES[..4]
    modifies s`script, s`repo, s`row, s`cp, s`stages, s`effects
    ensures (PushIssued(start, op, s) || PushTrusted(start, op, s)) && s.repo.head == Some(pushed)
    ensures Pushes(s.effects) <= 1 && s.stages <= COMPLETION_STAGES
    ensures r.Ok? ==> s.stages == COMPLETION_STAGES
    ensures r.Ok? ==> PushTrusted(start, op, s) && s.row.remote == Some(pushed) && s.row.candidate == Some(pushed)
                      && s.row.stage == StageCompleted
    ensures SameOperation(old(s.row), s.row)
    ensures Calm(old(s.script)) && old(s.row).Active() && FastForwards(old(s.repo).remote, pushed) ==> r.Ok?
  {
    assert pushed.parents[1] == op.remote.value;
    ParentsExcludeChild(pushed, 1);
    var _ :- s.PushBranch(pushed);
    var _ :- VerifyPushBranch(s, pushed);
    var _ :- s.Inspect();
    r := TrustPushed(s, op, pushed, start);
  }

  /** The index is rebuilt and the intent to push journalled. */
  method JournalPublication(s: Session, op: Operation, ghost start: Repository) returns (r: Result<()>)
    requires CommittedJournalled(start, op, s) && s.cp.push == s.repo.head && s.cp.remote == op.remote
    requires s.stages == COMPLETION_STAGES[..2]
    modifies s`script, s`repo, s`row, s`cp, s`stages
    ensures SameLocal(old(s.repo), s.repo) && s.stages <= COMPLETION_STAGES[..4]
    ensures CommittedJournalled(start, op, s) || PushIssued(start, op, s)
    ensures r.Ok? ==> PushIssued(start, op, s) && s.cp.push == s.repo.head && s.cp.remote == op.remote && s.stages == COMPLETION_STAGES[..4]
    ensures SameOperation(old(s.row), s.row) && Follows(old(s.script), s.script)
    ensures Calm(old(s.script)) ==> s.repo == old(s.repo) && (old(s.row).Active() ==> r.Ok?)
  {
    assert COMPLETION_STAGES[..2] + [StageConflictReindexed] == COMPLETION_STAGES[..3];
    assert COMPLETION_STAGES[..3] + [StageConflictPushing] == COMPLETION_STAGES[..4];
    var _ :- s.Save(StageConflictReindexed);
    r := s.Save(StageConflictPushing);
  }

  /** The network half of CompleteConflict: the index is rebuilt and the intent journalled first. */
  method PublishCompletion(s: Session, op: Operation, pushed: Commit, ghost start: Repository) returns (r: Result<()>)
    requires CommittedJournalled(start, op, s) && s.repo.head == Some(pushed)
    requires s.cp.push == s.repo.head && s.cp.remote == op.remote && s.stages == COMPLETION_STAGES[..2]
    modifies s`script, s`repo, s`row, s`cp, s`stages, s`effects
    ensures Reached(start, op, s) && s.repo.head == Some(pushed)
    ensures s.repo.managed == op.remote || s.repo.managed == Some(pushed)
    ensures Pushes(s.effects) <= 1 && s.stages <= COMPLETION_STAGES
    ensures r.Ok? ==> s.stages == COMPLETION_STAGES
    ensures r.Ok? ==> PushTrusted(start, op, s) && s.row.remote == Some(pushed) && s.row.candidate == Some(pushed)
                      && s.row.stage == StageCompleted
    ensures SameOperation(old(s.row), s.row)
    ensures Calm(old(s.script)) && old(s.row).Active() && FastForwards(old(s.repo).remote, pushed) ==> r.Ok?
  {
    var _ :- JournalPublication(s, op, start);
    var _ :- VerifyPushBranch(s, pushed);
    var _ :- s.Inspect();
    r := PushAndTrust(s, op, pushed, start);
  }

  /** The checks before anything is done, and the first checkpoint. */
  method BeginCompletion(s: Session, op: Operation) returns (r: Result<()>)
    requires op == s.row && s.stages == [] && s.cp == CheckpointOf(s.row)
    modifies s`script, s`repo, s`row, s`cp, s`stages
    ensures SameLocal(old(s.repo), s.repo) && s.stages <= COMPLETION_STAGES[..1]
    ensures s.row == op || (OidsMatch(op, s.repo) && s.repo.unmerged == {} && s.row == op.(state := Running, stage := StageConflictCompleting))
    ensures r.Ok? ==> s.row.stage == StageConflictCompleting && s.row.state == Running && s.stages == COMPLETION_STAGES[..1]
    ensures r.Ok? ==> s.row != op || (OidsMatch(op, s.repo) && s.repo.unmerged == {})
    ensures r.Ok? ==> s.cp.remote == op.remote
    ensures Follows(old(s.script), s.script)
    ensures Calm(old(s.script)) ==>
              s.repo == old(s.repo) && (r.Ok? <==> OidsMatch(op, s.repo) && s.repo.unmerged == {} && op.Active())
  {
    var _ :- VerifyCompletion(s, op);
    var _ :- s.Save(StageConflictCompleting);
    var _ :- s.Inspect();
    r := Ok(());
  }

  /** CompleteConflict past its first checkpoint. */
  method CompleteMatched(s: Session, op: Operation, ghost start: Repository) returns (r: Result<Commit>)
    requires op.kind == ConflictComplete && OidsMatch(op, start) && start.unmerged == {} && Uncommitted(start, op, s)
    requires s.row.stage == StageConflictCompleting && s.row.Active() && s.cp.remote == op.remote && s.stages == COMPLETION_STAGES[..1]
    modifies s`script, s`repo, s`row, s`cp, s`stages, s`effects
    ensures Reached(start, op, s) && Pushes(s.effects) <= 1
    ensures s.stages <= COMPLETION_STAGES && (r.Ok? ==> s.stages == COMPLETION_STAGES)
    ensures KeepsHistory(start.head, s.repo.head) && KeepsHistory(start.managed, s.repo.managed)
    ensures r.Ok? ==> PushTrusted(start, op, s) && s.repo.head == Some(r.value)
                      && s.row.remote == Some(r.value) && s.row.candidate == Some(r.value) && s.row.stage == StageCompleted
    ensures SameOperation(old(s.row), s.row)
    ensures Calm(old(s.script)) && old(s.repo).remote == op.remote ==> r.Ok?
  {
    var pushed :- CommitCompletion(s, op, start);
    ParentHistory(pushed, 0);
    ParentHistory(pushed, 1);
    var _ :- s.Inspect();
    var _ :- PublishCompletion(s, op, pushed, start);
    r := Ok(pushed);
  }

  /** Service.CompleteConflict. Wherever it stops - a crash, a lost reply, a refused push - the state it
      leaves is one of the situations recovery tells apart. */
  method CompleteConflict(s: Session, op: Operation) returns (r: Result<Commit>)
    requires op == s.row && op.kind == ConflictComplete
    modifies s
    ensures OidsMatch(op, old(s.repo)) && old(s.repo).unmerged == {} ==> Reached(old(s.repo), op, s)
    ensures !OidsMatch(op, old(s.repo)) || old(s.repo).unmerged != {} ==>
              !r.Ok? && SameLocal(old(s.repo), s.repo) && s.row == op && s.effects == []
    ensures Pushes(s.effects) <= 1
    ensures s.stages <= COMPLETION_STAGES && (r.Ok? ==> s.stages == COMPLETION_STAGES)
    ensures KeepsHistory(old(s.repo).head, s.repo.head)
    ensures KeepsHistory(old(s.repo).managed, s.repo.managed)
    ensures r.Ok? ==> PushTrusted(old(s.repo), op, s) && s.repo.head == Some(r.value)
                      && s.row.remote == Some(r.value) && s.row.candidate == Some(r.value) && s.row.stage == StageCompleted
    ensures SameOperation(old(s.row), s.row)
    // an undisturbed completion of a resolved merge succeeds
    ensures Calm(old(s.script)) && op.Active() && OidsMatch(op, old(s.repo)) && old(s.repo.unmerged == {} && s.repo.remote == op.remote) ==>
              r.Ok?
  {
    s.effects, s.stages := [], [];
    s.cp := CheckpointOf(s.row);
    ghost var start := s.repo;
    var _ :- BeginCompletion(s, op);
    r := CompleteMatched(s, op, start);
  }

  /** The repository is as the abort found it. */
  ghost predicate AbortPending(start: Repository, s: Session)
    reads s
  {
    SameLocal(start, s.repo)
  }

  ghost predicate AbortDone(start: Repository, s: Session)
    reads s
  {
    SameLocal(start.(mergeHead := None, unmerged := {}), s.repo) && s.row.stage == StageConflictAborting
  }

  lemma AbortLabels(start: Repository, op: Operation, s: Session)
    requires OidsMatch(op, start) && (AbortPending(start, s) || AbortDone(start, s))
    requires s.row.kind == ConflictAbort && s.row.Active() && s.row.local == op.local && s.row.remote == op.remote
    ensures Named(s) == Aborted <==> AbortDone(start, s)
    ensures Named(s) in {InConflict, CanComplete} <==> AbortPending(start, s)
  {}

  /** The checks before an abort, and its checkpoint, which names what the merge had changed. */
  method PrepareAbort(s: Session, op: Operation) returns (r: Result<()>, ghost listed: set<Path>)
    requires op == s.row && s.cp == CheckpointOf(op) && op.Active()
    modifies s`script, s`repo, s`row, s`cp, s`stages
    ensures SameLocal(old(s.repo), s.repo) && Follows(old(s.script), s.script)
    ensures s.row == op || (OidsMatch(op, s.repo) && s.row == op.(state := Running, stage := StageConflictAborting, changedPaths := s.cp.changedPaths))
    ensures r.Ok? ==> OidsMatch(op, s.repo) && s.row == op.(state := Running, stage := StageConflictAborting, changedPaths := s.cp.changedPaths)
    ensures r.Ok? ==> s.row.changedPaths == listed
    ensures Calm(old(s.script)) ==> s.repo == old(s.repo) && !r.Crashed? && (r.Ok? <==> OidsMatch(op, s.repo))
  {
    listed := {};
    var _ :- VerifyAbort(s, op);
    var _ :- s.Inspect();
    var _ :- VerifyAbort(s, op);
    var changed :- s.Inspect();
    listed := changed.paths;
    s.cp := s.cp.(changedPaths := changed.paths);
    r := s.Save(StageConflictAborting);
  }

  /** The abort itself, and the check that HEAD is back where the merge began. */
  method FinishAbort(s: Session, op: Operation) returns (r: Result<()>)
    requires OidsMatch(op, s.repo)
    modifies s`script, s`repo
    ensures SameLocal(old(s.repo), s.repo) || SameLocal(old(s.repo).(mergeHead := None, unmerged := {}), s.repo)
    ensures r.Ok? ==> SameLocal(old(s.repo).(mergeHead := None, unmerged := {}), s.repo)
    ensures Calm(old(s.script)) ==> r.Ok?
  {
    var aborted := s.AbortMerge();
    if aborted.IsFailure() {
      return if aborted.Crashed? then Crashed else Err(GitSession.Safe(RecoveryRequired));
    }
    var _ :- s.Inspect();
    if s.repo.mergeHead.Some? || s.repo.unmerged != {} || s.repo.head != op.local {
      return Err(GitSession.Safe(RecoveryRequired));
    }
    r := Ok(());
  }

  /** Service.AbortConflict: HEAD and trust stay; recovery calls it aborted exactly when it is. */
  method AbortConflict(s: Session, op: Operation) returns (r: Result<()>)
    requires op == s.row && op.kind == ConflictAbort && op.Active()
    modifies s
    ensures s.effects == []
    ensures s.repo.head == old(s.repo).head && s.repo.managed == old(s.repo).managed
    ensures AbortPending(old(s.repo), s) || (OidsMatch(op, old(s.repo)) && AbortDone(old(s.repo), s))
    ensures s.row.Active() && s.row.local == op.local && s.row.remote == op.remote
    ensures r.Ok? ==> AbortDone(old(s.repo), s)
    ensures OidsMatch(op, old(s.repo)) ==> (Named(s) == Aborted <==> AbortDone(old(s.repo), s))
    ensures OidsMatch(op, old(s.repo)) ==> (Named(s) in {InConflict, CanComplete} <==> AbortPending(old(s.repo), s))
    ensures SameOperation(old(s.row), s.row)
    ensures Calm(old(s.script)) ==> !r.Crashed? && (r.Ok? <==> OidsMatch(op, old(s.repo)))
  {
    s.effects := [];
    s.cp := CheckpointOf(s.row);
    var prepared, _ := PrepareAbort(s, op);
    if prepared.IsFailure() {
      r := prepared;
    } else {
      r := FinishAbort(s, op);
    }
    if OidsMatch(op, old(s.repo)) {
      AbortLabels(old(s.repo), op, s);
    }
  }

  /** verifyConflictAbort */
  method VerifyAbort(s: Session, op: Operation) returns (r: Result<()>)
    modifies s`script, s`repo
    ensures SameLocal(old(s.repo), s.repo) && Follows(old(s.script), s.script)
    ensures Calm(old(s.script)) ==> s.repo == old(s.repo) && !r.Crashed? && (r.Ok? <==> OidsMatch(op, s.repo))
    ensures r.Ok? ==> OidsMatch(op, s.repo)
  {
    var seen := s.Inspect();
    if seen.Crashed? {
      return Crashed;
    }
    if seen.Err? || op.local.None? || op.candidate.None? || op.remote.None?
       || s.repo.head != op.local || s.repo.mergeHead != op.candidate || s.repo.mergeHead != op.remote || s.repo.managed != op.remote {
      return Err(GitSession.Safe(RecoveryRequired));
    }
    r := Ok(());
  }
}
