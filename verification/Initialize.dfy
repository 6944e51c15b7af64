/** Service.Initialize: the whole connection of a base, new or picked up where an earlier run stopped. */
module Initialize {
  import opened Basics
  import opened CommitGraph
  import opened Errors
  import opened Journal
  import opened GitSession
  import opened Backup
  import opened Connect

  // ---------------------------------------------------------------- before anything is done

  /** A row as admission creates it. */
  predicate Fresh(op: Operation) {
    op.backupRef == "" && op.local.None? && op.candidate.None? && op.push.None?
  }

  /** The snapshot of an earlier run is on record, with the ref that holds it. */
  predicate SnapshotOnRecord(op: Operation) {
    op.local.Some? && op.backupRef != ""
  }

  /** Such a row of a run that had not come to its push, with a backup that is there or can still be made. */
  predicate Resumes(op: Operation, refs: BackupRefs, base: string)
    reads refs
  {
    SnapshotOnRecord(op) && op.push.None? && ValidBackupRef(op.backupRef, base) && refs.CanHold(op.backupRef, op.local.value)
  }

  /** A new row, or one that can be resumed. */
  predicate Startable(op: Operation, refs: BackupRefs, base: string, lastRemote: Oid, hadRepository: bool)
    reads refs
  {
    if hadRepository then Fresh(op) || Resumes(op, refs, base) else Fresh(op) && lastRemote.None?
  }

  /** provenPostPushGap: the push of this operation was accepted and trusted, and only that is not journalled. */
  predicate GapProven(op: Operation, repo: Repository, attached: bool) {
    && attached && op.stage == StagePushing && op.candidate.Some? && op.remote == op.candidate
    && op.push.Some? && op.push != op.candidate
    && repo.fetched == op.candidate && repo.managed == op.push && repo.head == op.push
    && IsAncestor(op.candidate.value, op.push.value)
  }

  /** preflightInitializeRefs for an existing repository: what the refs and the row contradict each other in. */
  function RefsConflict(op: Operation, repo: Repository, refs: Refs, lastRemote: Oid, gap: bool): Option<ErrorCode> {
    if op.backupRef != "" && op.backupRef in refs && Some(refs[op.backupRef]) != op.local then Some(BackupMismatch)
    else if op.candidate.Some? && repo.fetched.Some? && repo.fetched != op.candidate then Some(HistoryRewritten)
    else if lastRemote.None? || (gap && repo.managed == op.push) || repo.managed == lastRemote then None
    else if repo.managed.Some? && repo.managed == op.candidate && repo.fetched == repo.managed then None
    else Some(HistoryRewritten)
  }

  /** The fetched candidate was trusted and merged into the commit that HEAD is at, that was pushed, and that the
      managed ref has been moved to since; only the end of the operation is not on record. */
  ghost predicate OnlyTheEndIsMissing(op: Operation, repo: Repository, attached: bool) {
    attached && op.stage == StagePushing
    && exists fetched, pushed: Commit ::
         && Some(fetched) == repo.fetched && op.candidate == Some(fetched) && op.remote == Some(fetched)
         && Some(pushed) == repo.head && op.push == Some(pushed) && repo.managed == Some(pushed)
         && fetched != pushed && IsAncestor(fetched, pushed)
  }

  lemma GapExactly(op: Operation, repo: Repository, attached: bool)
    ensures GapProven(op, repo, attached) <==> OnlyTheEndIsMissing(op, repo, attached)
  {}

  /** The backup ref on record holds another commit than the one recorded with it. */
  ghost predicate BackupDiffers(op: Operation, refs: Refs) {
    op.backupRef != "" && op.backupRef in refs && op.local != Some(refs[op.backupRef])
  }

  /** The fetch ref and the recorded candidate are both there, and different. */
  ghost predicate CandidateDiffers(op: Operation, repo: Repository) {
    exists recorded, fetched: Commit :: op.candidate == Some(recorded) && repo.fetched == Some(fetched) && recorded != fetched
  }

  /** A remote was trusted last, and the managed ref is neither there, nor at what this operation fetched, nor, if
      only the end is missing, at what it pushed. */
  ghost predicate TrustDiffers(op: Operation, repo: Repository, lastRemote: Oid, gap: bool) {
    && lastRemote.Some? && repo.managed != lastRemote && !(gap && repo.managed == op.push)
    && !(repo.managed.Some? && op.candidate == repo.managed && repo.fetched == repo.managed)
  }

  /** Exactly these three contradictions between the refs and the row stop an initialization. */
  lemma RefsConflictExactly(op: Operation, repo: Repository, refs: Refs, lastRemote: Oid, gap: bool)
    ensures RefsConflict(op, repo, refs, lastRemote, gap) == Some(BackupMismatch) <==> BackupDiffers(op, refs)
    ensures RefsConflict(op, repo, refs, lastRemote, gap) == Some(HistoryRewritten)
            <==> !BackupDiffers(op, refs) && (CandidateDiffers(op, repo) || TrustDiffers(op, repo, lastRemote, gap))
    ensures RefsConflict(op, repo, refs, lastRemote, gap) in {None, Some(BackupMismatch), Some(HistoryRewritten)}
  {}

  /** The managed ref is the remote trusted last, or this very operation moved it on. */
  ghost predicate TrustAccounted(op: Operation, repo: Repository, lastRemote: Oid) {
    lastRemote.Some? ==>
      repo.managed == lastRemote || (repo.managed.Some? && repo.managed in {op.candidate, op.push})
  }

  /** A recorded backup has a name that this operation can have given, and a recorded snapshot. */
  predicate BackupNamed(op: Operation, base: string) {
    op.backupRef != "" ==> ValidBackupRef(op.backupRef, base) && op.local.Some?
  }

  /** The checks before the remote is looked at. True for a proven gap after the push. */
  method Preflight(s: Session, b: Branch, refs: BackupRefs, base: string, lastRemote: Oid, hadRepository: bool) returns (r: Result<bool>)
    requires b.Valid(s.repo)
    modifies s`script, s`repo
    ensures SameLocal(old(s.repo), s.repo) && Follows(old(s.script), s.script) && b.Valid(s.repo)
    ensures Calm(old(s.script)) ==> s.repo == old(s.repo) && !r.Crashed?
    ensures r.Ok? ==> NoMerge(s.repo) && TrustAccounted(s.row, s.repo, lastRemote) && (r.value ==> GapProven(s.row, s.repo, b.attached))
    ensures r.Ok? && s.row.backupRef != "" ==>
              ValidBackupRef(s.row.backupRef, base) && s.row.local.Some?
              && (s.row.backupRef in refs.refs ==> refs.refs[s.row.backupRef] == s.row.local.value)
    ensures r.Ok? ==> (r.value <==> hadRepository && GapProven(s.row, s.repo, b.attached))
    ensures Calm(old(s.script)) ==>
              (r.Ok? <==> NoMerge(s.repo) && BackupNamed(s.row, base)
                          && if hadRepository
                             then RefsConflict(s.row, s.repo, refs.refs, lastRemote, GapProven(s.row, s.repo, b.attached)).None?
                             else lastRemote.None? && s.row.backupRef == "")
    ensures r.Ok? && r.value ==> s.row.push.Some?
  {
    var op := s.row;
    if op.backupRef != "" && (!ValidBackupRef(op.backupRef, base) || op.local.None?) {
      return Err(Safe(BackupMismatch));
    }
    var _ :- s.Inspect();
    if !NoMerge(s.repo) {
      return Err(Safe(RepositoryLocked));
    }
    var _ :- s.Inspect();
    var gap := hadRepository && GapProven(op, s.repo, b.attached);
    var _ :- s.Inspect();
    if !hadRepository {
      return if lastRemote.Some? || op.backupRef != "" then Err(Safe(Interrupted)) else Ok(false);
    }
    var conflict := RefsConflict(op, s.repo, refs.refs, lastRemote, gap);
    if conflict.Some? {
      return Err(Safe(conflict.value));
    }
    r := Ok(gap);
  }

  // ---------------------------------------------------------------- a push that was already accepted

  /** The ref that finishAcceptedInitialize lets trust move from. */
  predicate TrustToFinish(op: Operation, repo: Repository, lastRemote: Oid) {
    repo.managed.Some?
    && (repo.managed == lastRemote
        || (repo.managed == (if op.remote.Some? then op.remote else op.candidate) && repo.fetched == repo.managed))
  }

  /** From the remote trusted last, or from the one that this row says it had fetched and that was fetched: the trusted
      remote if the row names one, and the candidate otherwise. */
  lemma TrustToFinishExactly(op: Operation, repo: Repository, lastRemote: Oid)
    ensures TrustToFinish(op, repo, lastRemote)
            <==> exists managed: Commit ::
                   repo.managed == Some(managed)
                   && (lastRemote == Some(managed)
                       || (repo.fetched == Some(managed)
                           && (op.remote == Some(managed) || (op.remote.None? && op.candidate == Some(managed)))))
  {}

  /** Trust moves to the accepted commit, from a trusted remote only if it descends from it. */
  method TrustAccepted(s: Session, op: Operation, lastRemote: Oid, accepted: Commit) returns (r: Result<()>)
    modifies s`script, s`repo, s`effects
    ensures s.repo.(managed := old(s.repo).managed, remote := old(s.repo).remote) == old(s.repo)
    ensures Pushes(s.effects) == Pushes(old(s.effects)) && Follows(old(s.script), s.script)
    ensures lastRemote.Some? ==> KeepsHistory(old(s.repo).managed, s.repo.managed)
    ensures r.Ok? ==> s.repo.managed == Some(accepted)
    ensures Calm(old(s.script)) ==>
              s.repo.remote == old(s.repo).remote && !r.Crashed?
              && (r.Ok? <==> old(s.repo).managed == Some(accepted) || lastRemote.None?
                             || (TrustToFinish(op, old(s.repo), lastRemote) && IsAncestor(old(s.repo).managed.value, accepted)))
  {
    var _ :- s.Inspect();
    var current := s.repo.managed;
    if current == Some(accepted) {
      return Ok(());
    }
    if lastRemote.Some? {
      if current.None? {
        return Err(Safe(HistoryRewritten));
      }
      if current != lastRemote {
        var trusted := if op.remote.Some? then op.remote else op.candidate;
        var _ :- s.Inspect();
        if trusted.None? || current != trusted || s.repo.fetched != trusted {
          return Err(Safe(HistoryRewritten));
        }
      }
      var _ :- s.Inspect();
      if !IsAncestor(current.value, accepted) {
        return Err(Safe(HistoryRewritten));
      }
      AncestorHistory(current.value, accepted);
    }
    r := s.UpdateTrust(accepted, current);
  }

  /** finishAcceptedInitialize: nothing is pushed again; HEAD still has to be what was pushed. */
  method FinishAccepted(s: Session, b: Branch, op: Operation, lastRemote: Oid, accepted: Commit) returns (r: Result<()>)
    requires b.Valid(s.repo)
    modifies s`script, s`repo, s`row, s`cp, s`stages, s`effects
    ensures s.repo.(managed := old(s.repo).managed, remote := old(s.repo).remote) == old(s.repo) && b.Valid(s.repo)
    ensures Pushes(s.effects) == Pushes(old(s.effects))
    ensures lastRemote.Some? ==> KeepsHistory(old(s.repo).managed, s.repo.managed)
    ensures r.Ok? ==> s.repo.head == Some(accepted) && b.attached && s.repo.managed == Some(accepted)
                      && s.row.candidate == Some(accepted) && s.row.remote == Some(accepted) && s.row.push == Some(accepted)
                      && s.row.stage == StageCompleted
    ensures SameOperation(old(s.row), s.row)
    ensures Calm(old(s.script)) && old(s.row).Active() ==>
              (r.Ok? <==> old(s.repo).head == Some(accepted) && b.attached
                          && (old(s.repo).managed == Some(accepted) || lastRemote.None?
                              || (TrustToFinish(op, old(s.repo), lastRemote) && IsAncestor(old(s.repo).managed.value, accepted))))
  {
    var _ :- s.Inspect();
    if s.repo.head != Some(accepted) || !b.attached {
      return Err(Safe(Interrupted));
    }
    var _ :- TrustAccepted(s, op, lastRemote, accepted);
    s.cp := s.cp.(candidate := Some(accepted), remote := Some(accepted), push := Some(accepted));
    r := s.Save(StageCompleted);
  }

  // ---------------------------------------------------------------- the snapshot

  /** The snapshot is journalled, and backed up where that is needed. */
  method RecordSnapshot(s: Session, refs: BackupRefs, base: string, journalled: string, snapshot: Oid, needed: bool)
    returns (r: Result<()>, backup: string)
    requires JournalledFirst(refs.created)
    modifies s`script, s`repo, s`row, s`cp, s`stages, refs
    ensures SameLocal(old(s.repo), s.repo)
    ensures refs.Kept() && JournalledFirst(refs.created)
    ensures s.cp == old(s.cp).(stage := s.cp.stage, local := snapshot, backupRef := s.cp.backupRef)
    ensures r.Ok? && snapshot.Some? && needed ==> backup in refs.refs && refs.refs[backup] == snapshot.value
    ensures SameOperation(old(s.row), s.row) && Follows(old(s.script), s.script)
    ensures Calm(old(s.script)) ==> s.repo == old(s.repo) && (old(s.row).Active() && journalled == "" ==> r.Ok?)
    ensures Calm(old(s.script)) && old(s.row).Active() && snapshot.Some? && ValidBackupRef(journalled, base)
            && old(refs.CanHold(journalled, snapshot.value)) ==>
              r.Ok?
    ensures snapshot.Some? ==> refs.OnlyHolding(snapshot.value)
    ensures snapshot.None? || !needed ==> refs.refs == old(refs.refs) && backup == journalled
  {
    backup := journalled;
    s.cp := s.cp.(local := snapshot);
    var _ :- s.Save(StageSnapshotting);
    if snapshot.Some? && needed {
      backup :- EnsureBackup(s, refs, base, journalled, snapshot.value);
    }
    r := Ok(());
  }

  /** A snapshot on record is not taken again. */
  method TakeOrReuse(s: Session, b: Branch, op: Operation, remoteEmpty: bool, createBranch: bool) returns (r: Result<Oid>)
    requires b.Valid(s.repo) && NoMerge(s.repo)
    modifies s`script, s`repo, s`row, s`cp, s`stages, b`tip
    ensures b.Valid(s.repo) && NoMerge(s.repo) && OnlyHead(old(s.repo), s.repo)
    ensures KeepsHistory(old(s.repo).head, s.repo.head) && KeepsHistory(old(b.tip), b.tip)
    ensures r.Ok? ==> r.value == if op.local.Some? && op.backupRef != "" then op.local else s.repo.head
    ensures SnapshotOnRecord(op) ==> s.repo.head == old(s.repo).head
    ensures !b.attached ==> b.tip == old(b.tip)
    ensures r.Ok? && remoteEmpty ==> r.value.Some?
    ensures s.cp == old(s.cp).(stage := s.cp.stage)
    ensures SameOperation(old(s.row), s.row) && Follows(old(s.script), s.script)
    ensures Calm(old(s.script)) ==> s.repo.remote == old(s.repo).remote
    ensures Calm(old(s.script)) && old(s.row).Active()
            && (SnapshotOnRecord(op) || old(s.repo).head.Some? || !remoteEmpty || createBranch) ==>
              r.Ok?
    ensures SnapshotOnRecord(op) ==> s.row == old(s.row)
  {
    if SnapshotOnRecord(op) {
      var _ :- s.Inspect();
      return Ok(op.local);
    }
    var taken, _ := SnapshotTree(s, b, remoteEmpty && s.repo.head.None?, !remoteEmpty || createBranch);
    r := taken;
  }

  /** The snapshot of this run or an earlier one, journalled and backed up. */
  method TakeAndRecord(s: Session, b: Branch, refs: BackupRefs, base: string, op: Operation, hadRepository: bool, remoteEmpty: bool,
                       createBranch: bool)
    returns (r: Result<Oid>, backup: string)
    requires b.Valid(s.repo) && NoMerge(s.repo) && JournalledFirst(refs.created)
    requires !hadRepository ==> b.attached
    modifies s`script, s`repo, s`row, s`cp, s`stages, b`tip, refs
    ensures b.Valid(s.repo) && NoMerge(s.repo) && OnlyHead(old(s.repo), s.repo)
    ensures refs.Kept() && JournalledFirst(refs.created)
    ensures KeepsHistory(old(s.repo).head, s.repo.head) && KeepsHistory(old(b.tip), b.tip)
    ensures r.Ok? ==> r.value == if SnapshotOnRecord(op) then op.local else s.repo.head
    ensures r.Ok? && r.value.Some? && (!remoteEmpty || !b.attached) ==> backup in refs.refs && refs.refs[backup] == r.value.value
    ensures SnapshotOnRecord(op) ==> s.repo.head == old(s.repo).head && refs.OnlyHolding(op.local.value)
    ensures !b.attached ==> b.tip == old(b.tip)
    ensures s.cp.candidate == old(s.cp).candidate && s.cp.remote == old(s.cp).remote
    ensures r.Ok? && remoteEmpty ==> r.value.Some?
    ensures SameOperation(old(s.row), s.row) && Follows(old(s.script), s.script)
    ensures Calm(old(s.script)) ==> s.repo.remote == old(s.repo).remote
    ensures Calm(old(s.script)) && old(s.row).Active() && Fresh(op) && (old(s.repo).head.Some? || !remoteEmpty || createBranch) ==> r.Ok?
    ensures Calm(old(s.script)) && old(s.row).Active() && old(Resumes(op, refs, base)) ==> r.Ok?
  {
    backup := op.backupRef;
    var taken := TakeOrReuse(s, b, op, remoteEmpty, createBranch);
    if taken.IsFailure() {
      return taken, backup;
    }
    var snapshot := taken.value;
    var recorded;
    recorded, backup := RecordSnapshot(s, refs, base, op.backupRef, snapshot, !remoteEmpty || (hadRepository && !b.attached));
    r := if recorded.IsFailure() then recorded.PropagateFailure() else Ok(snapshot);
  }

  /** The first worktree transaction: snapshot, journal it, and back it up if HEAD may leave it. A fetched tree that
      an earlier run was putting into an empty directory is no snapshot; one that is on record is not taken again. */
  method SnapshotAndBackup(s: Session, b: Branch, refs: BackupRefs, base: string, op: Operation, population: Population,
                           hadRepository: bool, remoteEmpty: bool, createBranch: bool)
    returns (r: Result<Oid>, backup: string)
    requires b.Valid(s.repo) && NoMerge(s.repo) && JournalledFirst(refs.created)
    requires !hadRepository ==> b.attached
    modifies s`script, s`repo, s`row, s`cp, s`stages, b`tip, refs
    ensures b.Valid(s.repo) && NoMerge(s.repo) && OnlyHead(old(s.repo), s.repo)
    ensures refs.Kept() && JournalledFirst(refs.created)
    ensures KeepsHistory(old(s.repo).head, s.repo.head) && KeepsHistory(old(b.tip), b.tip)
    ensures population != NoPopulation ==> s.row == old(s.row) && (r.Ok? ==> r.value.None?)
    ensures r.Ok? && population == NoPopulation ==> r.value == if SnapshotOnRecord(op) then op.local else s.repo.head
    ensures r.Ok? && r.value.Some? && (!remoteEmpty || !b.attached) ==> backup in refs.refs && refs.refs[backup] == r.value.value
    ensures SnapshotOnRecord(op) && population == NoPopulation ==> s.repo.head == old(s.repo).head && refs.OnlyHolding(op.local.value)
    ensures !b.attached ==> b.tip == old(b.tip)
    ensures s.cp.candidate == old(s.cp).candidate && s.cp.remote == old(s.cp).remote
    ensures r.Ok? && remoteEmpty && population == NoPopulation ==> r.value.Some?
    ensures SameOperation(old(s.row), s.row) && Follows(old(s.script), s.script)
    ensures Calm(old(s.script)) ==> s.repo.remote == old(s.repo).remote
    ensures Calm(old(s.script)) && old(s.row).Active() && Fresh(op) && (old(s.repo).head.Some? || !remoteEmpty || createBranch) ==> r.Ok?
    ensures Calm(old(s.script)) && old(s.row).Active() && old(Resumes(op, refs, base)) ==> r.Ok?
  {
    backup := op.backupRef;
    var _ :- s.Inspect();
    if population != NoPopulation {
      s.cp := s.cp.(local := None);
      return Ok(None), backup;
    }
    r, backup := TakeAndRecord(s, b, refs, base, op, hadRepository, remoteEmpty, createBranch);
  }

  // ---------------------------------------------------------------- fetch, trust, merge, push

  /** The fetch of the selected branch, journalled as the candidate. */
  method FetchCandidate(s: Session, expected: Commit) returns (r: Result<Commit>)
    modifies s`script, s`repo, s`row, s`cp, s`stages
    ensures s.repo.(fetched := old(s.repo).fetched, remote := old(s.repo).remote) == old(s.repo)
    ensures r.Ok? ==> r.value == expected && s.repo.fetched == Some(expected)
                      && s.row.candidate == Some(expected) && s.cp.candidate == Some(expected)
    ensures s.cp == old(s.cp).(stage := s.cp.stage, candidate := s.cp.candidate)
    ensures SameOperation(old(s.row), s.row) && Follows(old(s.script), s.script)
    ensures Calm(old(s.script)) ==> s.repo.remote == old(s.repo).remote
    ensures Calm(old(s.script)) && old(s.row).Active() ==> (r.Ok? <==> old(s.repo).remote == Some(expected))
  {
    var _ :- s.Save(StageFetching);
    var _ :- s.Fetch();
    var _ :- s.Inspect();
    var fetched := s.repo.fetched.value;
    if fetched != expected {
      return Err(Safe(Interrupted));
    }
    s.cp := s.cp.(candidate := Some(fetched));
    var _ :- s.Save(StageFetching);
    r := Ok(fetched);
  }

  /** Trust can move to the remote branch, or an earlier run of this operation has moved it there. */
  ghost predicate TrustReady(op: Operation, managed: Oid, lastRemote: Oid, remote: Oid) {
    TrustFits(managed, lastRemote, remote) || (lastRemote.Some? && remote.Some? && managed == op.candidate == remote)
  }

  /** An existing remote branch is fetched, unless an earlier run did, and, if it descends from what was trusted, trusted. */
  method FetchAndTrust(s: Session, op: Operation, population: Population, remoteOid: Oid, lastRemote: Oid) returns (r: Result<()>)
    requires population != NoPopulation ==>
               remoteOid.Some? && s.repo.fetched == remoteOid && s.row.candidate == remoteOid && s.cp.candidate == remoteOid
    modifies s`script, s`repo, s`row, s`cp, s`stages, s`effects
    ensures s.repo.(fetched := old(s.repo).fetched, managed := old(s.repo).managed, remote := old(s.repo).remote) == old(s.repo)
    ensures Pushes(s.effects) == Pushes(old(s.effects))
    ensures lastRemote.Some? ==> KeepsHistory(old(s.repo).managed, s.repo.managed)
    ensures r.Ok? ==> s.repo.managed == if remoteOid.Some? then remoteOid else old(s.repo).managed
    ensures SameOperation(old(s.row), s.row) && Follows(old(s.script), s.script)
    ensures Calm(old(s.script)) ==> s.repo.remote == old(s.repo).remote
    ensures Calm(old(s.script)) && old(s.row).Active() && old(s.repo).remote == remoteOid
            && (remoteOid.Some? ==> TrustReady(op, old(s.repo).managed, lastRemote, remoteOid)) ==>
              r.Ok?
  {
    if remoteOid.Some? {
      if population == NoPopulation {
        var _ :- FetchCandidate(s, remoteOid.value);
      }
      var _ :- s.Inspect();
      var _ :- EstablishTrust(s, lastRemote, op, remoteOid.value);
    }
    r := Ok(());
  }

  /** Nothing was done that needs a confirmation which is missing: without one, no branch is created on the remote
      and no histories are joined that share no commit. */
  predicate AsConfirmed(confirmed: Confirmations, start: Oid, snapshot: Oid, fetched: Oid) {
    && (fetched.None? ==> confirmed.createBranch)
    && (!confirmed.mergeHistories ==> Joinable(start, snapshot, fetched))
  }

  /** Where the merges start once the local commits are recorded: on the branch that HEAD is on with its new snapshot,
      on the branch as it was, or else on the fetched commit. */
  function MergesFrom(tip: Oid, onBranch: bool, snapshot: Oid, fetched: Oid): Oid {
    StartOf(NoPopulation, if onBranch then snapshot else tip, snapshot, fetched)
  }

  lemma SameStart(population: Population, now: Oid, tip: Oid, onBranch: bool, snapshot: Oid, fetched: Oid)
    requires if population == NoPopulation then now == (if onBranch then snapshot else tip) else onBranch && snapshot.None? && fetched.Some?
    ensures StartOf(population, now, snapshot, fetched) == MergesFrom(tip, onBranch, snapshot, fetched)
  {}

  /** Fetch, trust, merge, push. */
  method ConnectSnapshot(s: Session, b: Branch, op: Operation, population: Population, snapshot: Oid, remoteOid: Oid, lastRemote: Oid,
                         confirmed: Confirmations) returns (r: Result<Commit>)
    requires b.Valid(s.repo) && NoMerge(s.repo) && s.effects == []
    requires population != NoPopulation ==>
               remoteOid.Some? && s.repo.fetched == remoteOid && s.row.candidate == remoteOid && s.cp.candidate == remoteOid
    requires lastRemote.Some? ==> remoteOid.Some?
    modifies s`script, s`repo, s`row, s`cp, s`stages, s`effects, b
    ensures b.Valid(s.repo) && KeepsHistory(old(b.tip), b.tip)
    ensures old(b.attached) ==> KeepsHistory(old(s.repo).head, s.repo.head)
    ensures !b.attached ==> s.repo.head == old(s.repo).head
    ensures Pushes(s.effects) <= 1
    ensures lastRemote.Some? ==> KeepsHistory(old(s.repo).managed, s.repo.managed)
    ensures r.Ok? ==>
              && KeepsHistory(snapshot, Some(r.value)) && KeepsHistory(remoteOid, Some(r.value)) && KeepsHistory(old(b.tip), Some(r.value))
              && ConnectsOnly(Some(r.value), old(b.tip), snapshot, remoteOid)
              && Accepted(s.effects, r.value) && s.repo.managed == Some(r.value) && s.repo.head == Some(r.value) && b.attached
              && s.row.remote == Some(r.value) && s.row.push == Some(r.value) && s.row.stage == StageCompleted
    ensures r.Ok? ==> AsConfirmed(confirmed, StartOf(population, old(b.tip), snapshot, remoteOid), snapshot, remoteOid)
    ensures SameOperation(old(s.row), s.row)
    ensures Calm(old(s.script)) && Clean(old(s.script)) && old(s.row).Active() && confirmed.mergeHistories && old(s.repo).remote == remoteOid
            && population == NoPopulation && TrustReady(op, old(s.repo).managed, lastRemote, remoteOid)
            && (remoteOid.Some? || (confirmed.createBranch && snapshot.Some?)) ==>
              r.Ok?
  {
    var _ :- FetchAndTrust(s, op, population, remoteOid, lastRemote);
    var selected := SelectAndMerge(s, b, population, op, snapshot, remoteOid, confirmed);
    if selected.IsFailure() {
      return selected.PropagateFailure();
    }
    var pushed := selected.value;
    var published := PublishInitial(s, remoteOid, pushed, confirmed.createBranch);
    if published.IsFailure() {
      return published.PropagateFailure();
    }
    r := Ok(pushed);
  }

  // ---------------------------------------------------------------- the operation

  datatype Connected = Connected(pushed: Commit, snapshot: Oid, fetched: Oid, backup: string)

  /** What the remote holds, and whether the run can go on with it; `others` says that it has other branches. */
  method ReadBranch(s: Session, lastRemote: Oid, others: bool, gap: bool) returns (r: Result<Oid>)
    requires gap ==> s.row.push.Some?
    modifies s`script, s`repo, s`seen
    ensures SameLocal(old(s.repo), s.repo) && Follows(old(s.script), s.script)
    ensures r.Ok? ==> r.value == s.repo.remote == s.seen && (lastRemote.Some? || others || gap ==> r.value.Some?) && (gap ==> r.value == s.row.push)
    ensures Calm(old(s.script)) ==> s.repo == old(s.repo) && !r.Crashed?
    ensures Calm(old(s.script)) && s.repo.remote.None? && (lastRemote.Some? || others) ==> r == Err(Safe(BranchDeleted))
    ensures Calm(old(s.script)) && (s.repo.remote.Some? || (lastRemote.None? && !others)) ==>
              (r.Ok? <==> (gap ==> s.repo.remote == s.row.push))
  {
    var _ :- s.Inspect();
    s.seen := s.repo.remote;
    if s.repo.remote.None? && (lastRemote.Some? || others) {
      return Err(Safe(BranchDeleted));
    }
    if gap && s.repo.remote != s.row.push {
      return Err(Safe(Interrupted));
    }
    r := Ok(s.repo.remote);
  }

  /** Everything that is checked before anything is changed: the answer is what the remote branch holds. */
  method Begin(s: Session, b: Branch, refs: BackupRefs, base: string, lastRemote: Oid, hadRepository: bool, others: bool)
    returns (r: Result<Oid>)
    requires b.Valid(s.repo)
    modifies s`script, s`repo, s`seen
    ensures SameLocal(old(s.repo), s.repo) && Follows(old(s.script), s.script) && b.Valid(s.repo)
    ensures Calm(old(s.script)) ==> s.repo == old(s.repo)
    ensures r.Ok? ==> NoMerge(s.repo) && TrustAccounted(s.row, s.repo, lastRemote)
                      && r.value == s.repo.remote == s.seen && (lastRemote.Some? || others ==> r.value.Some?)
    ensures Calm(old(s.script)) && Startable(s.row, refs, base, lastRemote, hadRepository) && NoMerge(s.repo)
            && (s.repo.remote.Some? || (lastRemote.None? && !others)) && RefsConflict(s.row, s.repo, refs.refs, lastRemote, false).None? ==>
              r.Ok?
  {
    var gap :- Preflight(s, b, refs, base, lastRemote, hadRepository);
    r := ReadBranch(s, lastRemote, others, gap);
  }

  /** What the snapshot contains is kept where the snapshot is kept. */
  lemma KeptInBackup(oid: Oid, snapshot: Commit, head: Oid, refs: Refs, backup: string)
    requires KeepsHistory(oid, Some(snapshot)) && backup in refs && refs[backup] == snapshot
    ensures Kept(oid, head, refs)
  {
    if oid.Some? {
      assert oid.value in History(refs[backup]);
    }
  }

  /** The commit is in the history of the branch, the recorded snapshot, the fetched commit or a backup. */
  ghost predicate Held(oid: Oid, tip: Oid, local: Oid, fetched: Oid, refs: Refs) {
    oid.Some? ==>
      Reaches(tip, oid.value) || Reaches(local, oid.value) || Reaches(fetched, oid.value)
      || exists name :: name in refs && oid.value in History(refs[name])
  }

  /** It is a merge of the kind this operation makes. */
  predicate Merged(oid: Oid, local: Oid, fetched: Oid) {
    oid.Some? && (MergeOf(oid.value, local) || MergeOf(oid.value, fetched))
  }

  /** A HEAD that has not moved is kept; one that has is if the branch, the backup of the snapshot or another one holds it. */
  lemma HeldIsKept(oid: Oid, head: Oid, tip: Oid, local: Commit, earlier: Refs, refs: Refs)
    requires head == oid || (KeepsHistory(tip, head) && local in refs.Values)
    requires forall name :: name in earlier ==> name in refs && refs[name] == earlier[name]
    requires Held(oid, tip, Some(local), None, earlier)
    ensures Kept(oid, head, refs)
  {
    if oid.Some? && oid.value in History(local) && head != oid {
      var name :| name in refs && refs[name] == local;
      assert oid.value in History(refs[name]);
    }
  }

  lemma HeldBeforehand(oid: Oid, tip: Oid, local: Commit, fetched: Oid, earlier: Refs, refs: Refs)
    requires forall name :: name in earlier ==> name in refs && refs[name] == earlier[name]
    requires forall name :: name in refs ==> name in earlier || refs[name] == local
    ensures Held(oid, tip, Some(local), fetched, refs) <==> Held(oid, tip, Some(local), fetched, earlier)
  {}

  /** Once everything is merged, it is kept if and only if one of the sides or a backup holds it. */
  lemma KeptIsHeld(oid: Oid, head: Oid, tip: Oid, local: Oid, fetched: Oid, refs: Refs)
    requires ConnectsOnly(head, tip, local, fetched) && !Merged(oid, local, fetched)
    requires head.Some? && KeepsHistory(tip, head) && KeepsHistory(local, head) && KeepsHistory(fetched, head)
    ensures Kept(oid, head, refs) <==> Held(oid, tip, local, fetched, refs)
  {
    if oid.Some? && oid.value in History(head.value) {
      assert Reaches(head, oid.value);
    }
  }

  /** What a success says: the accepted and trusted commit contains all sides, and the snapshot is backed up. */
  ghost predicate Joined(c: Connected, head: Oid, tip: Oid, keepsHead: bool, s: Session, b: Branch, refs: BackupRefs)
    reads s, b, refs
  {
    && KeepsHistory(c.snapshot, Some(c.pushed)) && KeepsHistory(c.fetched, Some(c.pushed)) && KeepsHistory(tip, Some(c.pushed))
    && (keepsHead ==> KeepsHistory(head, Some(c.pushed)))
    && s.repo.managed == Some(c.pushed) && s.repo.head == Some(c.pushed) && b.attached
    && s.row.remote == Some(c.pushed) && s.row.push == Some(c.pushed) && s.row.stage == StageCompleted
    && (c.snapshot.Some? && c.fetched.Some? ==> c.backup in refs.refs && refs.refs[c.backup] == c.snapshot.value)
  }

  /** The part of Initialize that snapshots, fetches, merges and pushes. */
  method ConnectAnew(s: Session, b: Branch, refs: BackupRefs, base: string, op: Operation, population: Population, remoteOid: Oid,
                     lastRemote: Oid, hadRepository: bool, confirmed: Confirmations) returns (r: Result<Connected>)
    requires op == s.row && s.effects == [] && s.cp == CheckpointOf(s.row) && JournalledFirst(refs.created)
    requires b.Valid(s.repo) && NoMerge(s.repo) && (!hadRepository ==> b.attached)
    requires PopulationFits(population, op, remoteOid, s.repo, b.tip, b.attached) && (lastRemote.Some? ==> remoteOid.Some?)
    modifies s`script, s`repo, s`row, s`cp, s`stages, s`effects, b, refs
    ensures b.Valid(s.repo) && KeepsHistory(old(b.tip), b.tip)
    ensures old(b.attached) ==> KeepsHistory(old(s.repo).head, s.repo.head)
    ensures !SnapshotOnRecord(op) ==> Kept(old(s.repo).head, s.repo.head, refs.refs)
    ensures SnapshotOnRecord(op) && !b.attached ==> s.repo.head == old(s.repo).head
    ensures SnapshotOnRecord(op) && !old(b.attached) && b.attached ==> op.local.value in refs.refs.Values
    ensures r.Ok? && SnapshotOnRecord(op) && !old(b.attached) ==>
              r.value.snapshot == op.local && ConnectsOnly(Some(r.value.pushed), old(b.tip), op.local, r.value.fetched)
    ensures SnapshotOnRecord(op) ==> refs.OnlyHolding(op.local.value)
    ensures refs.Kept() && JournalledFirst(refs.created)
    ensures Pushes(s.effects) <= 1
    ensures lastRemote.Some? ==> KeepsHistory(old(s.repo).managed, s.repo.managed)
    ensures r.Ok? ==>
              AsConfirmed(confirmed, MergesFrom(old(b.tip), old(b.attached) && !SnapshotOnRecord(op), r.value.snapshot, remoteOid),
                          r.value.snapshot, remoteOid)
    ensures SameOperation(old(s.row), s.row)
    ensures r.Ok? ==> Joined(r.value, old(s.repo).head, old(b.tip), !SnapshotOnRecord(op) || old(b.attached), s, b, refs)
                      && Accepted(s.effects, r.value.pushed) && r.value.fetched == remoteOid
    ensures old(Calm(s.script) && Clean(s.script) && TrustReady(op, s.repo.managed, lastRemote, remoteOid) && s.repo.remote == remoteOid
                && Startable(op, refs, base, lastRemote, hadRepository))
            && op.Active() && population == NoPopulation && confirmed.createBranch && confirmed.mergeHistories ==>
              r.Ok?
  {
    ghost var start := s.repo.head;
    var snapped, backup := SnapshotAndBackup(s, b, refs, base, op, population, hadRepository, remoteOid.None?, confirmed.createBranch);
    if snapped.IsFailure() {
      return snapped.PropagateFailure();
    }
    var snapshot := snapped.value;
    if !b.attached && !SnapshotOnRecord(op) && snapshot.Some? {
      KeptInBackup(start, snapshot.value, s.repo.head, refs.refs, backup);
    }
    SameStart(population, b.tip, old(b.tip), old(b.attached) && !SnapshotOnRecord(op), snapshot, remoteOid);
    var connected := ConnectSnapshot(s, b, op, population, snapshot, remoteOid, lastRemote, confirmed);
    if connected.IsFailure() {
      return connected.PropagateFailure();
    }
    r := Ok(Connected(connected.value, snapshot, remoteOid, backup));
  }

  lemma RecordedHead(oid: Oid, head: Oid, tip: Oid, local: Commit, earlier: Refs, refs: Refs, r: Result<Connected>)
    requires head == oid || (KeepsHistory(tip, head) && local in refs.Values)
    requires forall name :: name in earlier ==> name in refs && refs[name] == earlier[name]
    requires r.Ok? ==>
               head == Some(r.value.pushed) && ConnectsOnly(head, tip, Some(local), r.value.fetched)
               && KeepsHistory(tip, head) && KeepsHistory(Some(local), head) && KeepsHistory(r.value.fetched, head)
    ensures Held(oid, tip, Some(local), None, earlier) ==> Kept(oid, head, refs)
    ensures r.Ok? && !Merged(oid, Some(local), r.value.fetched) ==>
              (Kept(oid, head, refs) <==> Held(oid, tip, Some(local), r.value.fetched, refs))
  {
    if Held(oid, tip, Some(local), None, earlier) {
      HeldIsKept(oid, head, tip, local, earlier, refs);
    }
    if r.Ok? && !Merged(oid, Some(local), r.value.fetched) {
      KeptIsHeld(oid, head, tip, Some(local), r.value.fetched, refs);
    }
  }

  /** What follows the checks: an accepted push is finished, anything else is done. */
  method Proceed(s: Session, b: Branch, refs: BackupRefs, base: string, op: Operation, remoteOid: Oid, lastRemote: Oid,
                 hadRepository: bool, confirmed: Confirmations) returns (r: Result<Connected>)
    requires op == s.row && s.effects == [] && s.cp == CheckpointOf(s.row) && JournalledFirst(refs.created)
    requires b.Valid(s.repo) && NoMerge(s.repo) && (!hadRepository ==> b.attached) && (lastRemote.Some? ==> remoteOid.Some?)
    modifies s`script, s`repo, s`row, s`cp, s`stages, s`effects, b, refs
    ensures b.Valid(s.repo) && KeepsHistory(old(b.tip), b.tip)
    ensures old(b.attached) ==> KeepsHistory(old(s.repo).head, s.repo.head)
    ensures !SnapshotOnRecord(op) ==> Kept(old(s.repo).head, s.repo.head, refs.refs)
    ensures SnapshotOnRecord(op) && Held(old(s.repo).head, old(b.tip), op.local, None, old(refs.refs)) ==>
              Kept(old(s.repo).head, s.repo.head, refs.refs)
    ensures r.Ok? && SnapshotOnRecord(op) && !old(b.attached) && !Merged(old(s.repo).head, op.local, r.value.fetched) ==>
              (Kept(old(s.repo).head, s.repo.head, refs.refs)
               <==> Held(old(s.repo).head, old(b.tip), op.local, r.value.fetched, refs.refs))
    ensures r.Ok? && SnapshotOnRecord(op) && old(refs.races) == [] ==>
              (Held(old(s.repo).head, old(b.tip), op.local, r.value.fetched, refs.refs)
               <==> Held(old(s.repo).head, old(b.tip), op.local, r.value.fetched, old(refs.refs)))
    ensures refs.Kept() && JournalledFirst(refs.created)
    ensures Pushes(s.effects) <= 1 && (op.push.Some? && remoteOid == op.push ==> Pushes(s.effects) == 0)
    ensures lastRemote.Some? ==> KeepsHistory(old(s.repo).managed, s.repo.managed)
    ensures r.Ok? && !(op.push.Some? && remoteOid == op.push) ==>
              AsConfirmed(confirmed, MergesFrom(old(b.tip), old(b.attached) && !SnapshotOnRecord(op), r.value.snapshot, r.value.fetched),
                          r.value.snapshot, r.value.fetched)
    ensures SameOperation(old(s.row), s.row)
    ensures r.Ok? ==> Joined(r.value, old(s.repo).head, old(b.tip), !SnapshotOnRecord(op) || old(b.attached), s, b, refs)
                      && (Accepted(s.effects, r.value.pushed)
                          || (Pushes(s.effects) == 0 && remoteOid == op.push == Some(r.value.pushed)))
    ensures r.Ok? ==> r.value.fetched == if op.push.Some? && remoteOid == op.push then None else remoteOid
    ensures old(Calm(s.script) && Clean(s.script) && TrustReady(op, s.repo.managed, lastRemote, remoteOid) && s.repo.remote == remoteOid
                && Startable(op, refs, base, lastRemote, hadRepository))
            && op.Active() && confirmed.createBranch && confirmed.mergeHistories ==>
              r.Ok?
  {
    if op.push.Some? && remoteOid == op.push {
      var _ :- FinishAccepted(s, b, op, lastRemote, op.push.value);
      return Ok(Connected(op.push.value, None, None, op.backupRef));
    }
    var population :- DetectPopulation(s, b, op, remoteOid);
    r := ConnectAnew(s, b, refs, base, op, population, remoteOid, lastRemote, hadRepository, confirmed);
    if SnapshotOnRecord(op) {
      if r.Ok? && old(refs.races) == [] {
        HeldBeforehand(old(s.repo).head, old(b.tip), op.local.value, r.value.fetched, old(refs.refs), refs.refs);
      }
      if !old(b.attached) {
        RecordedHead(old(s.repo).head, s.repo.head, old(b.tip), op.local.value, old(refs.refs), refs.refs, r);
      }
    }
  }

  /** Initialize, for any row. When it succeeds the remote has accepted a commit, in this run or an earlier one,
      that contains the local snapshot and the fetched branch. Wherever it stops: the selected branch keeps its
      history, and so does a HEAD on it; a HEAD elsewhere is kept by a backup ref if a snapshot is taken now; trust
      only moves on; no backup ref has changed; and there was at most one push. If the snapshot of an earlier run is
      used again, a HEAD elsewhere is kept in the end if and only if it is held by one of the sides or a backup. */
  method Initialize(s: Session, b: Branch, refs: BackupRefs, base: string, lastRemote: Oid, hadRepository: bool, others: bool,
                    confirmed: Confirmations)
    returns (r: Result<Connected>)
    requires s.row.kind == Journal.Initialize && s.effects == [] && s.cp == CheckpointOf(s.row) && JournalledFirst(refs.created)
    requires b.Valid(s.repo) && (!hadRepository ==> b.attached && s.repo.head.None?)
    modifies s, b, refs
    ensures b.Valid(s.repo) && KeepsHistory(old(b.tip), b.tip)
    ensures old(b.attached) ==> KeepsHistory(old(s.repo).head, s.repo.head)
    ensures !SnapshotOnRecord(old(s.row)) ==> Kept(old(s.repo).head, s.repo.head, refs.refs)
    ensures SnapshotOnRecord(old(s.row)) && Held(old(s.repo).head, old(b.tip), old(s.row).local, None, old(refs.refs)) ==>
              Kept(old(s.repo).head, s.repo.head, refs.refs)
    ensures r.Ok? && SnapshotOnRecord(old(s.row)) && !old(b.attached) && !Merged(old(s.repo).head, old(s.row).local, r.value.fetched) ==>
              (Kept(old(s.repo).head, s.repo.head, refs.refs)
               <==> Held(old(s.repo).head, old(b.tip), old(s.row).local, r.value.fetched, refs.refs))
    // if nobody else creates refs, this can be told beforehand
    ensures r.Ok? && SnapshotOnRecord(old(s.row)) && old(refs.races) == [] ==>
              (Held(old(s.repo).head, old(b.tip), old(s.row).local, r.value.fetched, refs.refs)
               <==> Held(old(s.repo).head, old(b.tip), old(s.row).local, r.value.fetched, old(refs.refs)))
    ensures refs.Kept() && JournalledFirst(refs.created)
    ensures Pushes(s.effects) <= 1
    ensures lastRemote.Some? ==> KeepsHistory(old(s.repo).managed, s.repo.managed)
    ensures SameOperation(old(s.row), s.row)
    // what was not confirmed was not done
    ensures r.Ok? && !(old(s.row).push.Some? && s.seen == old(s.row).push) ==>
              AsConfirmed(confirmed, MergesFrom(old(b.tip), old(b.attached) && !SnapshotOnRecord(old(s.row)), r.value.snapshot, r.value.fetched),
                          r.value.snapshot, r.value.fetched)
    ensures r.Ok? ==>
              Joined(r.value, old(s.repo).head, old(b.tip), !SnapshotOnRecord(old(s.row)) || old(b.attached), s, b, refs)
              && (Accepted(s.effects, r.value.pushed)
                  || (Pushes(s.effects) == 0 && s.seen == old(s.row).push == Some(r.value.pushed)))
    ensures r.Ok? ==> r.value.fetched == if old(s.row).push.Some? && s.seen == old(s.row).push then None else s.seen
    ensures r.Ok? && old(Calm(s.script)) ==> s.seen == old(s.repo).remote
    // an undisturbed run with everything confirmed, new or with its snapshot on record, succeeds if the refs fit
    ensures old(Calm(s.script) && Clean(s.script) && s.row.Active() && Startable(s.row, refs, base, lastRemote, hadRepository)
                && NoMerge(s.repo) && RefsConflict(s.row, s.repo, refs.refs, lastRemote, false).None?
                && TrustReady(s.row, s.repo.managed, lastRemote, s.repo.remote) && (s.repo.remote.None? ==> !others))
            && confirmed.createBranch && confirmed.mergeHistories ==>
              r.Ok?
    // a branch that was trusted before and is gone is never created again
    ensures old(Calm(s.script) && s.repo.remote.None?) && (lastRemote.Some? || others) ==> !r.Ok? && s.effects == []
    // what the remote accepted from an earlier run is not pushed again
    ensures old(Calm(s.script) && s.row.push.Some? && s.repo.remote == s.row.push) ==> Pushes(s.effects) == 0
  {
    var op := s.row;
    var remoteOid :- Begin(s, b, refs, base, lastRemote, hadRepository, others);
    r := Proceed(s, b, refs, base, op, remoteOid, lastRemote, hadRepository, confirmed);
  }

  /** backupRefBase */
  function BackupBase(createdAt: string): (base: string)
    ensures base != ""
  {
    "refs/igonotes/backups/" + createdAt
  }

  /** A row whose snapshot is backed up, and a HEAD that has moved on from it without a branch. */
  function ResumedRow(createdAt: string): (op: Operation)
    ensures SnapshotOnRecord(op) && op.push.None? && ValidBackupRef(op.backupRef, BackupBase(createdAt))
  {
    Operation("id", Identity("base", "/notes", "fp", "rfp", "main"), Journal.Initialize, Running, StageBackingUp,
              RefName(BackupBase(createdAt), 0), Some(Commit(0, [])), None, None, None, {}, {})
  }

  function DetachedHead(): Commit {
    Commit(2, [Commit(0, [])])
  }

  lemma DetachedHeadIsNotHeld(refs: Refs)
    requires forall name :: name in refs ==> refs[name] == Commit(0, [])
    ensures var (made, tip, local, theirs) := (Some(DetachedHead()), Some(Commit(1, [])), Some(Commit(0, [])), Some(Commit(3, [])));
      !Held(made, tip, local, theirs, refs) && !Merged(made, local, theirs)
  {}

  /** When the snapshot of an earlier run is used again, commits made since on a detached HEAD may be in no backup:
      this run succeeds, merges and pushes everything else, and leaves them behind. */
  method DetachedHeadIsLeft(createdAt: string) returns (start: Repository, s: Session, refs: BackupRefs, r: Result<Connected>)
    ensures start.head == Some(DetachedHead()) && SnapshotOnRecord(ResumedRow(createdAt))
    ensures r.Ok? && Accepted(s.effects, r.value.pushed) && KeepsHistory(start.remote, Some(r.value.pushed))
    ensures !Kept(start.head, s.repo.head, refs.refs)
  {
    var base, op := BackupBase(createdAt), ResumedRow(createdAt);
    start := Repository(Some(DetachedHead()), None, {}, None, None, Some(Commit(3, [])));
    s := new Session(start, op, []);
    refs := new BackupRefs(map[op.backupRef := Commit(0, [])]);
    var b := new Branch(Some(Commit(1, [])), false);
    DetachedHeadIsNotHeld(refs.refs);
    assert Startable(s.row, refs, base, None, true);
    r := Initialize(s, b, refs, base, None, true, true, Confirmations(true, true));
  }
}
