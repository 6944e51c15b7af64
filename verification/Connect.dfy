/** The steps of an initial connection: snapshot, select the branch, merge, trust, push. */
module Connect {
  import opened Basics
  import opened CommitGraph
  import opened Errors
  import opened Journal
  import opened GitSession
  import opened Backup

  datatype Confirmations = Confirmations(createBranch: bool, mergeHistories: bool)

  /** The selected branch of the repository: where it points, and whether HEAD is on it. */
  class Branch {
    var tip: Oid
    var attached: bool

    constructor (tip: Oid, attached: bool)
      ensures this.tip == tip && this.attached == attached
    {
      this.tip, this.attached := tip, attached;
    }

    ghost predicate Valid(repo: Repository)
      reads this
    {
      attached ==> tip == repo.head
    }
  }

  /** HEAD and the branch moved together, to a descendant. */
  ghost predicate OnlyHead(a: Repository, b: Repository) {
    a.(head := b.head, remote := b.remote) == b
  }

  /** A local command on HEAD's branch that leaves HEAD at `to`. */
  method MoveHead(s: Session, b: Branch, to: Commit) returns (r: Result<()>)
    modifies s`script, s`repo, b
    ensures OnlyHead(old(s.repo), s.repo)
    ensures (s.repo.head == old(s.repo).head && b.tip == old(b.tip) && b.attached == old(b.attached))
            || (s.repo.head == Some(to) && b.tip == Some(to) && b.attached)
    ensures r.Ok? ==> s.repo.head == Some(to) && b.tip == Some(to) && b.attached
    ensures Follows(old(s.script), s.script) && (Calm(old(s.script)) ==> r.Ok? && s.repo.remote == old(s.repo).remote)
  {
    var t := s.Next();
    if t.fate == CrashBefore {
      return Crashed;
    }
    if t.fate == Refused {
      return Err(Safe(t.code));
    }
    s.repo := s.repo.(head := Some(to));
    b.tip, b.attached := Some(to), true;
    r := if t.fate == CrashAfter then Crashed else if t.fate == LostReply then Err(Safe(t.code)) else Ok(());
  }

  lemma AncestorIsRelated(head: Commit, oid: Commit)
    requires IsAncestor(oid, head)
    ensures !Unrelated(head, oid)
  {
    assert oid in History(head) * History(oid);
  }

  /** The two share a commit. */
  predicate Meets(a: Oid, b: Oid) {
    a.Some? && b.Some? && !Unrelated(a.value, b.value)
  }

  /** Neither merge joins histories that have nothing in common: the snapshot shares a commit with the branch, the
      fetched commit with one of the two. */
  predicate Joinable(start: Oid, snapshot: Oid, fetched: Oid) {
    && (snapshot.Some? ==> Meets(start, snapshot))
    && (fetched.Some? ==> Meets(start, fetched) || Meets(snapshot, fetched))
  }

  /** The second merge meets what either side of the first one meets. */
  lemma MergeMeetsBoth(start: Oid, merged: Oid, side: Oid, other: Oid)
    requires start.Some? && KeepsHistory(start, merged) && KeepsHistory(side, merged) && AddsOnly(merged, start, side)
    ensures Meets(merged, other) <==> Meets(start, other) || Meets(side, other)
  {
    if Meets(start, other) {
      var c :| c in History(start.value) * History(other.value);
      assert c in History(merged.value) * History(other.value);
    }
    if Meets(side, other) {
      var c :| c in History(side.value) * History(other.value);
      assert c in History(merged.value) * History(other.value);
    }
    if Meets(merged, other) {
      var c :| c in History(merged.value) * History(other.value);
      assert Reaches(merged, c);
      if MergeOf(c, side) {
        ParentHistory(c, 1);
        AncestorHistory(c, other.value);
        assert side.value in History(side.value) * History(other.value);
      } else if Reaches(start, c) {
        assert c in History(start.value) * History(other.value);
      } else {
        assert c in History(side.value) * History(other.value);
      }
    }
  }

  /** What mergeIfNeeded makes of a failed merge. */
  method ReportInitialMerge(s: Session, merged: Result<()>) returns (r: Result<()>)
    requires merged.IsFailure() && (merged.Err? ==> merged.failure.Safe?)
    modifies s`script, s`repo, s`row, s`cp, s`stages
    ensures SameLocal(old(s.repo), s.repo) && !r.Ok?
    ensures s.cp == old(s.cp).(stage := s.cp.stage, conflictPaths := s.cp.conflictPaths)
    ensures s.row == old(s.row) || s.row == Checkpointed(old(s.row), s.cp)
    ensures r.Err? && s.repo.unmerged != {} ==> r.failure.Conflicted? && r.failure.paths == s.cp.conflictPaths == s.repo.unmerged
    ensures r.Err? ==>
              var unread := Ahead(old(s.script), 0).fate != Done;
              merged.Err? && r.failure == if unread || s.repo.unmerged != {} then Conflicted(s.repo.unmerged, unread) else merged.failure
    ensures SameOperation(old(s.row), s.row) && Follows(old(s.script), s.script)
    ensures Calm(old(s.script)) && !merged.Crashed? ==>
              s.repo == old(s.repo) && !r.Crashed? && (s.repo.unmerged != {} <==> r.failure.Conflicted?)
  {
    if merged.Crashed? {
      return Crashed;
    }
    var seen := s.Inspect();
    if seen.Crashed? {
      return Crashed;
    }
    if seen.Err? || s.repo.unmerged != {} {
      s.cp := s.cp.(conflictPaths := s.repo.unmerged);
      var saved := s.Save(StageMerging);
      if saved.Crashed? {
        return Crashed;
      }
      return Err(Conflicted(s.cp.conflictPaths, seen.Err?));
    }
    return merged;
  }

  /** The merge of mergeIfNeeded, journalled before and after. */
  method MergeInto(s: Session, b: Branch, head: Commit, oid: Commit) returns (r: Result<()>)
    requires NoMerge(s.repo) && b.Valid(s.repo) && b.attached && s.repo.head == Some(head) && !IsAncestor(oid, head)
    modifies s`script, s`repo, s`row, s`cp, s`stages, b`tip
    ensures b.Valid(s.repo)
    ensures s.repo.(head := old(s.repo).head, mergeHead := None, unmerged := {}, remote := old(s.repo).remote) == old(s.repo)
    ensures KeepsHistory(old(s.repo).head, s.repo.head) && AddsOnly(s.repo.head, old(s.repo).head, Some(oid))
    ensures r.Ok? ==> NoMerge(s.repo) && s.repo.head.Some? && IsAncestor(oid, s.repo.head.value)
    ensures s.cp == old(s.cp).(stage := s.cp.stage, conflictPaths := s.cp.conflictPaths)
    ensures s.row == old(s.row) || (s.row.local == s.cp.local && s.row.candidate == s.cp.candidate && s.row.remote == s.cp.remote)
    ensures r.Err? && s.repo.unmerged != {} ==> r.failure.Conflicted? && r.failure.paths == s.cp.conflictPaths == s.repo.unmerged
    ensures SameOperation(old(s.row), s.row) && Follows(old(s.script), s.script)
    ensures Calm(old(s.script)) ==> s.repo.remote == old(s.repo).remote && !r.Crashed?
    ensures Calm(old(s.script)) && Clean(old(s.script)) && old(s.row).Active() ==> r.Ok?
  {
    var _ :- s.Save(StageMerging);
    var merged := s.Merge(head, oid);
    b.tip := s.repo.head;
    if merged.IsFailure() {
      r := ReportInitialMerge(s, merged);
      return;
    }
    r := s.Save(StageMerging);
  }

  /** mergeIfNeeded: afterwards HEAD contains the commit, and everything it contained before. */
  method MergeIfNeeded(s: Session, b: Branch, oid: Commit, allowUnrelated: bool) returns (r: Result<()>)
    requires NoMerge(s.repo) && b.Valid(s.repo) && b.attached
    modifies s`script, s`repo, s`row, s`cp, s`stages, b`tip
    ensures b.Valid(s.repo)
    ensures s.repo.(head := old(s.repo).head, mergeHead := None, unmerged := {}, remote := old(s.repo).remote) == old(s.repo)
    ensures KeepsHistory(old(s.repo).head, s.repo.head) && AddsOnly(s.repo.head, old(s.repo).head, Some(oid))
    ensures r.Ok? ==> NoMerge(s.repo) && s.repo.head.Some? && IsAncestor(oid, s.repo.head.value)
    ensures r.Ok? && !allowUnrelated ==> Meets(old(s.repo).head, Some(oid))
    ensures s.cp == old(s.cp).(stage := s.cp.stage, conflictPaths := s.cp.conflictPaths)
    ensures s.row == old(s.row) || (s.row.local == s.cp.local && s.row.candidate == s.cp.candidate && s.row.remote == s.cp.remote)
    ensures r.Err? && s.repo.unmerged != {} ==> r.failure.Conflicted? && r.failure.paths == s.cp.conflictPaths == s.repo.unmerged
    ensures SameOperation(old(s.row), s.row) && Follows(old(s.script), s.script)
    ensures Calm(old(s.script)) ==> s.repo.remote == old(s.repo).remote && !r.Crashed?
    ensures Calm(old(s.script)) && Clean(old(s.script)) && old(s.row).Active() && old(s.repo).head.Some? ==>
              (r.Ok? <==> allowUnrelated || !Unrelated(old(s.repo).head.value, oid))
  {
    var _ :- s.Inspect();
    if s.repo.head.None? {
      return Err(GitSession.Safe(CommandFailed));
    }
    var head := s.repo.head.value;
    var _ :- s.Inspect();
    if IsAncestor(oid, head) {
      AncestorIsRelated(head, oid);
      return Ok(());
    }
    var _ :- s.Inspect();
    if Unrelated(head, oid) && !allowUnrelated {
      return Err(GitSession.Safe(ConfirmationRequired));
    }
    r := MergeInto(s, b, head, oid);
  }

  /** The commit is in HEAD's history, or kept by a backup ref. */
  ghost predicate Kept(oid: Oid, head: Oid, refs: Refs) {
    oid.Some? ==>
      (head.Some? && oid.value in History(head.value)) || exists name :: name in refs && oid.value in History(refs[name])
  }

  /** The commit of snapshotInitialTree; without a HEAD it needs the confirmation that a branch may be created. */
  method CommitTree(s: Session, b: Branch, allowBranch: bool) returns (r: Result<()>, ghost changed: Option<nat>)
    requires b.Valid(s.repo) && NoMerge(s.repo)
    modifies s`script, s`repo, s`row, s`cp, s`stages, b`tip
    ensures b.Valid(s.repo) && NoMerge(s.repo) && OnlyHead(old(s.repo), s.repo)
    ensures KeepsHistory(old(s.repo).head, s.repo.head) && KeepsHistory(old(b.tip), b.tip)
    ensures !b.attached ==> b.tip == old(b.tip)
    ensures r.Ok? ==> changed.Some? && s.repo.head == Some(CommitOn(changed.value, old(s.repo).head))
                      && (old(s.repo).head.Some? || allowBranch)
    ensures SameOperation(old(s.row), s.row) && Follows(old(s.script), s.script)
    ensures Calm(old(s.script)) ==> s.repo.remote == old(s.repo).remote && !r.Crashed?
    ensures Calm(old(s.script)) && old(s.row).Active() ==> (r.Ok? <==> old(s.repo).head.Some? || allowBranch)
    ensures s.cp == old(s.cp).(stage := s.cp.stage) && (s.row == old(s.row) || s.row.backupRef == s.cp.backupRef)
  {
    changed := None;
    var _ :- s.Inspect();
    if s.repo.head.None? && !allowBranch {
      return Err(GitSession.Safe(ConfirmationRequired)), changed;
    }
    var _ :- s.Save(StageSnapshotting);
    changed := Some(GitSession.Head(s.script).content);
    r := s.CommitStaged();
    if b.attached {
      b.tip := s.repo.head;
    }
  }

  method BeginSnapshot(s: Session) returns (r: Result<Tick>)
    modifies s`script, s`repo, s`row, s`cp, s`stages
    ensures SameLocal(old(s.repo), s.repo)
    ensures r.Ok? ==> r.value == Ahead(old(s.script), 2)
    ensures s.cp == old(s.cp).(stage := s.cp.stage) && (s.row == old(s.row) || s.row == Checkpointed(old(s.row), s.cp))
    ensures SameOperation(old(s.row), s.row) && Follows(old(s.script), s.script)
    ensures Calm(old(s.script)) ==> s.repo == old(s.repo) && !r.Crashed? && (old(s.row).Active() ==> r.Ok?)
  {
    var _ :- s.Inspect();
    var _ :- s.Save(StageSnapshotting);
    r := s.Inspect();
  }

  /** snapshotInitialTree: commit whatever is in the worktree; None when there is nothing to commit and no HEAD. */
  method SnapshotTree(s: Session, b: Branch, allowEmpty: bool, allowBranch: bool)
    returns (r: Result<Oid>, ghost changed: Option<nat>)
    requires b.Valid(s.repo) && NoMerge(s.repo)
    modifies s`script, s`repo, s`row, s`cp, s`stages, b`tip
    ensures b.Valid(s.repo) && NoMerge(s.repo) && OnlyHead(old(s.repo), s.repo)
    ensures KeepsHistory(old(s.repo).head, s.repo.head) && KeepsHistory(old(b.tip), b.tip)
    ensures !b.attached ==> b.tip == old(b.tip)
    ensures r.Ok? ==> r.value == s.repo.head
    ensures r.Ok? ==> s.repo.head == if changed.Some? then Some(CommitOn(changed.value, old(s.repo).head)) else old(s.repo).head
    ensures r.Ok? ==> (changed.Some? <==> Ahead(old(s.script), 2).dirty || (old(s.repo).head.None? && allowEmpty))
    ensures r.Ok? && allowEmpty ==> r.value.Some?
    ensures r.Ok? && r.value.Some? ==> old(s.repo).head.Some? || allowBranch
    ensures SameOperation(old(s.row), s.row) && Follows(old(s.script), s.script)
    ensures Calm(old(s.script)) ==> s.repo.remote == old(s.repo).remote && !r.Crashed?
    ensures Calm(old(s.script)) && old(s.row).Active() && (old(s.repo).head.Some? || allowBranch) ==> r.Ok?
    ensures s.cp == old(s.cp).(stage := s.cp.stage) && (s.row == old(s.row) || s.row.backupRef == s.cp.backupRef)
  {
    changed := None;
    var staged :- BeginSnapshot(s);
    if !staged.dirty && s.repo.head.None? && !allowEmpty {
      return Ok(None), None;
    }
    if staged.dirty || s.repo.head.None? {
      var committed;
      committed, changed := CommitTree(s, b, allowBranch);
      if committed.IsFailure() {
        return committed.PropagateFailure(), changed;
      }
    }
    var _ :- s.Inspect();
    r := Ok(s.repo.head);
  }

  /** HEAD onto the selected branch at this commit, journalled first. */
  method SwitchTo(s: Session, b: Branch, to: Commit) returns (r: Result<()>)
    modifies s`script, s`repo, s`row, s`cp, s`stages, b
    ensures OnlyHead(old(s.repo), s.repo)
    ensures (s.repo.head == old(s.repo).head && b.tip == old(b.tip) && b.attached == old(b.attached))
            || (s.repo.head == Some(to) && b.tip == Some(to) && b.attached)
    ensures r.Ok? ==> s.repo.head == Some(to) && b.tip == Some(to) && b.attached
    ensures r.Ok? ==> s.stages == old(s.stages) + [StageSwitching]
    ensures s.cp == old(s.cp).(stage := s.cp.stage)
    ensures SameOperation(old(s.row), s.row) && Follows(old(s.script), s.script)
    ensures Calm(old(s.script)) ==> s.repo.remote == old(s.repo).remote && !r.Crashed? && (old(s.row).Active() ==> r.Ok?)
  {
    var _ :- s.Save(StageSwitching);
    r := MoveHead(s, b, to);
  }

  /** The fetched tree into an unborn branch's directory, if it is not there yet, and the branch onto it. */
  method CheckOut(s: Session, b: Branch, fetched: Commit, files: bool) returns (r: Result<()>)
    requires b.Valid(s.repo)
    modifies s`script, s`repo, s`row, s`cp, s`stages, b
    ensures b.Valid(s.repo) && OnlyHead(old(s.repo), s.repo) && (old(b.attached) ==> b.attached)
    ensures s.repo.head in {old(s.repo).head, Some(fetched)} && b.tip in {old(b.tip), Some(fetched)}
    ensures !b.attached ==> s.repo.head == old(s.repo).head
    ensures r.Ok? ==> b.attached && s.repo.head == Some(fetched)
    ensures r.Ok? ==> |s.stages| == |old(s.stages)| + if files then 3 else 2
    ensures s.cp == old(s.cp).(stage := s.cp.stage)
    ensures SameOperation(old(s.row), s.row) && Follows(old(s.script), s.script)
    ensures Calm(old(s.script)) ==> s.repo.remote == old(s.repo).remote && !r.Crashed? && (old(s.row).Active() ==> r.Ok?)
  {
    if files {
      var _ :- s.Save(StageSwitching);
      var _ :- s.Inspect();
      var _ :- s.Inspect();
    }
    var _ :- SwitchTo(s, b, fetched);
    r := s.Save(StageSwitching);
  }

  /** How far an earlier run had come in putting the fetched branch into an empty directory. */
  datatype Population = NoPopulation | PreCheckout | Unborn | BranchCreated

  /** The row is that of a run which had fetched and trusted the branch and had no snapshot to take. */
  predicate Populating(op: Operation) {
    && (op.stage == StageSwitching || op.stage == StageFetching)
    && op.local.None? && op.backupRef == "" && op.push.None? && op.candidate.Some? && op.remote == op.candidate
  }

  /** The refs are as such a run left them. */
  ghost predicate PopulationFits(p: Population, op: Operation, remoteOid: Oid, repo: Repository, tip: Oid, attached: bool) {
    p == NoPopulation
    || (Populating(op) && remoteOid == op.candidate && repo.fetched == op.candidate && repo.managed == op.candidate
        && attached && tip == repo.head
        && repo.head == if p == BranchCreated then op.candidate else None)
  }

  /** How far it has come, from what the refs and, one after the other, the inspections of the directory say; refused
      where they do not fit the row. */
  function PopulationAt(op: Operation, remoteOid: Oid, repo: Repository, tip: Oid, attached: bool, script: seq<Tick>): Result<Population> {
    if remoteOid != op.candidate then Err(GitSession.Safe(Interrupted))
    else if repo.fetched != op.candidate || repo.managed != op.candidate then Err(GitSession.Safe(HistoryRewritten))
    else if attached && tip == repo.head == None then
      if !Ahead(script, 1).dirty then Ok(PreCheckout) else if !Ahead(script, 2).dirty then Ok(Unborn) else Err(GitSession.Safe(Interrupted))
    else if attached && tip == repo.head == op.candidate && !Ahead(script, 1).dirty then Ok(BranchCreated)
    else if (attached && tip == repo.head == op.candidate) || op.stage == StageSwitching then Err(GitSession.Safe(Interrupted))
    else Ok(NoPopulation)
  }

  /** detectRemotePopulationRecovery; an inspection's `dirty` says that the directory is not empty, or is not
      what the candidate holds. */
  method DetectPopulation(s: Session, b: Branch, op: Operation, remoteOid: Oid) returns (r: Result<Population>)
    requires b.Valid(s.repo)
    modifies s`script, s`repo
    ensures SameLocal(old(s.repo), s.repo) && Follows(old(s.script), s.script) && b.Valid(s.repo)
    ensures Calm(old(s.script)) ==> s.repo == old(s.repo) && !r.Crashed?
    ensures r.Ok? ==> PopulationFits(r.value, op, remoteOid, s.repo, b.tip, b.attached)
    ensures !Populating(op) ==> r == Ok(NoPopulation)
    // an inspection of the directory tells whether the files are there
    ensures r.Ok? && r.value == PreCheckout ==> !Head(Rest(old(s.script))).dirty
    ensures r.Ok? && r.value == Unborn ==> Head(Rest(old(s.script))).dirty && !Head(Rest(Rest(old(s.script)))).dirty
    ensures r.Ok? && r.value == BranchCreated ==> !Head(Rest(old(s.script))).dirty
    ensures Calm(old(s.script)) && Populating(op) ==> r == PopulationAt(op, remoteOid, s.repo, b.tip, b.attached, old(s.script))
    ensures r == Ok(NoPopulation) && Populating(op) ==>
              op.stage == StageFetching && !(b.attached && b.tip == s.repo.head && s.repo.head in {None, op.candidate})
  {
    if op.stage != StageSwitching && op.stage != StageFetching {
      return Ok(NoPopulation);
    }
    if op.local.Some? || op.backupRef != "" || op.push.Some? || op.candidate.None? || op.remote != op.candidate {
      return Ok(NoPopulation);
    }
    if remoteOid != op.candidate {
      return Err(GitSession.Safe(Interrupted));
    }
    var _ :- s.Inspect();
    if s.repo.fetched != op.candidate || s.repo.managed != op.candidate {
      return Err(GitSession.Safe(HistoryRewritten));
    }
    if s.repo.head.None? && b.tip.None? && b.attached {
      var directory :- s.Inspect();
      if !directory.dirty {
        return Ok(PreCheckout);
      }
      var content :- s.Inspect();
      return if content.dirty then Err(GitSession.Safe(Interrupted)) else Ok(Unborn);
    }
    if s.repo.head == op.candidate && b.tip == op.candidate && b.attached {
      var content :- s.Inspect();
      return if content.dirty then Err(GitSession.Safe(Interrupted)) else Ok(BranchCreated);
    }
    r := if op.stage == StageSwitching then Err(GitSession.Safe(Interrupted)) else Ok(NoPopulation);
  }

  /** The population branches of selectAndMerge: nothing may have changed since the detection. */
  method SelectPopulated(s: Session, b: Branch, population: Population, op: Operation, fetched: Commit) returns (r: Result<()>)
    requires b.Valid(s.repo) && population != NoPopulation
    modifies s`script, s`repo, s`row, s`cp, s`stages, b
    ensures b.Valid(s.repo) && OnlyHead(old(s.repo), s.repo)
    ensures KeepsHistory(old(b.tip), b.tip) && KeepsHistory(old(s.repo).head, s.repo.head)
    ensures (old(b.attached) ==> b.attached) && (!b.attached ==> s.repo.head == old(s.repo).head)
    ensures r.Ok? ==> b.attached && s.repo.head == Some(fetched)
    ensures s.cp == old(s.cp).(stage := s.cp.stage)
    ensures SameOperation(old(s.row), s.row) && Follows(old(s.script), s.script)
    ensures Calm(old(s.script)) ==> s.repo.remote == old(s.repo).remote && !r.Crashed?
  {
    var _ :- s.Inspect();
    var again :- DetectPopulation(s, b, op, Some(fetched));
    if again != population {
      return Err(GitSession.Safe(Interrupted));
    }
    if population == BranchCreated {
      return Ok(());
    }
    r := CheckOut(s, b, fetched, population == PreCheckout);
  }

  /** The branch is created at the fetched commit, or at the snapshot, if that is confirmed. */
  method CreateBranch(s: Session, b: Branch, snapshot: Oid, fetched: Oid, confirmed: Confirmations) returns (r: Result<()>)
    requires b.Valid(s.repo) && b.tip.None?
    modifies s`script, s`repo, s`row, s`cp, s`stages, b
    ensures b.Valid(s.repo) && OnlyHead(old(s.repo), s.repo) && (old(b.attached) ==> b.attached)
    ensures !b.attached ==> s.repo.head == old(s.repo).head
    ensures r.Ok? ==> b.attached && s.repo.head.Some? && s.repo.head == if fetched.Some? then fetched else snapshot
    ensures r.Ok? ==> fetched.Some? || confirmed.createBranch
    ensures s.cp == old(s.cp).(stage := s.cp.stage)
    ensures SameOperation(old(s.row), s.row) && Follows(old(s.script), s.script)
    ensures Calm(old(s.script)) ==> s.repo.remote == old(s.repo).remote && !r.Crashed?
    ensures Calm(old(s.script)) && old(s.row).Active() ==> (r.Ok? <==> fetched.Some? || (confirmed.createBranch && snapshot.Some?))
  {
    if fetched.None? && !confirmed.createBranch {
      return Err(GitSession.Safe(ConfirmationRequired));
    }
    var start := if fetched.Some? then fetched else snapshot;
    if start.None? {
      return Err(GitSession.Safe(CommandFailed));
    }
    r := SwitchTo(s, b, start.value);
  }

  /** HEAD onto the selected branch: as an earlier run left it, to the fetched tree, to the branch as it is, or to a
      new branch. */
  method MoveToBranch(s: Session, b: Branch, population: Population, op: Operation, snapshot: Oid, fetched: Oid, confirmed: Confirmations)
    returns (r: Result<()>)
    requires b.Valid(s.repo) && NoMerge(s.repo) && (population != NoPopulation ==> fetched.Some?)
    modifies s`script, s`repo, s`row, s`cp, s`stages, b
    ensures b.Valid(s.repo) && OnlyHead(old(s.repo), s.repo)
    ensures KeepsHistory(old(b.tip), b.tip)
    ensures old(b.attached) ==> b.attached && KeepsHistory(old(s.repo).head, s.repo.head)
    ensures r.Ok? ==> b.attached && s.repo.head.Some?
    ensures !b.attached ==> s.repo.head == old(s.repo).head
    ensures r.Ok? ==> s.repo.head == if population != NoPopulation then fetched
                                     else if old(b.tip).Some? then old(b.tip)
                                     else if fetched.Some? then fetched else snapshot
    ensures s.cp == old(s.cp).(stage := s.cp.stage)
    ensures SameOperation(old(s.row), s.row) && Follows(old(s.script), s.script)
    ensures Calm(old(s.script)) ==> s.repo.remote == old(s.repo).remote && !r.Crashed?
    ensures Calm(old(s.script)) && old(s.row).Active() && population == NoPopulation ==>
              (r.Ok? <==> old(b.tip).Some? || fetched.Some? || (confirmed.createBranch && snapshot.Some?))
  {
    if population != NoPopulation {
      r := SelectPopulated(s, b, population, op, fetched.value);
      return;
    }
    if b.tip.None? && fetched.Some? && snapshot.None? && b.attached {
      r := CheckOut(s, b, fetched.value, true);
    } else if b.tip.None? {
      r := CreateBranch(s, b, snapshot, fetched, confirmed);
    } else if !b.attached {
      r := SwitchTo(s, b, b.tip.value);
    } else {
      r := Ok(());
    }
  }

  /** The first half of selectAndMerge: HEAD onto the selected branch, which is created if need be. A HEAD that is
      on the selected branch loses nothing; any other is left where it is. */
  method SelectBranch(s: Session, b: Branch, population: Population, op: Operation, snapshot: Oid, fetched: Oid, confirmed: Confirmations)
    returns (r: Result<()>)
    requires b.Valid(s.repo) && NoMerge(s.repo) && (population != NoPopulation ==> fetched.Some?)
    modifies s`script, s`repo, s`row, s`cp, s`stages, b
    ensures b.Valid(s.repo) && NoMerge(s.repo) && OnlyHead(old(s.repo), s.repo)
    ensures KeepsHistory(old(b.tip), b.tip)
    ensures old(b.attached) ==> b.attached && KeepsHistory(old(s.repo).head, s.repo.head)
    ensures r.Ok? ==> b.attached && s.repo.head.Some?
    ensures !b.attached ==> s.repo.head == old(s.repo).head
    ensures r.Ok? ==> s.repo.head == if population != NoPopulation then fetched
                                     else if old(b.tip).Some? then old(b.tip)
                                     else if fetched.Some? then fetched else snapshot
    ensures s.cp == old(s.cp).(stage := s.cp.stage)
    ensures SameOperation(old(s.row), s.row) && Follows(old(s.script), s.script)
    ensures Calm(old(s.script)) ==> s.repo.remote == old(s.repo).remote && !r.Crashed?
    ensures Calm(old(s.script)) && old(s.row).Active() && population == NoPopulation ==>
              (r.Ok? <==> old(b.tip).Some? || fetched.Some? || (confirmed.createBranch && snapshot.Some?))
  {
    var _ :- s.Inspect();
    var _ :- MoveToBranch(s, b, population, op, snapshot, fetched, confirmed);
    r := s.Save(StageSwitching);
  }

  /** One of the two merges of selectAndMerge; an absent side needs none. */
  method MergeSide(s: Session, b: Branch, side: Oid, allowUnrelated: bool) returns (r: Result<()>)
    requires NoMerge(s.repo) && b.Valid(s.repo) && b.attached && s.repo.head.Some?
    modifies s`script, s`repo, s`row, s`cp, s`stages, b`tip
    ensures b.Valid(s.repo)
    ensures s.repo.(head := old(s.repo).head, mergeHead := None, unmerged := {}, remote := old(s.repo).remote) == old(s.repo)
    ensures KeepsHistory(old(s.repo).head, s.repo.head) && AddsOnly(s.repo.head, old(s.repo).head, side)
    ensures r.Ok? ==> NoMerge(s.repo) && KeepsHistory(side, s.repo.head)
    ensures s.cp == old(s.cp).(stage := s.cp.stage, conflictPaths := s.cp.conflictPaths)
    ensures SameOperation(old(s.row), s.row) && Follows(old(s.script), s.script)
    ensures Calm(old(s.script)) ==> s.repo.remote == old(s.repo).remote && !r.Crashed?
    ensures r.Ok? && !allowUnrelated && side.Some? ==> Meets(old(s.repo).head, side)
    ensures Calm(old(s.script)) && Clean(old(s.script)) && old(s.row).Active() ==>
              (r.Ok? <==> allowUnrelated || side.None? || Meets(old(s.repo).head, side))
  {
    if side.None? {
      return Ok(());
    }
    r := MergeIfNeeded(s, b, side.value, allowUnrelated);
    if r.Ok? {
      AncestorHistory(side.value, s.repo.head.value);
    }
  }

  /** The merged HEAD becomes the commit to push. */
  method RecordInitialPush(s: Session) returns (r: Result<Commit>)
    requires s.repo.head.Some?
    modifies s`script, s`repo, s`row, s`cp, s`stages
    ensures SameLocal(old(s.repo), s.repo)
    ensures r.Ok? ==> s.repo.head == Some(r.value) && s.cp.push == Some(r.value)
    ensures s.cp == old(s.cp).(stage := s.cp.stage, push := s.cp.push)
    ensures SameOperation(old(s.row), s.row) && Follows(old(s.script), s.script)
    ensures Calm(old(s.script)) ==> s.repo == old(s.repo) && !r.Crashed? && (old(s.row).Active() ==> r.Ok?)
  {
    var _ :- s.Save(StageMerging);
    var _ :- s.Inspect();
    var pushed := s.repo.head.value;
    s.cp := s.cp.(push := Some(pushed));
    var _ :- s.Save(StageReindexing);
    r := Ok(pushed);
  }

  /** The ref reaches nothing beyond what branch, snapshot and fetched commit reach, but for merges of the last two. */
  ghost predicate ConnectsOnly(after: Oid, tip: Oid, snapshot: Oid, fetched: Oid) {
    forall c :: Reaches(after, c) ==>
                  Reaches(tip, c) || Reaches(snapshot, c) || Reaches(fetched, c) || MergeOf(c, snapshot) || MergeOf(c, fetched)
  }

  /** Both merges, the snapshot first. */
  method MergeSides(s: Session, b: Branch, snapshot: Oid, fetched: Oid, allowUnrelated: bool) returns (r: Result<()>)
    requires NoMerge(s.repo) && b.Valid(s.repo) && b.attached && s.repo.head.Some?
    modifies s`script, s`repo, s`row, s`cp, s`stages, b`tip
    ensures b.Valid(s.repo)
    ensures s.repo.(head := old(s.repo).head, mergeHead := None, unmerged := {}, remote := old(s.repo).remote) == old(s.repo)
    ensures KeepsHistory(old(s.repo).head, s.repo.head) && ConnectsOnly(s.repo.head, old(s.repo).head, snapshot, fetched)
    ensures r.Ok? ==> NoMerge(s.repo) && KeepsHistory(snapshot, s.repo.head) && KeepsHistory(fetched, s.repo.head)
    ensures s.cp == old(s.cp).(stage := s.cp.stage, conflictPaths := s.cp.conflictPaths)
    ensures SameOperation(old(s.row), s.row) && Follows(old(s.script), s.script)
    ensures Calm(old(s.script)) ==> s.repo.remote == old(s.repo).remote && !r.Crashed?
    ensures r.Ok? && !allowUnrelated ==> Joinable(old(s.repo).head, snapshot, fetched)
    ensures Calm(old(s.script)) && Clean(old(s.script)) && old(s.row).Active() ==>
              (r.Ok? <==> allowUnrelated || Joinable(old(s.repo).head, snapshot, fetched))
  {
    var _ :- MergeSide(s, b, snapshot, allowUnrelated);
    MergeMeetsBoth(old(s.repo).head, s.repo.head, snapshot, fetched);
    r := MergeSide(s, b, fetched, allowUnrelated);
  }

  /** Where selectAndMerge starts its merges. */
  function StartOf(population: Population, tip: Oid, snapshot: Oid, fetched: Oid): Oid {
    if population != NoPopulation then fetched
    else if tip.Some? then tip
    else if fetched.Some? then fetched
    else snapshot
  }

  /** selectAndMerge: afterwards HEAD is the selected branch and contains the snapshot and the fetched commit. */
  method SelectAndMerge(s: Session, b: Branch, population: Population, op: Operation, snapshot: Oid, fetched: Oid, confirmed: Confirmations)
    returns (r: Result<Commit>)
    requires b.Valid(s.repo) && NoMerge(s.repo) && (population != NoPopulation ==> fetched.Some?)
    modifies s`script, s`repo, s`row, s`cp, s`stages, b
    ensures b.Valid(s.repo)
    ensures s.repo.(head := old(s.repo).head, mergeHead := None, unmerged := {}, remote := old(s.repo).remote) == old(s.repo)
    ensures KeepsHistory(old(b.tip), b.tip)
    ensures old(b.attached) ==> KeepsHistory(old(s.repo).head, s.repo.head)
    ensures r.Ok? ==> NoMerge(s.repo) && b.attached && s.repo.head == Some(r.value) && s.cp.push == Some(r.value)
                      && KeepsHistory(snapshot, Some(r.value)) && KeepsHistory(old(b.tip), Some(r.value)) && KeepsHistory(fetched, Some(r.value))
    ensures !b.attached ==> s.repo.head == old(s.repo).head
    ensures r.Ok? ==> ConnectsOnly(Some(r.value), old(b.tip), snapshot, fetched)
    ensures r.Ok? && !confirmed.mergeHistories ==> Joinable(StartOf(population, old(b.tip), snapshot, fetched), snapshot, fetched)
    ensures s.cp.candidate == old(s.cp).candidate && s.cp.remote == old(s.cp).remote && s.cp.local == old(s.cp).local
    ensures s.cp.backupRef == old(s.cp).backupRef
    ensures SameOperation(old(s.row), s.row) && Follows(old(s.script), s.script)
    ensures Calm(old(s.script)) ==> s.repo.remote == old(s.repo).remote && !r.Crashed?
    ensures Calm(old(s.script)) && Clean(old(s.script)) && old(s.row).Active() && population == NoPopulation ==>
              (r.Ok? <==> (old(b.tip).Some? || fetched.Some? || (confirmed.createBranch && snapshot.Some?))
                          && (confirmed.mergeHistories || Joinable(StartOf(population, old(b.tip), snapshot, fetched), snapshot, fetched)))
  {
    var _ :- SelectBranch(s, b, population, op, snapshot, fetched, confirmed);
    var merged := MergeSides(s, b, snapshot, fetched, confirmed.mergeHistories);
    if merged.IsFailure() {
      return merged.PropagateFailure();
    }
    r := RecordInitialPush(s);
  }

  method JournalTrust(s: Session, candidate: Commit) returns (r: Result<()>)
    modifies s`script, s`repo, s`row, s`cp, s`stages
    ensures SameLocal(old(s.repo), s.repo)
    ensures s.cp == old(s.cp).(stage := StageFetching, remote := Some(candidate))
    ensures s.row == old(s.row) || s.row == Checkpointed(old(s.row), s.cp)
    ensures SameOperation(old(s.row), s.row) && Follows(old(s.script), s.script)
    ensures Calm(old(s.script)) ==> s.repo == old(s.repo) && !r.Crashed? && (old(s.row).Active() ==> r.Ok?)
  {
    s.cp := s.cp.(remote := Some(candidate));
    r := s.Save(StageFetching);
  }

  /** Trust is where it was left, if anywhere, and the candidate descends from it. */
  ghost predicate TrustMayMove(managed: Oid, lastRemote: Oid, candidate: Commit) {
    lastRemote.Some? ==> managed == lastRemote && IsAncestor(lastRemote.value, candidate)
  }

  /** As above, or there is neither a remote branch nor a managed ref. */
  ghost predicate TrustFits(managed: Oid, lastRemote: Oid, remote: Oid) {
    if remote.Some? then TrustMayMove(managed, lastRemote, remote.value) else managed.None? && lastRemote.None?
  }

  method MoveTrust(s: Session, candidate: Commit, current: Oid) returns (r: Result<()>)
    requires s.repo.managed == current
    modifies s`script, s`repo, s`row, s`cp, s`stages, s`effects
    ensures s.repo.(managed := old(s.repo).managed, remote := old(s.repo).remote) == old(s.repo)
    ensures Pushes(s.effects) == Pushes(old(s.effects))
    ensures s.repo.managed == current || s.repo.managed == Some(candidate)
    ensures r.Ok? ==> s.repo.managed == Some(candidate) && s.cp.remote == Some(candidate)
    ensures s.cp == old(s.cp).(stage := s.cp.stage, remote := s.cp.remote)
    ensures s.row == old(s.row) || s.row.candidate == s.cp.candidate
    ensures SameOperation(old(s.row), s.row) && Follows(old(s.script), s.script)
    ensures Calm(old(s.script)) ==> s.repo.remote == old(s.repo).remote && !r.Crashed? && (old(s.row).Active() ==> r.Ok?)
  {
    var _ :- s.Save(StageFetching);
    var _ :- s.SwapTrust(candidate, current);
    r := JournalTrust(s, candidate);
  }

  /** establishRemoteTrust: with a remote trusted before, only a descendant of it is trusted now. */
  method EstablishTrust(s: Session, lastRemote: Oid, operation: Operation, candidate: Commit) returns (r: Result<()>)
    requires s.repo.fetched == Some(candidate) && s.row.candidate == Some(candidate) && s.cp.candidate == Some(candidate)
    modifies s`script, s`repo, s`row, s`cp, s`stages, s`effects
    ensures s.repo.(managed := old(s.repo).managed, remote := old(s.repo).remote) == old(s.repo)
    ensures Pushes(s.effects) == Pushes(old(s.effects))
    ensures s.repo.managed == old(s.repo).managed || s.repo.managed == Some(candidate)
    ensures lastRemote.Some? && s.repo.managed != old(s.repo).managed ==>
              old(s.repo).managed == lastRemote && KeepsHistory(lastRemote, Some(candidate))
    ensures r.Ok? ==> s.repo.managed == Some(candidate) && s.cp.remote == Some(candidate)
    ensures s.cp == old(s.cp).(stage := s.cp.stage, remote := s.cp.remote)
    ensures s.row == old(s.row) || s.row.candidate == Some(candidate)
    ensures SameOperation(old(s.row), s.row) && Follows(old(s.script), s.script)
    ensures Calm(old(s.script)) ==> s.repo.remote == old(s.repo).remote && !r.Crashed?
    ensures Calm(old(s.script)) && old(s.row).Active() ==>
              (r.Ok? <==> TrustMayMove(old(s.repo).managed, lastRemote, candidate)
                          || (lastRemote.Some? && old(s.repo).managed == operation.candidate == Some(candidate)))
  {
    var _ :- s.Inspect();
    var current := s.repo.managed;
    if lastRemote.Some? {
      if current != lastRemote {
        if current != Some(candidate) || operation.candidate != Some(candidate) {
          return Err(GitSession.Safe(HistoryRewritten));
        }
        var _ :- s.Inspect();
        r := JournalTrust(s, candidate);
        return;
      }
      if lastRemote != Some(candidate) {
        var _ :- s.Inspect();
        if !IsAncestor(lastRemote.value, candidate) {
          return Err(GitSession.Safe(HistoryRewritten));
        }
        AncestorHistory(lastRemote.value, candidate);
      }
    }
    if current == Some(candidate) {
      r := JournalTrust(s, candidate);
      return;
    }
    r := MoveTrust(s, candidate, current);
  }

  /** The remote has accepted this commit, journalled beforehand, and nothing was pushed after it. */
  ghost predicate Accepted(effects: seq<Effect>, pushed: Commit) {
    exists k :: 0 <= k < |effects| && effects[k].Push? && effects[k].accepted && effects[k].oid == pushed
                && effects[k].row.push == Some(pushed) && effects[k].row.stage == StagePushing
                && forall j :: k < j < |effects| ==> !effects[j].Push?
  }

  /** The remote branch is still what was fetched, or may be created. */
  method RequireUnmoved(s: Session, fetched: Oid, createBranch: bool) returns (r: Result<()>)
    modifies s`script, s`repo
    ensures SameLocal(old(s.repo), s.repo) && Follows(old(s.script), s.script)
    ensures r.Ok? ==> fetched.Some? || createBranch
    ensures Calm(old(s.script)) ==>
              s.repo == old(s.repo) && !r.Crashed? && (r.Ok? <==> s.repo.remote == fetched && (fetched.Some? || createBranch))
  {
    var _ :- s.Inspect();
    if s.repo.remote != fetched {
      return Err(GitSession.Safe(Interrupted));
    }
    if fetched.None? && !createBranch {
      return Err(GitSession.Safe(ConfirmationRequired));
    }
    r := Ok(());
  }

  lemma JustAccepted(effects: seq<Effect>, pushed: Commit)
    requires effects != []
    requires var last := effects[|effects| - 1];
             last.Push? && last.accepted && last.oid == pushed && last.row.push == Some(pushed) && last.row.stage == StagePushing
    ensures Accepted(effects, pushed)
  {
    assert effects[|effects| - 1].Push?;
  }

  /** The push, journalled before and after. */
  method PushJournalled(s: Session, pushed: Commit) returns (r: Result<()>)
    requires s.cp.push == Some(pushed)
    modifies s`script, s`repo, s`row, s`cp, s`stages, s`effects
    ensures SameLocal(old(s.repo), s.repo)
    ensures Pushes(s.effects) <= Pushes(old(s.effects)) + 1
    ensures r.Ok? ==> Accepted(s.effects, pushed)
    ensures s.cp == old(s.cp).(stage := s.cp.stage)
    ensures SameOperation(old(s.row), s.row) && Follows(old(s.script), s.script)
    ensures Calm(old(s.script)) && old(s.row).Active() ==> !r.Crashed? && (r.Ok? <==> FastForwards(old(s.repo).remote, pushed))
  {
    var _ :- s.Save(StagePushing);
    var _ :- s.Inspect();
    var _ :- s.PushBranch(pushed);
    JustAccepted(s.effects, pushed);
    r := s.Save(StagePushing);
  }

  /** From the unchanged remote to the accepted push. */
  method PushInitial(s: Session, fetched: Oid, pushed: Commit, createBranch: bool) returns (r: Result<()>)
    requires s.cp.push == Some(pushed)
    modifies s`script, s`repo, s`row, s`cp, s`stages, s`effects
    ensures SameLocal(old(s.repo), s.repo)
    ensures Pushes(s.effects) <= Pushes(old(s.effects)) + 1
    ensures r.Ok? ==> Accepted(s.effects, pushed) && (fetched.Some? || createBranch)
    ensures s.cp == old(s.cp).(stage := s.cp.stage)
    ensures SameOperation(old(s.row), s.row) && Follows(old(s.script), s.script)
    ensures Calm(old(s.script)) && old(s.row).Active() ==>
              !r.Crashed? && (r.Ok? <==> old(s.repo).remote == fetched && (fetched.Some? || createBranch)
                                         && FastForwards(fetched, pushed))
  {
    var _ :- s.Save(StageReindexing);
    var _ :- RequireUnmoved(s, fetched, createBranch);
    r := PushJournalled(s, pushed);
  }

  /** After the push: trust what the remote accepted. */
  method PublishInitial(s: Session, fetched: Oid, pushed: Commit, createBranch: bool) returns (r: Result<()>)
    requires s.repo.head == Some(pushed) && s.cp.push == Some(pushed)
    modifies s`script, s`repo, s`row, s`cp, s`stages, s`effects
    ensures s.repo.(managed := old(s.repo).managed, remote := old(s.repo).remote) == old(s.repo)
    ensures s.repo.managed == old(s.repo).managed || (s.repo.managed == Some(pushed) && old(s.repo).managed == fetched)
    ensures Pushes(s.effects) <= Pushes(old(s.effects)) + 1
    ensures r.Ok? ==> s.repo.managed == Some(pushed) && Accepted(s.effects, pushed) && (fetched.Some? || createBranch)
                      && s.row.candidate == Some(pushed) && s.row.remote == Some(pushed) && s.row.push == Some(pushed)
                      && s.row.stage == StageCompleted
    ensures s.cp.backupRef == old(s.cp).backupRef
    ensures SameOperation(old(s.row), s.row)
    ensures Calm(old(s.script)) && old(s.row).Active() ==>
              (r.Ok? <==> old(s.repo).remote == fetched && (fetched.Some? || createBranch)
                          && FastForwards(fetched, pushed) && old(s.repo).managed in {fetched, Some(pushed)})
  {
    var _ :- PushInitial(s, fetched, pushed, createBranch);
    var _ :- s.Inspect();
    var _ :- s.Save(StagePushing);
    ghost var before := s.effects;
    var moved := s.SwapTrust(pushed, fetched);
    TrustKeepsAccepted(before, s.effects, pushed);
    if moved.IsFailure() {
      return moved;
    }
    s.cp := s.cp.(candidate := Some(pushed), remote := Some(pushed));
    r := s.Save(StageCompleted);
  }

  lemma TrustKeepsAccepted(before: seq<Effect>, after: seq<Effect>, pushed: Commit)
    requires Accepted(before, pushed)
    requires after == before || exists e: Effect :: e.Trust? && after == before + [e]
    ensures Accepted(after, pushed)
  {
    var k :| 0 <= k < |before| && before[k].Push? && before[k].accepted && before[k].oid == pushed
             && before[k].row.push == Some(pushed) && before[k].row.stage == StagePushing
             && forall j :: k < j < |before| ==> !before[j].Push?;
    assert after[k] == before[k];
  }
}
