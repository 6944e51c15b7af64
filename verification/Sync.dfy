/** Service.Sync: fetch, extend trust, snapshot, merge, push, extend trust again; one retry. */
module Sync {
  import opened Basics
  import opened CommitGraph
  import opened Errors
  import opened Journal
  import opened GitSession
  import opened Recovery

  /** What the run must never lose, whatever happens to it: HEAD and the managed ref only move to
      descendants, and every push and every extension of trust was journalled before it was made. */
  ghost predicate Safe(start: Repository, repo: Repository, effects: seq<Effect>) {
    && KeepsHistory(start.head, repo.head)
    && KeepsHistory(start.managed, repo.managed)
    && forall i :: 0 <= i < |effects| ==> Intended(start, effects[i])
  }

  /** A push or a trust move as the protocol intends it. */
  ghost predicate Intended(start: Repository, e: Effect) {
    match e
    case Push(oid, _, seen, head, managed, row) =>
      && seen == managed
      && row.stage == StagePushing && row.push == Some(oid) && head == Some(oid)
      && managed.Some? && row.remote == managed && row.candidate == managed
      && IsAncestor(managed.value, oid)
      && KeepsHistory(start.head, Some(oid))
    case Trust(oid, head, managed, fetched, row) =>
      && KeepsHistory(managed, Some(oid))
      && ((row.candidate == Some(oid) && fetched == Some(oid))
          || (row.stage == StagePushing && row.push == Some(oid) && head == Some(oid) && row.candidate == managed))
  }

  /** The merge of this run is under way exactly as the row describes it. */
  ghost predicate HandedOff(repo: Repository, row: Operation) {
    && repo.head.Some? && row.local == repo.head
    && repo.mergeHead.Some? && repo.mergeHead == repo.managed
    && row.candidate == repo.managed && row.remote == repo.managed
  }

  /** The row and the in-memory checkpoint agree on the trusted remote. */
  ghost predicate TrustSaved(s: Session, trusted: Oid)
    reads s
  {
    trusted.Some? && s.row.remote == trusted && s.cp.remote == trusted
  }

  /** The remote branch exists and descends from the trusted one. */
  ghost predicate Descends(remote: Oid, trusted: Oid) {
    remote.Some? && (trusted.Some? ==> IsAncestor(trusted.value, remote.value))
  }

  /** The two sides have a common history. */
  ghost predicate Mergeable(head: Oid, candidate: Commit) {
    head.Some? && (IsAncestor(candidate, head.value) || !Unrelated(head.value, candidate))
  }

  /** requireSyncTrust: the managed ref is exactly the remote the manager last trusted. */
  method RequireSyncTrust(s: Session, trusted: Oid) returns (r: Result<()>)
    modifies s`script, s`repo
    ensures SameLocal(old(s.repo), s.repo) && Follows(old(s.script), s.script)
    ensures MovedBy(old(s.script), old(s.repo).remote, s.repo.remote)
    ensures Steady(old(s.script)) ==> !r.Crashed? && (r.Ok? <==> s.repo.managed == trusted)
    ensures r.Ok? ==> s.repo.managed == trusted
    ensures r.Err? ==> r.failure.Safe?
  {
    var _ :- s.Inspect();
    if s.repo.managed != trusted {
      return Err(GitSession.Safe(NeedsReconnect));
    }
    r := Ok(());
  }

  /** preflightSync; true when a merge is already in progress. */
  method PreflightSync(s: Session, lastRemote: Oid) returns (r: Result<bool>)
    modifies s`script, s`repo
    ensures SameLocal(old(s.repo), s.repo) && Follows(old(s.script), s.script)
    ensures MovedBy(old(s.script), old(s.repo).remote, s.repo.remote)
    ensures Steady(old(s.script)) ==> (r.Ok? <==> s.repo.mergeHead.Some? || s.repo.managed == lastRemote)
    ensures r.Err? ==> r.failure.Safe?
    ensures r.Ok? && r.value ==> s.repo.mergeHead.Some?
    ensures r.Ok? && !r.value ==> s.repo.mergeHead.None? && s.repo.managed == lastRemote
  {
    var _ :- s.Inspect();
    if s.repo.mergeHead.Some? {
      return Ok(true);
    }
    var _ :- s.Inspect();
    var _ :- RequireSyncTrust(s, lastRemote);
    r := Ok(false);
  }

  /** advanceSyncTrust: compare and swap, an already applied swap counting as done. */
  method AdvanceSyncTrust(s: Session, trusted: Oid, candidate: Commit, ghost start: Repository) returns (r: Result<()>)
    requires Safe(start, s.repo, s.effects)
    requires KeepsHistory(trusted, Some(candidate))
    requires s.row.candidate == Some(candidate) && s.repo.fetched == Some(candidate)
    modifies s`script, s`repo, s`effects
    ensures Safe(start, s.repo, s.effects)
    ensures s.repo.(managed := old(s.repo).managed, remote := old(s.repo).remote) == old(s.repo)
    ensures s.repo.managed == old(s.repo).managed || s.repo.managed == Some(candidate)
    ensures r.Ok? ==> s.repo.managed == Some(candidate)
    ensures Pushes(s.effects) == Pushes(old(s.effects))
    ensures Follows(old(s.script), s.script)
    ensures MovedBy(old(s.script), old(s.repo).remote, s.repo.remote)
    ensures Steady(old(s.script)) ==> (r.Ok? <==> old(s.repo).managed == trusted)
  {
    var _ :- s.Inspect();
    if s.repo.managed != trusted {
      return Err(GitSession.Safe(NeedsReconnect));
    }
    if s.repo.managed == Some(candidate) {
      return Ok(());
    }
    r := s.SwapTrust(candidate, trusted);
  }

  /** The remote branch into the fetch ref. */
  method FetchBranch(s: Session) returns (r: Result<Commit>)
    modifies s`script, s`repo, s`row, s`cp, s`stages, s`seen
    ensures s.repo.(fetched := old(s.repo).fetched, remote := old(s.repo).remote) == old(s.repo)
    ensures s.cp == old(s.cp).(stage := s.cp.stage) && (s.row == old(s.row) || s.row == Checkpointed(old(s.row), s.cp))
    ensures r.Ok? ==> s.repo.fetched == Some(r.value) && MovedBy(old(s.script), old(s.repo).remote, Some(r.value))
    ensures r.Ok? ==> MovedBy(old(s.script), Some(r.value), s.repo.remote)
    ensures SameOperation(old(s.row), s.row) && Follows(old(s.script), s.script)
    ensures MovedBy(old(s.script), old(s.repo).remote, s.repo.remote)
    ensures Steady(old(s.script)) && old(s.row).Active() && (forall t :: t in old(s.script) && t.remoteMoves ==> t.remote.Some?) ==>
              (r.Ok? <==> old(s.repo).remote.Some? || s.repo.remote.Some?)
  {
    var _ :- s.ReadRemote();
    var _ :- s.Save(StageFetching);
    var _ :- s.Fetch();
    var _ :- s.Inspect();
    r := Ok(s.repo.fetched.value);
  }

  /** The fetch of fetchSyncCandidate: a candidate that descends from the trusted remote, not journalled yet. */
  method FetchDescendant(s: Session, trusted: Oid, ghost moved: Commit) returns (r: Result<Commit>)
    modifies s`script, s`repo, s`row, s`cp, s`stages, s`seen
    ensures s.repo.(fetched := old(s.repo).fetched, remote := old(s.repo).remote) == old(s.repo)
    ensures s.cp == old(s.cp).(stage := s.cp.stage) && (s.row == old(s.row) || s.row == Checkpointed(old(s.row), s.cp))
    ensures old(TrustSaved(s, trusted)) && old(Recoverable(s.row, s.repo)) ==> Recoverable(s.row, s.repo) && TrustSaved(s, trusted)
    ensures r.Ok? ==> s.repo.fetched == Some(r.value) && KeepsHistory(trusted, Some(r.value)) && s.repo.managed == trusted
    ensures SameOperation(old(s.row), s.row) && Follows(old(s.script), s.script)
    ensures MovedBy(old(s.script), old(s.repo).remote, s.repo.remote)
    ensures r.Ok? && Calm(old(s.script)) ==> Some(r.value) == s.repo.remote
    ensures r.Ok? && Settles(old(s.script), moved) ==>
              Some(r.value) in {old(s.repo).remote, Some(moved)} && s.repo.remote in {Some(r.value), Some(moved)}
    ensures Calm(old(s.script)) && old(s.row).Active() ==>
              (r.Ok? <==> old(s.repo).managed == trusted && Descends(old(s.repo).remote, trusted))
    ensures Settles(old(s.script), moved) && old(s.row).Active()
            && old(s.repo).managed == trusted && Descends(old(s.repo).remote, trusted) && Descends(Some(moved), trusted) ==>
              r.Ok?
  {
    var _ :- RequireSyncTrust(s, trusted);
    var candidate :- FetchBranch(s);
    if trusted.Some? {
      var _ :- s.Inspect();
      if !IsAncestor(trusted.value, candidate) {
        return Err(GitSession.Safe(HistoryRewritten));
      }
      AncestorHistory(trusted.value, candidate);
    }
    r := Ok(candidate);
  }

  /** The fetched candidate is journalled, trusted, and journalled as trusted. */
  method TrustCandidate(s: Session, trusted: Oid, candidate: Commit, ghost start: Repository) returns (r: Result<()>)
    requires Safe(start, s.repo, s.effects)
    requires s.repo.fetched == Some(candidate) && KeepsHistory(trusted, Some(candidate)) && s.repo.managed == trusted
    modifies s`script, s`repo, s`row, s`cp, s`stages, s`effects
    ensures Safe(start, s.repo, s.effects)
    ensures Pushes(s.effects) == Pushes(old(s.effects))
    ensures s.repo.(managed := old(s.repo).managed, remote := old(s.repo).remote) == old(s.repo)
    ensures old(TrustSaved(s, trusted)) && old(Recoverable(s.row, s.repo)) ==> Recoverable(s.row, s.repo)
    ensures r.Ok? ==> s.repo.managed == Some(candidate)
    ensures r.Ok? ==> TrustSaved(s, Some(candidate)) && s.cp.candidate == Some(candidate) && s.row.candidate == Some(candidate)
    ensures s.cp.push == old(s.cp).push && s.cp.local == old(s.cp).local
    ensures SameOperation(old(s.row), s.row) && Follows(old(s.script), s.script)
    ensures MovedBy(old(s.script), old(s.repo).remote, s.repo.remote)
    ensures Steady(old(s.script)) && old(s.row).Active() ==> r.Ok?
    ensures Calm(old(s.script)) && r.Ok? ==> old(s.row).Active()
  {
    s.cp := s.cp.(candidate := Some(candidate));
    var _ :- s.Save(StageFetching);
    var _ :- AdvanceSyncTrust(s, trusted, candidate, start);
    s.cp := s.cp.(remote := Some(candidate));
    r := s.Save(StageFetching);
  }

  /** fetchSyncCandidate: the remote branch becomes the candidate and, if it descends from the trusted
      remote, the new trusted remote. The candidate is journalled before trust moves to it. */
  method FetchSyncCandidate(s: Session, trusted: Oid, ghost start: Repository, ghost moved: Commit) returns (r: Result<Commit>)
    requires Safe(start, s.repo, s.effects)
    modifies s`script, s`repo, s`row, s`cp, s`stages, s`effects, s`seen
    ensures Safe(start, s.repo, s.effects)
    ensures Pushes(s.effects) == Pushes(old(s.effects))
    ensures s.repo.(managed := old(s.repo).managed, fetched := old(s.repo).fetched, remote := old(s.repo).remote) == old(s.repo)
    ensures old(TrustSaved(s, trusted)) && old(Recoverable(s.row, s.repo)) ==> Recoverable(s.row, s.repo)
    ensures r.Ok? ==> s.repo.managed == Some(r.value) && KeepsHistory(trusted, Some(r.value))
    ensures r.Ok? ==> TrustSaved(s, Some(r.value)) && s.cp.candidate == Some(r.value) && s.row.candidate == Some(r.value)
    ensures s.cp.push == old(s.cp).push && s.cp.local == old(s.cp).local
    ensures SameOperation(old(s.row), s.row) && Follows(old(s.script), s.script)
    ensures MovedBy(old(s.script), old(s.repo).remote, s.repo.remote)
    ensures r.Ok? && Calm(old(s.script)) ==> Some(r.value) == s.repo.remote
    ensures r.Ok? && Settles(old(s.script), moved) ==>
              Some(r.value) in {old(s.repo).remote, Some(moved)} && s.repo.remote in {Some(r.value), Some(moved)}
    ensures Calm(old(s.script)) && old(s.row).Active() ==>
              (r.Ok? <==> old(s.repo).managed == trusted && Descends(old(s.repo).remote, trusted))
    ensures Settles(old(s.script), moved) && old(s.row).Active()
            && old(s.repo).managed == trusted && Descends(old(s.repo).remote, trusted) && Descends(Some(moved), trusted) ==>
              r.Ok?
  {
    var candidate :- FetchDescendant(s, trusted, moved);
    var _ :- TrustCandidate(s, trusted, candidate, start);
    r := Ok(candidate);
  }

  /** preAddMergeState: an existing merge, or one that cannot be read, is handed over as a conflict. */
  method PreAddMergeState(s: Session, knownMerge: bool) returns (r: Result<()>)
    modifies s`script, s`repo, s`row, s`cp, s`stages
    ensures SameLocal(old(s.repo), s.repo)
    ensures s.cp == old(s.cp).(stage := s.cp.stage, conflictPaths := s.cp.conflictPaths)
    ensures s.row == old(s.row) || s.row == Checkpointed(old(s.row), s.cp)
    ensures r.Ok? ==> !knownMerge && NoMerge(s.repo) && s.row == old(s.row) && s.cp == old(s.cp)
    ensures knownMerge || Ahead(old(s.script), 0).fate != Done ==> !r.Ok?
    ensures r.Err? ==> r.failure.Conflicted? && r.failure.paths == s.cp.conflictPaths == s.repo.unmerged
    ensures r.Err? ==> (r.failure.interrupted <==> Ahead(old(s.script), 0).fate != Done || s.repo.mergeHead.None? || s.repo.unmerged == {})
    ensures r.Ok? ==> s.script == GitSession.Rest(old(s.script))
    ensures SameOperation(old(s.row), s.row) && Follows(old(s.script), s.script)
    ensures MovedBy(old(s.script), old(s.repo).remote, s.repo.remote)
    ensures Steady(old(s.script)) ==> !r.Crashed? && (r.Ok? <==> !knownMerge && NoMerge(s.repo))
  {
    var seen := s.Inspect();
    if seen.Crashed? {
      return Crashed;
    }
    if seen.Ok? && !knownMerge && s.repo.mergeHead.None? && s.repo.unmerged == {} {
      return Ok(());
    }
    var paths := s.repo.unmerged;
    s.cp := s.cp.(conflictPaths := paths);
    var saved := s.Save(StageMerging);
    if saved.Crashed? {
      return Crashed;
    }
    r := Err(Conflicted(paths, seen.Err? || s.repo.mergeHead.None? || paths == {}));
  }

  /** What mergeSyncCandidate makes of a failed merge: a conflict, unless Git left nothing behind. */
  method ReportMerge(s: Session, merged: Result<()>) returns (r: Result<()>)
    requires merged.IsFailure() && (merged.Err? ==> merged.failure.Safe?)
    modifies s`script, s`repo, s`row, s`cp, s`stages
    ensures SameLocal(old(s.repo), s.repo) && !r.Ok?
    ensures s.cp == old(s.cp).(stage := s.cp.stage, conflictPaths := s.cp.conflictPaths)
    ensures s.row == old(s.row) || s.row == Checkpointed(old(s.row), s.cp)
    ensures r.Err? && s.repo.mergeHead.Some? ==> r.failure.Conflicted? && r.failure.paths == s.repo.unmerged
    ensures r.Err? && r.failure.Conflicted? ==> r.failure.paths == s.cp.conflictPaths
    ensures r.Err? ==>
              var unread := Ahead(old(s.script), 0).fate != Done;
              merged.Err? && r.failure == if unread || !NoMerge(s.repo)
                                          then Conflicted(s.repo.unmerged, unread || s.repo.mergeHead.None? || s.repo.unmerged == {})
                                          else merged.failure
    ensures SameOperation(old(s.row), s.row) && Follows(old(s.script), s.script)
    ensures MovedBy(old(s.script), old(s.repo).remote, s.repo.remote)
    ensures Steady(old(s.script)) && !merged.Crashed? ==> !r.Crashed? && (!NoMerge(s.repo) <==> r.failure.Conflicted?)
  {
    if merged.Crashed? {
      return Crashed;
    }
    var seen := s.Inspect();
    if seen.Crashed? {
      return Crashed;
    }
    var paths := s.repo.unmerged;
    s.cp := s.cp.(conflictPaths := paths);
    if seen.Err? || s.repo.mergeHead.Some? || paths != {} {
      var saved := s.Save(StageMerging);
      if saved.Crashed? {
        return Crashed;
      }
      return Err(Conflicted(paths, seen.Err? || s.repo.mergeHead.None? || paths == {}));
    }
    return merged;
  }

  /** The merge itself, journalled before and after. */
  method MergeRelated(s: Session, head: Commit, candidate: Commit) returns (r: Result<()>)
    requires NoMerge(s.repo) && s.row.candidate == Some(candidate) && s.repo.head == Some(head) && s.cp.local == Some(head)
    requires !Unrelated(head, candidate) && !IsAncestor(candidate, head)
    requires s.repo.managed == Some(candidate) && TrustSaved(s, Some(candidate)) && s.cp.candidate == Some(candidate)
    modifies s`script, s`repo, s`row, s`cp, s`stages
    ensures s.row.candidate == Some(candidate)
    ensures s.repo.(head := old(s.repo).head, mergeHead := None, unmerged := {}, remote := old(s.repo).remote) == old(s.repo)
    ensures KeepsHistory(old(s.repo).head, s.repo.head)
    ensures TrustSaved(s, Some(candidate)) && s.cp.candidate == Some(candidate)
    ensures s.cp.push == old(s.cp).push
    ensures r.Ok? ==> s.repo.head.Some? && IsAncestor(candidate, s.repo.head.value) && NoMerge(s.repo)
    ensures s.repo.mergeHead.Some? ==> HandedOff(s.repo, s.row)
    ensures s.repo.mergeHead.None? ==> s.repo.unmerged == {}
    ensures r.Ok? ==> s.cp.local == Some(head)
    ensures r.Err? && s.repo.mergeHead.Some? ==> r.failure.Conflicted? && r.failure.paths == s.repo.unmerged
    ensures r.Err? && r.failure.Conflicted? ==> r.failure.paths == s.cp.conflictPaths
    ensures SameOperation(old(s.row), s.row) && Follows(old(s.script), s.script)
    ensures MovedBy(old(s.script), old(s.repo).remote, s.repo.remote)
    ensures Steady(old(s.script)) ==> !r.Crashed?
    ensures Steady(old(s.script)) && Clean(old(s.script)) && old(s.row).Active() ==> r.Ok?
  {
    var _ :- s.Save(StageMerging);
    var merged := s.Merge(head, candidate);
    if merged.IsFailure() {
      r := ReportMerge(s, merged);
      return;
    }
    r := s.Save(StageMerging);
  }

  /** mergeSyncCandidate: freeze the local side in the journal, then merge the trusted candidate. */
  method MergeSyncCandidate(s: Session, candidate: Commit) returns (r: Result<()>)
    requires NoMerge(s.repo) && s.row.candidate == Some(candidate)
    requires s.repo.managed == Some(candidate) && TrustSaved(s, Some(candidate)) && s.cp.candidate == Some(candidate)
    modifies s`script, s`repo, s`row, s`cp, s`stages
    ensures s.row.candidate == Some(candidate)
    ensures s.repo.(head := old(s.repo).head, mergeHead := None, unmerged := {}, remote := old(s.repo).remote) == old(s.repo)
    ensures KeepsHistory(old(s.repo).head, s.repo.head)
    ensures TrustSaved(s, Some(candidate)) && s.cp.candidate == Some(candidate)
    ensures s.cp.push == old(s.cp).push
    ensures r.Ok? ==> s.repo.head.Some? && IsAncestor(candidate, s.repo.head.value) && NoMerge(s.repo)
    ensures s.repo.mergeHead.Some? ==> HandedOff(s.repo, s.row)
    ensures s.repo.mergeHead.None? ==> s.repo.unmerged == {}
    ensures r.Ok? ==> s.cp.local == old(s.repo).head
    ensures r.Err? && s.repo.mergeHead.Some? ==> r.failure.Conflicted? && r.failure.paths == s.repo.unmerged
    ensures r.Err? && r.failure.Conflicted? ==> r.failure.paths == s.cp.conflictPaths
    ensures SameOperation(old(s.row), s.row) && Follows(old(s.script), s.script)
    ensures MovedBy(old(s.script), old(s.repo).remote, s.repo.remote)
    ensures Steady(old(s.script)) ==> !r.Crashed?
    ensures Steady(old(s.script)) && Clean(old(s.script)) && old(s.row).Active() && Mergeable(old(s.repo).head, candidate) ==> r.Ok?
  {
    var _ :- s.Inspect();
    if s.repo.head.None? {
      return Err(GitSession.Safe(CommandFailed));
    }
    var head := s.repo.head.value;
    s.cp := s.cp.(local := Some(head));
    var _ :- s.Inspect();
    if IsAncestor(candidate, head) {
      return Ok(());
    }
    var _ :- s.Inspect();
    if Unrelated(head, candidate) {
      return Err(GitSession.Safe(Interrupted));
    }
    r := MergeRelated(s, head, candidate);
  }

  /** A changed worktree, and only that, becomes a commit on HEAD. */
  method CommitWorktree(s: Session, candidate: Commit) returns (r: Result<()>, ghost dirty: bool, ghost content: nat)
    requires TrustSaved(s, Some(candidate)) && s.cp.candidate == Some(candidate) && s.row.candidate == Some(candidate)
    modifies s`script, s`repo, s`row, s`cp, s`stages
    ensures s.repo.(head := old(s.repo).head, remote := old(s.repo).remote) == old(s.repo)
    ensures KeepsHistory(old(s.repo).head, s.repo.head)
    ensures TrustSaved(s, Some(candidate)) && s.row.candidate == Some(candidate) && s.cp == old(s.cp).(stage := s.cp.stage)
    ensures r.Ok? ==> s.repo.head == if dirty then Some(CommitOn(content, old(s.repo).head)) else old(s.repo).head
    ensures r.Ok? ==> dirty == Ahead(old(s.script), 1).dirty && s.stages == old(s.stages) + if dirty then [StageSnapshotting] else []
    ensures r.Err? ==> r.failure.Safe?
    ensures SameOperation(old(s.row), s.row) && Follows(old(s.script), s.script)
    ensures MovedBy(old(s.script), old(s.repo).remote, s.repo.remote)
    ensures Steady(old(s.script)) ==> !r.Crashed? && (old(s.row).Active() ==> r.Ok?)
  {
    dirty, content := false, 0;
    var _ :- s.Inspect();
    var staged :- s.Inspect();
    dirty := staged.dirty;
    if staged.dirty {
      var _ :- s.Save(StageSnapshotting);
      content := GitSession.Head(s.script).content;
      r := s.CommitStaged();
      return;
    }
    r := Ok(());
  }

  /** The local side as the run found it is journalled once. */
  method RecordLocal(s: Session) returns (r: Result<()>)
    modifies s`script, s`repo, s`row, s`cp, s`stages
    ensures SameLocal(old(s.repo), s.repo)
    ensures s.cp == old(s.cp).(stage := s.cp.stage, local := s.cp.local)
    ensures s.row == old(s.row) || s.row == Checkpointed(old(s.row), s.cp)
    ensures r.Ok? ==> s.cp.local == if old(s.cp).local.Some? then old(s.cp).local else old(s.repo).head
    ensures r.Ok? ==> s.script == GitSession.Rest(GitSession.Rest(GitSession.Rest(old(s.script)))) && s.stages == old(s.stages) + [StageSnapshotting]
    ensures r.Err? ==> r.failure.Safe?
    ensures SameOperation(old(s.row), s.row) && Follows(old(s.script), s.script)
    ensures MovedBy(old(s.script), old(s.repo).remote, s.repo.remote)
    ensures Steady(old(s.script)) ==> !r.Crashed? && (old(s.row).Active() ==> r.Ok?)
  {
    var _ :- s.Inspect();
    var _ :- s.Inspect();
    if s.cp.local.None? {
      s.cp := s.cp.(local := s.repo.head);
    }
    r := s.Save(StageSnapshotting);
  }

  /** The local half of the callback of runSyncWorktree. */
  method TakeSnapshot(s: Session, candidate: Commit) returns (r: Result<()>, ghost dirty: bool, ghost content: nat)
    requires TrustSaved(s, Some(candidate)) && s.cp.candidate == Some(candidate) && s.row.candidate == Some(candidate)
    modifies s`script, s`repo, s`row, s`cp, s`stages
    ensures s.repo.(head := old(s.repo).head, remote := old(s.repo).remote) == old(s.repo)
    ensures KeepsHistory(old(s.repo).head, s.repo.head)
    ensures TrustSaved(s, Some(candidate)) && s.cp.candidate == Some(candidate) && s.row.candidate == Some(candidate)
    ensures r.Ok? ==> NoMerge(s.repo)
    ensures r.Ok? ==> s.repo.head == if dirty then Some(CommitOn(content, old(s.repo).head)) else old(s.repo).head
    ensures r.Ok? ==> dirty == Ahead(old(s.script), 5).dirty
    ensures r.Err? && r.failure.Conflicted? ==> r.failure.paths == s.cp.conflictPaths
    ensures r.Ok? ==> s.cp.local == if old(s.cp).local.Some? then old(s.cp).local else old(s.repo).head
    ensures SameOperation(old(s.row), s.row) && Follows(old(s.script), s.script)
    ensures MovedBy(old(s.script), old(s.repo).remote, s.repo.remote)
    ensures Steady(old(s.script)) ==> !r.Crashed?
    ensures Steady(old(s.script)) && old(s.row).Active() ==> (r.Ok? <==> NoMerge(old(s.repo)))
  {
    dirty, content := false, 0;
    var _ :- PreAddMergeState(s, false);
    var _ :- RecordLocal(s);
    r, dirty, content := CommitWorktree(s, candidate);
  }

  /** HEAD, as it is after the merge, becomes the commit to push. */
  method RecordPush(s: Session, candidate: Commit) returns (r: Result<Commit>, pass: Oid)
    requires s.repo.head.Some? && TrustSaved(s, Some(candidate)) && s.cp.candidate == Some(candidate) && s.row.candidate == Some(candidate)
    modifies s`script, s`repo, s`row, s`cp, s`stages
    ensures SameLocal(old(s.repo), s.repo)
    ensures TrustSaved(s, Some(candidate)) && s.cp.candidate == Some(candidate) && s.row.candidate == Some(candidate)
    ensures r.Ok? ==> s.repo.head == Some(r.value) && s.cp.push == Some(r.value) && s.row.push == Some(r.value) && pass == Some(r.value)
    ensures s.cp == old(s.cp).(stage := s.cp.stage, push := s.cp.push, changedPaths := s.cp.changedPaths)
    ensures r.Ok? ==> s.row.changedPaths == s.cp.changedPaths == old(s.cp).changedPaths + Ahead(old(s.script), 1).paths
    ensures r.Err? ==> r.failure.Safe?
    ensures s.row.local == old(s.row).local || s.row.local == s.cp.local == old(s.cp).local
    ensures SameOperation(old(s.row), s.row) && Follows(old(s.script), s.script)
    ensures MovedBy(old(s.script), old(s.repo).remote, s.repo.remote)
    ensures Steady(old(s.script)) ==> !r.Crashed? && (old(s.row).Active() ==> r.Ok?)
  {
    pass := None;
    var _ :- s.Inspect();
    var pushed := s.repo.head.value;
    pass := Some(pushed);
    var changed :- s.Inspect();
    s.cp := s.cp.(push := Some(pushed), changedPaths := s.cp.changedPaths + changed.paths);
    var _ :- s.Save(StageReindexing);
    r := Ok(pushed);
  }

  /** The callback of runSyncWorktree. */
  method SnapshotAndMerge(s: Session, candidate: Commit, ghost start: Repository) returns (r: Result<Commit>, pass: Oid)
    requires Safe(start, s.repo, s.effects)
    requires s.repo.managed == Some(candidate) && TrustSaved(s, Some(candidate)) && s.cp.candidate == Some(candidate)
    requires s.row.candidate == Some(candidate)
    modifies s`script, s`repo, s`row, s`cp, s`stages
    ensures Safe(start, s.repo, s.effects)
    ensures s.repo.managed == Some(candidate) && TrustSaved(s, Some(candidate)) && s.cp.candidate == Some(candidate)
    ensures s.row.candidate == Some(candidate)
    ensures r.Ok? ==> s.repo.head == Some(r.value) && IsAncestor(candidate, r.value) && NoMerge(s.repo)
    ensures r.Ok? ==> s.cp.push == Some(r.value) && s.row.push == Some(r.value) && pass == Some(r.value)
    ensures old(NoMerge(s.repo)) && s.repo.mergeHead.Some? ==> HandedOff(s.repo, s.row)
    ensures r.Err? && r.failure.Conflicted? ==> r.failure.paths == s.cp.conflictPaths
    ensures SameOperation(old(s.row), s.row) && Follows(old(s.script), s.script)
    ensures MovedBy(old(s.script), old(s.repo).remote, s.repo.remote)
    ensures Steady(old(s.script)) ==> !r.Crashed?
    ensures Steady(old(s.script)) && Clean(old(s.script)) && old(s.row.Active() && NoMerge(s.repo) && Mergeable(s.repo.head, candidate)) ==>
              r.Ok?
  {
    pass := None;
    var taken, _, _ := TakeSnapshot(s, candidate);
    if taken.IsFailure() {
      return taken.PropagateFailure(), pass;
    }
    var _ :- MergeSyncCandidate(s, candidate);
    r, pass := RecordPush(s, candidate);
  }

  /** runSyncWorktree: the worktree transaction may fail before the callback or after it. `pass` is the
      push id the pass has by then. */
  method RunSyncWorktree(s: Session, candidate: Commit, ghost start: Repository) returns (r: Result<Commit>, pass: Oid)
    requires Safe(start, s.repo, s.effects)
    requires s.repo.managed == Some(candidate) && TrustSaved(s, Some(candidate)) && s.cp.candidate == Some(candidate)
    requires s.row.candidate == Some(candidate)
    modifies s`script, s`repo, s`row, s`cp, s`stages
    ensures Safe(start, s.repo, s.effects)
    ensures s.repo.managed == Some(candidate) && TrustSaved(s, Some(candidate)) && s.cp.candidate == Some(candidate)
    ensures s.row.candidate == Some(candidate)
    ensures r.Ok? ==> s.repo.head == Some(r.value) && IsAncestor(candidate, r.value) && NoMerge(s.repo)
    ensures r.Ok? ==> s.cp.push == Some(r.value) && s.row.push == Some(r.value) && pass == Some(r.value)
    ensures old(NoMerge(s.repo)) && s.repo.mergeHead.Some? ==> HandedOff(s.repo, s.row)
    ensures r.Err? && r.failure.Conflicted? ==> r.failure.paths == s.cp.conflictPaths
    ensures SameOperation(old(s.row), s.row) && Follows(old(s.script), s.script)
    ensures MovedBy(old(s.script), old(s.repo).remote, s.repo.remote)
    ensures Steady(old(s.script)) ==> !r.Crashed?
    ensures Steady(old(s.script)) && Clean(old(s.script)) && old(s.row.Active() && NoMerge(s.repo) && Mergeable(s.repo.head, candidate)) ==>
              r.Ok?
  {
    pass := None;
    var _ :- s.Inspect();
    r, pass := SnapshotAndMerge(s, candidate, start);
    if r.Ok? {
      var _ :- s.Inspect();
    } else if r.Err? && r.failure.Conflicted? {
      s.cp := s.cp.(conflictPaths := r.failure.paths);
    }
  }

  /** prePushSyncCheck: HEAD and trust are as this pass left them; answers the remote's present commit. */
  method PrePushSyncCheck(s: Session, candidate: Commit, pushed: Commit) returns (r: Result<Commit>)
    modifies s`script, s`repo, s`seen
    ensures SameLocal(old(s.repo), s.repo)
    ensures r.Ok? ==> s.repo.head == Some(pushed) && s.repo.managed == Some(candidate) && s.seen == Some(r.value) == s.repo.remote
    ensures Follows(old(s.script), s.script)
    ensures MovedBy(old(s.script), old(s.repo).remote, s.repo.remote)
    ensures Steady(old(s.script)) ==>
              !r.Crashed? && (r.Ok? <==> s.repo.head == Some(pushed) && s.repo.managed == Some(candidate) && s.repo.remote.Some?)
  {
    var _ :- s.Inspect();
    var _ :- s.Inspect();
    if s.repo.head != Some(pushed) {
      return Err(GitSession.Safe(Interrupted));
    }
    var _ :- RequireSyncTrust(s, Some(candidate));
    r := s.ReadRemote();
  }

  /** completeSyncPush: trust moves to what the remote accepted. */
  method CompleteSyncPush(s: Session, candidate: Commit, pushed: Commit, ghost start: Repository) returns (r: Result<()>)
    requires Safe(start, s.repo, s.effects)
    requires s.repo.managed == Some(candidate) && s.repo.head == Some(pushed) && IsAncestor(candidate, pushed)
    requires s.row.stage == StagePushing && s.row.push == Some(pushed) && s.row.candidate == Some(candidate)
    requires TrustSaved(s, Some(candidate))
    requires s.effects != [] && s.effects[|s.effects| - 1].Push? && s.effects[|s.effects| - 1].accepted
    requires s.effects[|s.effects| - 1].oid == pushed
    modifies s`script, s`repo, s`row, s`cp, s`stages, s`effects, s`seen
    ensures Safe(start, s.repo, s.effects) && Recoverable(s.row, s.repo)
    ensures s.repo.(managed := old(s.repo).managed, remote := old(s.repo).remote) == old(s.repo)
    ensures Pushes(s.effects) == Pushes(old(s.effects))
    ensures r.Ok? ==> s.repo.managed == Some(pushed) && s.row.stage == StageCompleted
                      && s.row.remote == Some(pushed) && s.row.push == Some(pushed)
    ensures s.effects != [] && (s.effects[|s.effects| - 1].Trust? || s.effects == old(s.effects))
    ensures r.Ok? ==> AcceptedLast(s.effects, pushed) && s.stages == old(s.stages) + [StageCompleted]
    ensures SameOperation(old(s.row), s.row) && Follows(old(s.script), s.script)
    ensures Steady(old(s.script)) && old(s.row).Active() ==> r.Ok?
  {
    AncestorHistory(candidate, pushed);
    var _ :- s.SwapTrust(pushed, Some(candidate));
    s.cp := s.cp.(remote := Some(pushed), push := Some(pushed));
    r := s.Save(StageCompleted);
  }

  /** The run ended by the remote accepting `oid`, after which nothing but trust moved. */
  ghost predicate AcceptedLast(effects: seq<Effect>, oid: Commit) {
    exists i :: 0 <= i < |effects| && effects[i].Push? && effects[i].accepted && effects[i].oid == oid
                && forall j :: i < j < |effects| ==> !effects[j].Push?
  }

  datatype Outcome = Outcome(remote: Oid, push: Oid)

  /** The remote has just refused a push. */
  ghost predicate Refused(effects: seq<Effect>, earlier: seq<Effect>) {
    |effects| > |earlier| && effects[|effects| - 1].Push? && !effects[|effects| - 1].accepted
  }

  /** The push itself, of a commit that descends from what the remote branch was found at. True when the remote accepted
      it, false when it was refused and there is another pass. */
  method Send(s: Session, candidate: Commit, pushed: Commit, retry: bool, ghost start: Repository, ghost moved: Commit)
    returns (r: Result<bool>)
    requires Safe(start, s.repo, s.effects)
    requires s.repo.managed == Some(candidate) && TrustSaved(s, Some(candidate))
    requires s.cp.candidate == Some(candidate) && s.cp.push == Some(pushed)
    requires s.row.candidate == Some(candidate) && s.row.push == Some(pushed) && s.row.stage == StagePushing
    requires s.repo.head == Some(pushed) && IsAncestor(candidate, pushed) && s.seen == Some(candidate)
    modifies s`script, s`repo, s`row, s`cp, s`stages, s`effects
    ensures Safe(start, s.repo, s.effects)
    ensures SameLocal(old(s.repo), s.repo) && TrustSaved(s, Some(candidate))
    ensures Pushes(s.effects) <= Pushes(old(s.effects)) + 1
    ensures r.Ok? && !r.value ==> retry
    ensures r.Ok? ==> s.stages == old(s.stages) + if r.value then [StagePushing] else []
    ensures r.Ok? && r.value ==> s.row.stage == StagePushing && s.row.push == Some(pushed) && s.row.candidate == Some(candidate)
                                 && s.effects != [] && s.effects[|s.effects| - 1].Push?
                                 && s.effects[|s.effects| - 1].accepted && s.effects[|s.effects| - 1].oid == pushed
    ensures SameOperation(old(s.row), s.row) && Follows(old(s.script), s.script)
    ensures Calm(old(s.script)) && old(s.row).Active() && old(s.repo).remote == Some(candidate) ==> r == Ok(true)
    ensures Steady(old(s.script)) && old(s.row).Active() && Refused(s.effects, old(s.effects)) ==>
              r == if retry then Ok(false) else Err(GitSession.Safe(PushRejected))
    ensures r == Ok(false) && Honest(old(s.script)) ==> Pushes(s.effects) > Pushes(old(s.effects)) && Refused(s.effects, old(s.effects))
    ensures Settles(old(s.script), moved) && old(s.repo).remote == Some(candidate) && old(s.row).Active() && (retry || candidate == moved) ==>
              r.Ok? && (candidate == moved ==> r.value) && (!r.value ==> s.repo.remote == Some(moved))
  {
    var sent := s.PushBranch(pushed);
    if sent.Crashed? {
      return Crashed;
    }
    if sent.Err? {
      return if retry && sent.failure == GitSession.Safe(PushRejected) then Ok(false) else Err(sent.failure);
    }
    var _ :- s.Save(StagePushing);
    r := Ok(true);
  }

  /** The push of one pass. True when the remote accepted it, false when the pass may be repeated. */
  method PushPass(s: Session, candidate: Commit, pushed: Commit, retry: bool, ghost start: Repository, ghost moved: Commit)
    returns (r: Result<bool>)
    requires Safe(start, s.repo, s.effects)
    requires s.repo.managed == Some(candidate) && TrustSaved(s, Some(candidate))
    requires s.cp.candidate == Some(candidate) && s.cp.push == Some(pushed)
    requires s.row.candidate == Some(candidate) && s.row.push == Some(pushed)
    requires s.repo.head == Some(pushed) && IsAncestor(candidate, pushed)
    modifies s`script, s`repo, s`row, s`cp, s`stages, s`effects, s`seen
    ensures Safe(start, s.repo, s.effects)
    ensures SameLocal(old(s.repo), s.repo) && TrustSaved(s, Some(candidate))
    ensures Pushes(s.effects) <= Pushes(old(s.effects)) + 1
    ensures r.Ok? && !r.value ==> retry
    ensures r.Ok? ==> s.stages == old(s.stages) + if r.value then [StagePushing, StagePushing] else [StagePushing]
    ensures r.Ok? && r.value ==> s.row.stage == StagePushing && s.row.push == Some(pushed) && s.row.candidate == Some(candidate)
                                 && s.effects != [] && s.effects[|s.effects| - 1].Push?
                                 && s.effects[|s.effects| - 1].accepted && s.effects[|s.effects| - 1].oid == pushed
    ensures SameOperation(old(s.row), s.row) && Follows(old(s.script), s.script)
    ensures Calm(old(s.script)) && old(s.row).Active() && old(s.repo).remote.Some? ==>
              r == if old(s.repo).remote == Some(candidate) then Ok(true)
                   else if retry then Ok(false) else Err(GitSession.Safe(PushRejected))
    // if every command works, what the remote refuses is taken up again in a second pass, and only there is one
    ensures Steady(old(s.script)) && old(s.row).Active() && Refused(s.effects, old(s.effects)) ==>
              r == if retry then Ok(false) else Err(GitSession.Safe(PushRejected))
    // nothing but a moved branch or a refusal is
    ensures r == Ok(false) && Honest(old(s.script)) ==>
              if Pushes(s.effects) == Pushes(old(s.effects)) then s.seen.Some? && s.seen != Some(candidate)
              else Refused(s.effects, old(s.effects))
    ensures Settles(old(s.script), moved) && old(s.repo).remote in {Some(candidate), Some(moved)} && old(s.row).Active()
            && (retry || candidate == moved) ==>
              r.Ok? && (candidate == moved ==> r.value) && (!r.value ==> s.repo.remote == Some(moved))
  {
    var _ :- s.Save(StagePushing);
    var remote :- PrePushSyncCheck(s, candidate, pushed);
    if remote != candidate {
      return if retry then Ok(false) else Err(GitSession.Safe(PushRejected));
    }
    r := Send(s, candidate, pushed, retry, start, moved);
  }

  /** The checkpoint and the count of commits ahead and behind, between the worktree and the push. */
  method BeforePush(s: Session) returns (r: Result<()>)
    modifies s`script, s`repo, s`row, s`cp, s`stages
    ensures SameLocal(old(s.repo), s.repo)
    ensures r.Ok? ==> s.stages == old(s.stages) + [StageReindexing]
    ensures s.cp == old(s.cp).(stage := s.cp.stage) && (s.row == old(s.row) || s.row == Checkpointed(old(s.row), s.cp))
    ensures SameOperation(old(s.row), s.row) && Follows(old(s.script), s.script)
    ensures MovedBy(old(s.script), old(s.repo).remote, s.repo.remote)
    ensures Steady(old(s.script)) ==> !r.Crashed? && (r.Ok? <==> old(s.row).Active())
  {
    var _ :- s.Save(StageReindexing);
    var _ :- s.Inspect();
    r := Ok(());
  }

  const PUBLISH_STAGES: seq<Stage> := [StageReindexing, StagePushing, StagePushing, StageCompleted]

  lemma PublishStages(before: seq<Stage>)
    ensures before + [StageReindexing] + [StagePushing] == before + PUBLISH_STAGES[..2]
    ensures before + [StageReindexing] + [StagePushing, StagePushing] + [StageCompleted] == before + PUBLISH_STAGES
  {
    assert [StageReindexing] + [StagePushing] == PUBLISH_STAGES[..2];
    assert [StageReindexing] + [StagePushing, StagePushing] + [StageCompleted] == PUBLISH_STAGES;
  }

  /** The second half of a pass: push, then trust what was accepted. False asks for the second pass. */
  method PublishPass(s: Session, candidate: Commit, pushed: Commit, retry: bool, ghost start: Repository, ghost moved: Commit)
    returns (r: Result<bool>)
    requires Safe(start, s.repo, s.effects)
    requires s.repo.managed == Some(candidate) && TrustSaved(s, Some(candidate))
    requires s.cp.candidate == Some(candidate) && s.cp.push == Some(pushed)
    requires s.row.candidate == Some(candidate) && s.row.push == Some(pushed)
    requires s.repo.head == Some(pushed) && IsAncestor(candidate, pushed)
    modifies s`script, s`repo, s`row, s`cp, s`stages, s`effects, s`seen
    ensures Safe(start, s.repo, s.effects) && Recoverable(s.row, s.repo)
    ensures s.repo.(managed := old(s.repo).managed, remote := old(s.repo).remote) == old(s.repo)
    ensures Pushes(s.effects) <= Pushes(old(s.effects)) + 1
    ensures r.Ok? && !r.value ==> retry && s.repo.managed == Some(candidate) && TrustSaved(s, Some(candidate))
    ensures r.Ok? && r.value ==> Completed(s, pushed)
    // the stages this pass has come to, in the order in which recovery knows them
    ensures r.Ok? ==> s.stages == old(s.stages) + if r.value then PUBLISH_STAGES else PUBLISH_STAGES[..2]
    ensures SameOperation(old(s.row), s.row) && Follows(old(s.script), s.script)
    ensures Calm(old(s.script)) && old(s.row).Active() && old(s.repo).remote.Some? ==>
              r == if old(s.repo).remote == Some(candidate) then Ok(true)
                   else if retry then Ok(false) else Err(GitSession.Safe(PushRejected))
    // if every command works, what the remote refuses is taken up again in a second pass, and only there is one
    ensures Steady(old(s.script)) && old(s.row).Active() && Refused(s.effects, old(s.effects)) ==>
              r == if retry then Ok(false) else Err(GitSession.Safe(PushRejected))
    // nothing but a moved branch or a refusal is
    ensures r == Ok(false) && Honest(old(s.script)) ==>
              if Pushes(s.effects) == Pushes(old(s.effects)) then s.seen.Some? && s.seen != Some(candidate)
              else Refused(s.effects, old(s.effects))
    ensures Settles(old(s.script), moved) && old(s.repo).remote in {Some(candidate), Some(moved)} && old(s.row).Active()
            && (retry || candidate == moved) ==>
              r.Ok? && (candidate == moved ==> r.value) && (!r.value ==> s.repo.remote == Some(moved))
  {
    PublishStages(s.stages);
    var _ :- BeforePush(s);
    var accepted :- PushPass(s, candidate, pushed, retry, start, moved);
    if !accepted {
      return Ok(false);
    }
    var _ :- CompleteSyncPush(s, candidate, pushed, start);
    r := Ok(true);
  }

  /** Every command works, other clients move the remote branch to this descendant at most, and the local side, the
      trusted remote and the remote branch fit together. */
  ghost predicate Settling(script: seq<Tick>, row: Operation, repo: Repository, trusted: Oid, moved: Commit) {
    && Settles(script, moved) && Clean(script) && row.Active() && NoMerge(repo)
    && repo.managed == trusted && Descends(repo.remote, trusted) && IsAncestor(repo.remote.value, moved)
    && Mergeable(repo.head, repo.remote.value)
  }

  /** Nobody moves the branch at all. */
  ghost predicate Undisturbed(script: seq<Tick>, row: Operation, repo: Repository, trusted: Oid) {
    Calm(script) && repo.remote.Some? && Settling(script, row, repo, trusted, repo.remote.value)
  }

  /** What merges with a commit merges with every descendant of it. */
  lemma DescendantMerges(head: Oid, older: Commit, newer: Commit)
    requires Mergeable(head, older) && IsAncestor(older, newer)
    ensures Mergeable(head, newer)
  {
    AncestorHistory(older, newer);
    var c :| c in History(head.value) && c in History(older);
    assert c in History(head.value) * History(newer);
  }

  /** A move of the remote branch leaves all this as it is. */
  lemma SettlesOn(script: seq<Tick>, row: Operation, repo: Repository, trusted: Oid, moved: Commit, rest: seq<Tick>, later: Operation, now: Repository)
    requires Settling(script, row, repo, trusted, moved) && Follows(script, rest) && later.Active()
    requires SameLocal(repo, now) && MovedBy(script, repo.remote, now.remote)
    ensures Settling(rest, later, now, trusted, moved)
  {
    DescendantMerges(repo.head, repo.remote.value, moved);
    AncestorHistory(repo.remote.value, moved);
  }

  /** One pass of Sync's loop. None asks for the second pass. */
  method SyncPass(s: Session, trusted: Oid, retry: bool, previous: Outcome, ghost start: Repository, ghost moved: Commit)
    returns (r: Result<Option<Commit>>, latest: Outcome, candidate: Oid)
    requires Safe(start, s.repo, s.effects)
    modifies s`script, s`repo, s`row, s`cp, s`stages, s`effects, s`seen
    ensures Safe(start, s.repo, s.effects)
    ensures Pushes(s.effects) <= Pushes(old(s.effects)) + 1
    ensures old(TrustSaved(s, trusted)) && old(Recoverable(s.row, s.repo)) ==> Recoverable(s.row, s.repo)
    ensures r.Ok? && r.value.None? ==> retry && candidate.Some? && s.repo.managed == candidate && TrustSaved(s, candidate)
    ensures r.Ok? && r.value.Some? ==> Completed(s, r.value.value) && latest == Outcome(r.value, r.value)
    ensures r.Ok? && old(NoMerge(s.repo)) ==> NoMerge(s.repo)
    ensures old(NoMerge(s.repo)) && s.repo.mergeHead.Some? ==> HandedOff(s.repo, s.row)
    ensures candidate.None? ==> latest == previous
    ensures candidate.Some? && !(r.Ok? && r.value.Some?) ==> latest.remote == candidate
    ensures SameOperation(old(s.row), s.row)
    ensures old(Settling(s.script, s.row, s.repo, trusted, moved)) && (retry || old(s.repo).remote == Some(moved)) ==>
              r.Ok? && (old(s.repo).remote == Some(moved) ==> r.value.Some?)
              && (r.value.None? ==> Settling(s.script, s.row, s.repo, candidate, moved) && s.repo.remote == Some(moved))
  {
    latest, candidate := previous, None;
    if Settling(s.script, s.row, s.repo, trusted, moved) {
      AncestorHistory(s.repo.remote.value, moved);
    }
    var fetched :- FetchSyncCandidate(s, trusted, start, moved);
    if old(Settling(s.script, s.row, s.repo, trusted, moved)) {
      DescendantMerges(s.repo.head, old(s.repo).remote.value, fetched);
    }
    candidate := Some(fetched);
    var worked, pass := RunSyncWorktree(s, fetched, start);
    latest := Outcome(candidate, pass);
    if worked.IsFailure() {
      return worked.PropagateFailure(), latest, candidate;
    }
    var pushed := worked.value;
    var published :- PublishPass(s, fetched, pushed, retry, start, moved);
    if !published {
      return Ok(None), latest, candidate;
    }
    return Ok(Some(pushed)), Outcome(Some(pushed), Some(pushed)), candidate;
  }

  /** The run ended with `oid` at HEAD, accepted by the remote, trusted, and journalled as such. */
  ghost predicate Completed(s: Session, oid: Commit)
    reads s
  {
    && s.repo.head == Some(oid) && s.repo.managed == Some(oid)
    && s.row.push == Some(oid) && s.row.remote == Some(oid) && s.row.stage == StageCompleted
    && AcceptedLast(s.effects, oid)
  }

  /** Service.Sync. */
  method Sync(s: Session, lastRemote: Oid) returns (r: Result<()>, latest: Outcome)
    modifies s
    // nothing is lost on any exit: success, failure or crash
    ensures Safe(old(s.repo), s.repo, s.effects)
    ensures Pushes(s.effects) <= 2
    // recovery names the managed ref at every crash point and after every failure
    ensures lastRemote.Some? && old(s.row).remote == lastRemote && old(Recoverable(s.row, s.repo)) ==> Recoverable(s.row, s.repo)
    // a managed ref that is not the trusted one stops the run before it touches anything local
    ensures old(s.repo).managed != lastRemote ==> !r.Ok? && SameLocal(old(s.repo), s.repo) && s.effects == []
    // success is acceptance: the journalled push, HEAD and trust are what the remote took last
    ensures r.Ok? ==> latest.push.Some? && latest.remote == latest.push && Completed(s, latest.push.value)
    // an undisturbed run succeeds, and so does one during which another client moves the branch on
    ensures old(Undisturbed(s.script, s.row, s.repo, lastRemote)) ==> r.Ok?
    ensures (exists moved :: old(Settling(s.script, s.row, s.repo, lastRemote, moved))) ==> r.Ok?
    // a merge that was there before is reported as it is
    ensures old(s.repo).mergeHead.Some? && r.Err? && r.failure.Conflicted? ==>
              latest == Outcome(lastRemote, None) && r.failure.paths == s.repo.unmerged
    // a merge this run started is described by the row
    ensures old(NoMerge(s.repo)) && s.repo.mergeHead.Some? ==> HandedOff(s.repo, s.row)
    ensures SameOperation(old(s.row), s.row)
  {
    latest := Outcome(None, None);
    s.effects := [];
    s.cp := CheckpointOf(s.row);
    ghost var start := s.repo;
    ghost var moved :| (exists oid :: Settling(s.script, s.row, s.repo, lastRemote, oid)) ==> Settling(s.script, s.row, s.repo, lastRemote, moved);
    var preExisting :- PreflightSync(s, lastRemote);
    if preExisting {
      latest := Outcome(lastRemote, None);
      r := PreAddMergeState(s, true);
      return;
    }
    if old(Settling(s.script, s.row, s.repo, lastRemote, moved)) {
      SettlesOn(old(s.script), old(s.row), old(s.repo), lastRemote, moved, s.script, s.row, s.repo);
    }
    var trusted := lastRemote;
    for attempt := 0 to 2
      invariant start.managed == lastRemote && SameOperation(old(s.row), s.row)
      invariant Safe(start, s.repo, s.effects) && Pushes(s.effects) <= attempt
      invariant lastRemote.Some? && old(s.row).remote == lastRemote && old(Recoverable(s.row, s.repo)) ==>
                  TrustSaved(s, trusted) && Recoverable(s.row, s.repo)
      invariant NoMerge(start) ==> NoMerge(s.repo)
      invariant old(Settling(s.script, s.row, s.repo, lastRemote, moved)) ==>
                  attempt <= 1 && Settling(s.script, s.row, s.repo, trusted, moved) && (attempt == 1 ==> s.repo.remote == Some(moved))
    {
      var pass, passLatest, candidate := SyncPass(s, trusted, attempt == 0, latest, start, moved);
      latest := passLatest;
      if pass.IsFailure() {
        return pass.PropagateFailure(), latest;
      }
      if pass.value.Some? {
        return Ok(()), latest;
      }
      trusted := candidate;
    }
    return Err(GitSession.Safe(PushRejected)), latest;
  }
}
