/** A process that dies during an operation, and the restart after it: what the records say in the end. */
module Restart {
  import opened Basics
  import opened CommitGraph
  import opened Journal
  import opened GitSession
  import opened Recovery
  import opened Sync
  import opened Completion
  import opened Statuses
  import M = ManagerState
  import opened ManagerRecovery

  /** A Sync that stops anywhere, and a restart that reports no error: journal, status row and managed ref
      name the same trusted remote, it descends from the one trusted before, no commit of HEAD is lost, a merge
      in progress gates the base, and the next Sync is admitted with exactly that remote. With working storage the
      restart reports no error. */
  method SyncThenRestart(s: Session, lastRemote: Oid, m: RestartedManager, facts: Facts, w: Storage) returns (ok: bool)
    requires s.row.kind == Journal.Sync && M.SameIdentity(s.row, facts.current)
    requires lastRemote.Some? && s.row.remote == lastRemote && s.repo.managed == lastRemote
    requires StatusInConflict(M.RowOf(m.statuses, facts.current.repoPath)) ==> m.statuses[facts.current.repoPath].operationId == s.row.id
    requires RefsReadable(facts.seen)
    modifies s, m
    ensures KeepsHistory(old(s.repo).head, s.repo.head) && KeepsHistory(lastRemote, s.repo.managed)
    ensures Works(w) && old(s.row).Active() ==> ok
    ensures ok ==>
              var path := facts.current.repoPath;
              && TrustAgrees(m.rows, m.statuses, s.row.id, path, s.repo)
              && AdmissionTrust(Journal.Sync, facts.current, Some(m.statuses[path]), Some(m.rows[s.row.id])) == Some(s.repo.managed)
              && (!NoMerge(s.repo) ==> path in m.gates)
  {
    var _, _ := Sync.Sync(s, lastRemote);
    var row := s.row;
    m.rows := m.rows[row.id := row];
    var original := if StatusInConflict(M.RowOf(m.statuses, facts.current.repoPath)) then Some(row) else facts.original;
    ok := m.RecoverBase(facts.(latest := Some(row), original := original), Some(row), s.repo, w);
    if ok {
      AgreementAdmits(m.rows, m.statuses, row, facts.current, s.repo);
    }
  }

  /** A completion that stops anywhere, and a restart that reports no error: the base is ready exactly if the
      remote accepted the merge and trust followed it; in every other case the status says otherwise. */
  method CompleteThenRestart(s: Session, op: Operation, m: RestartedManager, facts: Facts, w: Storage) returns (ok: bool)
    requires op == s.row && op.kind == ConflictComplete && M.SameIdentity(op, facts.current)
    requires OidsMatch(op, s.repo) && s.repo.unmerged == {}
    modifies s, m
    ensures Works(w) && op.Active() ==> ok
    ensures ok ==>
              var path := facts.current.repoPath;
              && path in m.statuses
              && (m.statuses[path].state == StatusReady <==> PushTrusted(old(s.repo), op, s))
              && (path in m.gates <==> m.statuses[path].state == StatusConflict || m.statuses[path].state == StatusNeedsReconnect)
              && (PushTrusted(old(s.repo), op, s) ==> PushAccepted(s.effects, s.repo.head))
  {
    var _ := CompleteConflict(s, op);
    var row := s.row;
    LabelsAreSound(old(s.repo), op, s);
    m.rows := m.rows[row.id := row];
    ok := m.RecoverBase(facts.(seen := HealthyInspection(s.repo)), Some(row), s.repo, w);
  }
}
