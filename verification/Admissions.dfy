/** When an admission queues a job, and what it leaves: the journal row, the status row, the job. */
module Admissions {
  import opened Basics
  import opened CommitGraph
  import opened Journal
  import opened Statuses
  import opened ManagerState
  import opened ManagerSafety
  import opened ManagerRuns

  /** The base can take a new operation, and this is one it may start: a Sync not while it has to be reconnected, and
      while it is paused nothing but a resumption, which is for nothing else. */
  ghost predicate Open(s: ManagerState, path: Path, a: Admission) {
    && a.readable && !s.closed && path !in s.inFlight && a.active.None? && a.trust.Some?
    && (a.kind == Sync && path in s.statuses ==> s.statuses[path].state != StatusNeedsReconnect)
    && (a.resume <==> path in s.statuses && s.statuses[path].state == StatusPaused)
  }

  /** The statements an admission needs are stored: for a resumption the reset, then the row, then the status. */
  ghost predicate Stores(s: ManagerState, path: Path, a: Admission) {
    && (a.resume ==> a.resumed.readable && a.resumed.applied)
    && a.created && a.id !in s.rows
    && a.published.readable && a.published.applied && (path in s.statuses || a.published.seeded)
  }

  /** A queued row that knows nothing yet but the remote it may trust. */
  ghost predicate NewRow(op: Operation, current: Identity, a: Admission) {
    && op.id == a.id && op.identity == current && op.kind == a.kind && op.state == State.Queued && op.stage == StageQueued
    && a.trust == Some(op.remote) && op.local.None? && op.candidate.None? && op.push.None? && op.backupRef == ""
    && op.changedPaths == {} && op.conflictPaths == {}
  }

  /** The status of a job that waits, over what was there: the counter stays, unless the base was resumed. */
  ghost predicate Waiting(status: Status, op: Operation, before: Option<Status>, resumed: bool) {
    && status.base == op.identity.baseName && status.path == op.identity.repoPath
    && status.state == (if op.kind == Initialize then StatusInitializing else StatusSyncing)
    && status.operationId == op.id && status.stage == Some(StageQueued) && status.error.None? && status.remote == op.remote
    && (before.None? ==> status.failures == 0 && status.lastAttempt.None? && status.lastSuccess.None? && status.changedPaths == {})
    && (before.Some? ==> status.failures == (if resumed then 0 else before.value.failures)
                         && status.lastAttempt == before.value.lastAttempt && status.lastSuccess == before.value.lastSuccess
                         && status.changedPaths == before.value.changedPaths)
  }

  /** The job is the last of the queue, its operation journalled, in flight and shown; nothing else has changed. */
  ghost predicate JoinsQueue(s: ManagerState, t: ManagerState, current: Identity, a: Admission) {
    && |t.queue| == |s.queue| + 1 && t.queue[..|s.queue|] == s.queue
    && var job := t.queue[|s.queue|];
       && job.GitJob? && job.ticket == s.issued && t.issued == s.issued + 1 && job.snapshot == current
       && NewRow(job.operation, current, a)
       && a.id in t.rows && t.rows[a.id] == job.operation && t.rows - {a.id} == s.rows
       && current.repoPath in t.inFlight && t.inFlight[current.repoPath] == job.operation
       && t.inFlight - {current.repoPath} == s.inFlight
       && current.repoPath in t.statuses && Waiting(t.statuses[current.repoPath], job.operation, RowOf(s.statuses, current.repoPath), a.resume)
       && t.statuses - {current.repoPath} == s.statuses - {current.repoPath}
       && t.served == s.served && t.closed == s.closed && t.holder == Free
  }

  lemma DurableQueues(s: ManagerState, current: Identity, a: Admission, row: Option<Status>)
    requires a.trust.Some? && a.created && a.id !in s.rows && forall id :: !ActiveFor(s.rows, id, current.repoPath)
    requires a.published.readable && a.published.applied && (current.repoPath in s.statuses || a.published.seeded)
    requires row.Some? <==> current.repoPath in s.statuses
    requires row.Some? ==> row.value == s.statuses[current.repoPath].(failures := row.value.failures)
    requires s.holder == Free && current.repoPath !in s.inFlight && (a.kind == Sync || a.kind == Initialize)
    ensures var op := NewOperation(a.id, current, a.kind, a.trust.value);
            Queues(s, op, WorkingStatus(op, row), a.created, a.published)
            && JoinsQueue(s, Durable(s, op, current, WorkingStatus(op, row), a.created, a.published, a.compensated), current, a.(resume := false))
  {
    var op := NewOperation(a.id, current, a.kind, a.trust.value);
    var t := Durable(s, op, current, WorkingStatus(op, row), a.created, a.published, a.compensated);
    assert Accepts(s.rows, Create(op));
    assert t.rows == s.rows[a.id := op];
  }

  /** Resuming resets the row first; what is queued is the same as for a base that was ready. */
  lemma ResumptionQueues(out: ManagerState, current: Identity, a: Admission)
    requires Open(out, current.repoPath, a) && Stores(out, current.repoPath, a) && a.resume && a.kind == Sync
    requires forall id :: !ActiveFor(out.rows, id, current.repoPath)
    requires out.holder == Free && out.statuses[current.repoPath].path == current.repoPath
    ensures JoinsQueue(out, Resumed(out, Publish(out, ReadyRow(out.statuses[current.repoPath]), Reset, a.resumed), current, a), current, a)
  {
    var path := current.repoPath;
    var ready := ReadyRow(out.statuses[path]);
    var reset := Publish(out, ready, Reset, a.resumed);
    assert reset.statuses == out.statuses[path := ready.(failures := 0)];
    ResumedIs(out, reset, current, a);
    DurableQueues(reset, current, a, Some(ready));
  }

  lemma DurableOrNot(s: ManagerState, op: Operation, current: Identity, status: Status, created: bool, published: Faults, compensated: bool)
    ensures var t := Durable(s, op, current, status, created, published, compensated);
            !Queues(s, op, status, created, published) ==> t.queue == s.queue && t.issued == s.issued
  {}

  lemma NotQueued(s: ManagerState, a: Admission)
    requires Good(s) && Enabled(s, Admit(a)) && !(Open(s, s.holder.current.repoPath, a) && Stores(s, s.holder.current.repoPath, a))
    ensures Next(s, Admit(a)).queue == s.queue && Next(s, Admit(a)).issued == s.issued
  {
    var current := s.holder.current;
    var out := s.(holder := Free);
    AdmissionCases(s, current, a);
    assert RowOk(s, current.repoPath);
    match CaseOf(out, current, a)
    case OnlyInFlight =>
    case Resuming =>
      var ready := ReadyRow(s.statuses[current.repoPath]);
      var reset := Publish(out, ready, Reset, a.resumed);
      ResumedIs(out, reset, current, a);
      if a.trust.Some? {
        var op := NewOperation(a.id, current, a.kind, a.trust.value);
        DurableOrNot(reset, op, current, WorkingStatus(op, Some(ready)), a.created, a.published, a.compensated);
      }
    case Durably =>
      var op := NewOperation(a.id, current, a.kind, a.trust.value);
      DurableOrNot(out, op, current, WorkingStatus(op, RowOf(s.statuses, current.repoPath)), a.created, a.published, a.compensated);
  }

  lemma HolderIsIrrelevant(s: ManagerState, t: ManagerState, current: Identity, a: Admission)
    ensures JoinsQueue(s.(holder := Free), t, current, a) == JoinsQueue(s, t, current, a)
    ensures Open(s.(holder := Free), current.repoPath, a) == Open(s, current.repoPath, a)
    ensures Stores(s.(holder := Free), current.repoPath, a) == Stores(s, current.repoPath, a)
  {}

  lemma OpenQueues(s: ManagerState, a: Admission)
    requires Good(s) && Enabled(s, Admit(a)) && Open(s, s.holder.current.repoPath, a) && Stores(s, s.holder.current.repoPath, a)
    ensures JoinsQueue(s, Next(s, Admit(a)), s.holder.current, a)
  {
    var current, t := s.holder.current, Next(s, Admit(a));
    var out := s.(holder := Free);
    AdmissionCases(s, current, a);
    HolderIsIrrelevant(s, t, current, a);
    if a.resume {
      assert RowOk(s, current.repoPath);
      ResumptionQueues(out, current, a);
    } else {
      assert a.(resume := false) == a;
      var op := NewOperation(a.id, current, a.kind, a.trust.value);
      assert t == Durable(out, op, current, WorkingStatus(op, RowOf(s.statuses, current.repoPath)), a.created, a.published, a.compensated);
      DurableQueues(out, current, a, RowOf(s.statuses, current.repoPath));
    }
  }

  /** An admission queues its job if and only if the base is open for it and all its statements are stored. */
  lemma AdmitQueuesExactly(s: ManagerState, a: Admission)
    requires Good(s) && Enabled(s, Admit(a))
    ensures var current, t := s.holder.current, Next(s, Admit(a));
      if Open(s, current.repoPath, a) && Stores(s, current.repoPath, a) then JoinsQueue(s, t, current, a)
      else t.queue == s.queue && t.issued == s.issued
  {
    if Open(s, s.holder.current.repoPath, a) && Stores(s, s.holder.current.repoPath, a) {
      OpenQueues(s, a);
    } else {
      NotQueued(s, a);
    }
  }

  // ---------------------------------------------------------------- admissions that fail halfway

  /** A row whose status could not be stored is closed again as failed, just as it was created; if that fails, too, it
      stays queued and in flight, so that nothing else is started. */
  lemma UnshownRowIsClosed(s: ManagerState, op: Operation, current: Identity, status: Status, created: bool, published: Faults, compensated: bool)
    requires op.state == State.Queued && op.stage == StageQueued && created && Accepts(s.rows, Create(op))
    requires !Publishes(s.statuses, status, published)
    ensures var t := Durable(s, op, current, status, created, published, compensated);
      && t.queue == s.queue
      && op.id in t.rows && t.rows[op.id] == op.(state := if compensated then Failed else State.Queued) && t.rows - {op.id} == s.rows
      && t.inFlight == if compensated then s.inFlight else s.inFlight[current.repoPath := op]
  {
    var t := Durable(s, op, current, status, created, published, compensated);
    var row := s.rows[op.id := op];
    assert Accepts(row, Close(op.id, Failing(op)));
    assert Finished(op, Failing(op)) == op.(state := Failed);
    assert t.rows == if compensated then row[op.id := op.(state := Failed)] else row;
  }

  /** A job whose base was changed under it is given up: its row is closed as failed, where it had come to. */
  lemma StaleJobIsClosed(s: ManagerState, found: Option<Identity>)
    requires Good(s) && s.holder.Captured? && found != Some(s.holder.job.snapshot)
    requires !(found == Some(s.holder.current) && s.holder.current.baseName != s.holder.job.snapshot.baseName)
    ensures var op, t := s.holder.job.operation, Renewed(s, found, true);
      && op.id in s.rows && op.id in t.rows && t.rows - {op.id} == s.rows - {op.id}
      && t.rows[op.id].state == Failed && t.rows[op.id].identity == s.rows[op.id].identity
      && (s.rows[op.id] == op ==> t.rows[op.id] == op.(state := Failed))
      && t.holder == Evicting(s.holder.current, s.holder.index, s.holder.job)
  {
    var op := s.holder.job.operation;
    assert HasActiveRow(s, s.holder.job);
    assert Accepts(s.rows, Close(op.id, Failing(op)));
  }

  // ---------------------------------------------------------------- conflicts

  /** A conflict is shown and inspected, nothing else is under way, and row and status are stored. */
  ghost predicate ConflictOpen(s: ManagerState, path: Path, c: ConflictAdmission) {
    && c.readable && !s.closed && path !in s.inFlight && c.active.None? && c.inspected
    && path in s.statuses && s.statuses[path].state == StatusConflict
    && c.created && c.id !in s.rows && c.published.readable && c.published.applied
  }

  /** The row of a completion or an abort: everything the conflicting operation had journalled, under a new id. */
  ghost predicate TakesOver(op: Operation, c: ConflictAdmission) {
    && op.id == c.id && op.kind == c.kind && op.state == State.Queued && op.stage == StageQueued && op.identity == c.original.identity
    && op.local == c.original.local && op.candidate == c.original.candidate && op.remote == c.original.remote && op.push == c.original.push
    && op.backupRef == c.original.backupRef && op.changedPaths == c.changedPaths
    && op.conflictPaths == if c.kind == ConflictAbort then c.conflictPaths else {}
  }

  /** The job is the last of the queue and its operation in flight; the conflict stays shown until the job has run. */
  ghost predicate ConflictJoinsQueue(s: ManagerState, t: ManagerState, current: Identity, c: ConflictAdmission) {
    && |t.queue| == |s.queue| + 1 && t.queue[..|s.queue|] == s.queue
    && var job := t.queue[|s.queue|];
       && job.GitJob? && job.ticket == s.issued && t.issued == s.issued + 1 && job.snapshot == current
       && TakesOver(job.operation, c)
       && c.id in t.rows && t.rows[c.id] == job.operation && t.rows - {c.id} == s.rows
       && current.repoPath in t.inFlight && t.inFlight[current.repoPath] == job.operation
       && t.inFlight - {current.repoPath} == s.inFlight
       && current.repoPath in s.statuses
       && t.statuses == s.statuses[current.repoPath := s.statuses[current.repoPath].(
            operationId := c.id, stage := Some(StageQueued), changedPaths := job.operation.conflictPaths, error := None)]
       && t.served == s.served && t.closed == s.closed && t.holder == Free
  }

  lemma ConflictQueues(s: ManagerState, op: Operation, current: Identity, status: Status, c: ConflictAdmission)
    requires ConflictOpen(s, current.repoPath, c) && s.holder == Free && op == ConflictOperation(c)
    requires c.kind == ConflictComplete || c.kind == ConflictAbort
    requires op.identity.repoPath == current.repoPath && s.statuses[current.repoPath].path == current.repoPath
    requires forall id :: !ActiveFor(s.rows, id, current.repoPath)
    requires status == s.statuses[current.repoPath].(operationId := c.id, stage := Some(StageQueued), changedPaths := op.conflictPaths, error := None)
    ensures ConflictJoinsQueue(s, Durable(s, op, current, status, c.created, c.published, c.compensated), current, c)
  {
    var t := Durable(s, op, current, status, c.created, c.published, c.compensated);
    assert Accepts(s.rows, Create(op));
    assert t.rows == s.rows[c.id := op];
    assert t.statuses == s.statuses[current.repoPath := status];
  }

  /** The one place where a conflict admission writes anything. */
  lemma ConflictCases(s: ManagerState, c: ConflictAdmission)
    requires Good(s) && Enabled(s, AdmitConflict(c))
    ensures var current, t := s.holder.current, Next(s, AdmitConflict(c));
      if c.readable && current.repoPath in s.statuses && s.statuses[current.repoPath].state == StatusConflict
         && !s.closed && current.repoPath !in s.inFlight && c.active.None? && c.inspected then
        var op := ConflictOperation(c);
        t == Durable(s.(holder := Free), op, current,
                     s.statuses[current.repoPath].(operationId := c.id, stage := Some(StageQueued), changedPaths := op.conflictPaths, error := None),
                     c.created, c.published, c.compensated)
      else t.queue == s.queue && t.issued == s.issued
  {}

  lemma ConflictHolderIsIrrelevant(s: ManagerState, t: ManagerState, current: Identity, c: ConflictAdmission)
    ensures ConflictJoinsQueue(s.(holder := Free), t, current, c) == ConflictJoinsQueue(s, t, current, c)
    ensures ConflictOpen(s.(holder := Free), current.repoPath, c) == ConflictOpen(s, current.repoPath, c)
  {}

  lemma ConflictOpenQueues(s: ManagerState, c: ConflictAdmission)
    requires Good(s) && Enabled(s, AdmitConflict(c)) && ConflictOpen(s, s.holder.current.repoPath, c)
    ensures ConflictJoinsQueue(s, Next(s, AdmitConflict(c)), s.holder.current, c)
  {
    var current := s.holder.current;
    var path := current.repoPath;
    assert RowOk(s, path);
    ConflictCases(s, c);
    ConflictHolderIsIrrelevant(s, Next(s, AdmitConflict(c)), current, c);
    var op := ConflictOperation(c);
    ConflictQueues(s.(holder := Free), op, current,
                   s.statuses[path].(operationId := c.id, stage := Some(StageQueued), changedPaths := op.conflictPaths, error := None), c);
  }

  /** A completion or an abort is queued if and only if a conflict is open for it. */
  lemma AdmitConflictQueuesExactly(s: ManagerState, c: ConflictAdmission)
    requires Good(s) && Enabled(s, AdmitConflict(c))
    ensures var current, t := s.holder.current, Next(s, AdmitConflict(c));
      if ConflictOpen(s, current.repoPath, c) then ConflictJoinsQueue(s, t, current, c)
      else t.queue == s.queue && t.issued == s.issued
  {
    var current := s.holder.current;
    var path := current.repoPath;
    if ConflictOpen(s, path, c) {
      ConflictOpenQueues(s, c);
    } else {
      ConflictCases(s, c);
      if path in s.statuses {
        var op := ConflictOperation(c);
        DurableOrNot(s.(holder := Free), op, current,
                     s.statuses[path].(operationId := c.id, stage := Some(StageQueued), changedPaths := op.conflictPaths, error := None),
                     c.created, c.published, c.compensated);
      }
    }
  }

  // ---------------------------------------------------------------- operations under way

  /** The operation is one for this very base, directory and connection. */
  ghost predicate ForBase(op: Operation, current: Identity) {
    op.identity == op.identity.(baseName := current.baseName, repoPath := current.repoPath, config := current.config, remote := current.remote)
  }

  /** The journal's active operation, under the name that its queued job has been given since. */
  ghost predicate KnownAs(queue: seq<Job>, op: Operation, known: Operation, current: Identity) {
    if exists i :: 0 <= i < |queue| && queue[i].GitJob? && queue[i].operation.id == op.id && queue[i].snapshot == current then
      known == op.(identity := op.identity.(baseName := current.baseName, config := current.config))
    else known == op
  }

  /** An active operation that the process does not know yet is taken over as the one in flight if it is for this base,
      and if a resumption asks, if it is a Sync that is shown as running; nothing else happens. */
  lemma AdmitAdopts(s: ManagerState, a: Admission, known: Operation)
    requires Good(s) && Enabled(s, Admit(a)) && a.readable && !s.closed && s.holder.current.repoPath !in s.inFlight
    requires a.active.Some? && KnownAs(s.queue, a.active.value, known, s.holder.current)
    ensures var current, t := s.holder.current, Next(s, Admit(a));
      var row := RowOf(s.statuses, current.repoPath);
      var refused := (a.kind == Sync && row.Some? && row.value.state == StatusNeedsReconnect) || (!a.resume && row.Some? && row.value.state == StatusPaused);
      var fits := ForBase(known, current) && (a.resume ==> known.kind == Sync && row.Some? && row.value.state == StatusSyncing);
      t == s.(holder := Free, inFlight := if !refused && fits then s.inFlight[current.repoPath := known] else s.inFlight)
  {
    assert known == Effective(s.queue, a.active.value, s.holder.current);
  }

  /** The same for a completion or an abort, which only takes over its own kind. */
  lemma AdmitConflictAdopts(s: ManagerState, c: ConflictAdmission)
    requires Good(s) && Enabled(s, AdmitConflict(c)) && c.active.Some?
    ensures var current, t := s.holder.current, Next(s, AdmitConflict(c));
      var path, op := current.repoPath, c.active.value;
      var shown := c.readable && path in s.statuses && s.statuses[path].state == StatusConflict && !s.closed && path !in s.inFlight;
      t == s.(holder := Free, inFlight := if shown && op.kind == c.kind && ForBase(op, current) then s.inFlight[path := op] else s.inFlight)
  {}
}
