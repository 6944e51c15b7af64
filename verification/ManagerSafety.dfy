/** What every interleaving of the manager's steps keeps. */
module ManagerSafety {
  import opened Basics
  import opened CommitGraph
  import opened Journal
  import opened Statuses
  import opened ManagerState

  // ---------------------------------------------------------------- the queue, inFlight and the journal

  /** The job is the operation in flight for its path. */
  predicate InFlight(s: ManagerState, job: Job)
    requires job.GitJob?
  {
    && job.operation.identity.repoPath == PathOf(job)
    && PathOf(job) in s.inFlight && s.inFlight[PathOf(job)].id == job.operation.id
  }

  predicate HasActiveRow(s: ManagerState, job: Job)
    requires job.GitJob?
  {
    ActiveFor(s.rows, job.operation.id, PathOf(job))
  }

  /** Jobs in the queue: one per path, in flight, and active in the journal; only the entry being evicted
      has its row closed already. */
  ghost predicate QueueOk(s: ManagerState) {
    && (forall i, j, path :: QueuedFor(s.queue, i, path) && QueuedFor(s.queue, j, path) ==> i == j)
    && (forall i, path :: QueuedFor(s.queue, i, path) ==> InFlight(s, s.queue[i]))
    && (forall i, path :: QueuedFor(s.queue, i, path) && !(s.holder.Evicting? && s.holder.index == i) ==>
                            HasActiveRow(s, s.queue[i]))
  }

  /** The job being worked on is not in the queue as well; its row is active until its end is written. */
  ghost predicate HolderOk(s: ManagerState)
    requires WellTyped(s)
  {
    match s.holder
    case Working(job) => InFlight(s, job) && HasActiveRow(s, job) && forall i :: !QueuedFor(s.queue, i, PathOf(job))
    case Publishing(job, finished) =>
      InFlight(s, job) && (HasActiveRow(s, job) <==> !finished) && forall i :: !QueuedFor(s.queue, i, PathOf(job))
    case Evicting(_, _, job) => !HasActiveRow(s, job)
    case _ => true
  }

  /** The path whose row is closed while it still is in flight. */
  predicate Closing(s: ManagerState, path: Path) {
    (s.holder.Evicting? && s.holder.current.repoPath == path)
    || (s.holder.Publishing? && s.holder.finished && s.holder.job.GitJob? && PathOf(s.holder.job) == path)
  }

  /** Whatever is in flight has an active row. */
  ghost predicate InFlightOk(s: ManagerState) {
    forall path :: path in s.inFlight && !Closing(s, path) ==> ActiveFor(s.rows, s.inFlight[path].id, path)
  }

  ghost predicate Safe(s: ManagerState) {
    WellTyped(s) && Wellformed(s.rows) && QueueOk(s) && HolderOk(s) && InFlightOk(s)
  }

  /** A row with a terminal state stays as it is; no row disappears or changes its admission columns. */
  ghost predicate RowsKept(before: Rows, after: Rows) {
    forall id :: id in before ==>
                   id in after && after[id].identity == before[id].identity && after[id].kind == before[id].kind
                   && (!before[id].Active() ==> after[id] == before[id])
  }

  // ---------------------------------------------------------------- the building blocks of a step

  lemma WriteKeepsRows(rows: Rows, w: Write)
    ensures RowsKept(rows, Apply(rows, w))
  {}

  /** Which rows are active after an accepted write. */
  ghost predicate ActiveAfter(rows: Rows, w: Write) {
    forall id, path :: ActiveFor(Apply(rows, w), id, path)
                       <==> match w
                            case Create(op) => ActiveFor(rows, id, path) || (id == op.id && path == op.identity.repoPath)
                            case Progress(_, _) => ActiveFor(rows, id, path)
                            case Close(closed, _) => ActiveFor(rows, id, path) && id != closed
                            case Unavailable => ActiveFor(rows, id, path)
  }

  lemma ActiveRowsAfter(rows: Rows, w: Write)
    requires Accepts(rows, w)
    ensures ActiveAfter(rows, w)
  {}

  lemma PublishIsSafe(s: ManagerState, status: Status, action: FailureAction, f: Faults)
    requires Safe(s)
    ensures Safe(Publish(s, status, action, f))
  {
    var t := Publish(s, status, action, f);
    assert QueueOk(t) && HolderOk(t) && InFlightOk(t);
  }

  lemma CreateIsSafe(s: ManagerState, op: Operation)
    requires Safe(s) && s.holder == Free && Accepts(s.rows, Create(op))
    ensures Safe(WriteRow(s, Create(op)))
    ensures ActiveFor(Apply(s.rows, Create(op)), op.id, op.identity.repoPath)
  {
    ApplyKeepsWellformed(s.rows, Create(op));
    ActiveRowsAfter(s.rows, Create(op));
  }

  /** Closing a row of a path with nothing in flight. */
  lemma CloseUnclaimedIsSafe(s: ManagerState, id: OperationId, f: Finish, path: Path)
    requires Safe(s) && s.holder == Free && Accepts(s.rows, Write.Close(id, f))
    requires path !in s.inFlight && ActiveFor(s.rows, id, path)
    ensures Safe(WriteRow(s, Write.Close(id, f)))
  {
    ApplyKeepsWellformed(s.rows, Write.Close(id, f));
    ActiveRowsAfter(s.rows, Write.Close(id, f));
    forall p | p in s.inFlight
      ensures s.inFlight[p].id != id
    {
      assert ActiveFor(s.rows, s.inFlight[p].id, p);
    }
  }

  lemma AdoptIsSafe(s: ManagerState, op: Operation, path: Path)
    requires Safe(s) && s.holder == Free && path !in s.inFlight && ActiveFor(s.rows, op.id, path)
    ensures Safe(s.(inFlight := s.inFlight[path := op]))
  {
    var t := s.(inFlight := s.inFlight[path := op]);
    assert forall i, p :: QueuedFor(t.queue, i, p) ==> QueuedFor(s.queue, i, p) && InFlight(s, s.queue[i]);
  }

  lemma EnqueueIsSafe(s: ManagerState, op: Operation, current: Identity)
    requires Safe(s) && s.holder == Free && current.repoPath !in s.inFlight
    requires ActiveFor(s.rows, op.id, current.repoPath) && op.identity.repoPath == current.repoPath
    ensures Safe(Enqueued(s, op, current))
  {
    AdoptIsSafe(s, op, current.repoPath);
    var t := Enqueued(s, op, current);
    var u := s.(inFlight := t.inFlight);
    forall i, path | QueuedFor(t.queue, i, path)
      ensures i == |s.queue| || (QueuedFor(s.queue, i, path) && t.queue[i] == s.queue[i] && path in s.inFlight && InFlight(u, u.queue[i]))
    {
      if i < |s.queue| {
        assert QueuedFor(s.queue, i, path);
      }
    }
  }

  /** The journalled row is closed again, or its operation kept in flight. */
  lemma CompensationIsSafe(s: ManagerState, op: Operation, path: Path)
    requires Safe(s) && s.holder == Free && path !in s.inFlight && ActiveFor(s.rows, op.id, path)
    ensures var w := Write.Close(op.id, Failing(op));
            Accepts(s.rows, w) && Safe(WriteRow(s, w)) && Safe(s.(inFlight := s.inFlight[path := op]))
  {
    CloseUnclaimedIsSafe(s, op.id, Failing(op), path);
    AdoptIsSafe(s, op, path);
  }

  /** The durable half of an admission, once nothing is in flight for the path. */
  lemma DurableIsSafe(s: ManagerState, op: Operation, current: Identity, status: Status, created: bool, published: Faults, compensated: bool)
    requires Safe(s) && s.holder == Free && current.repoPath !in s.inFlight && op.identity.repoPath == current.repoPath
    ensures Safe(Durable(s, op, current, status, created, published, compensated))
    ensures RowsKept(s.rows, Durable(s, op, current, status, created, published, compensated).rows)
  {
    if created && Accepts(s.rows, Create(op)) {
      var journalled := WriteRow(s, Create(op));
      var announced := Publish(journalled, status, Preserve, published);
      CreateIsSafe(s, op);
      PublishIsSafe(journalled, status, Preserve, published);
      if Publishes(journalled.statuses, status, published) {
        EnqueueIsSafe(announced, op, current);
      } else {
        CompensationIsSafe(announced, op, current.repoPath);
      }
    }
  }

  // ---------------------------------------------------------------- the steps

  lemma AdmitIsSafe(s: ManagerState, a: Admission)
    requires Safe(s) && Enabled(s, Admit(a))
    ensures Safe(Next(s, Admit(a))) && RowsKept(s.rows, Next(s, Admit(a)).rows)
  {
    var current := s.holder.current;
    var path := current.repoPath;
    var out := s.(holder := Free);
    var row := RowOf(s.statuses, path);
    HolderIsSafe(s, Free);
    if path !in s.inFlight {
      if a.active.Some? {
        AdoptIsSafe(out, Effective(s.queue, a.active.value, current), path);
      } else {
        if a.trust.Some? {
          var op := NewOperation(a.id, current, a.kind, a.trust.value);
          DurableIsSafe(out, op, current, WorkingStatus(op, row), a.created, a.published, a.compensated);
        }
        if row.Some? {
          var ready := row.value.(state := StatusReady, operationId := "", stage := None, error := None);
          PublishIsSafe(out, ready, Reset, a.resumed);
          ResumeIsSafe(out, Publish(out, ready, Reset, a.resumed), current, a);
        }
      }
    }
  }

  lemma ResumeIsSafe(before: ManagerState, reset: ManagerState, current: Identity, a: Admission)
    requires Safe(before) && Safe(reset) && reset.holder == Free && current.repoPath !in reset.inFlight
    requires before.rows == reset.rows
    ensures Safe(Resumed(before, reset, current, a)) && RowsKept(before.rows, Resumed(before, reset, current, a).rows)
  {
    if current.repoPath in before.statuses && a.trust.Some? {
      var op := NewOperation(a.id, current, a.kind, a.trust.value);
      var working := WorkingStatus(op, Some(before.statuses[current.repoPath].(state := StatusReady, operationId := "", stage := None, error := None)));
      DurableIsSafe(reset, op, current, working, a.created, a.published, a.compensated);
      StatusesAreIrrelevant(Durable(reset, op, current, working, a.created, a.published, a.compensated), Resumed(before, reset, current, a));
    } else if current.repoPath in before.statuses {
      StatusesAreIrrelevant(reset, Resumed(before, reset, current, a));
    }
  }

  lemma StatusesAreIrrelevant(s: ManagerState, t: ManagerState)
    requires Safe(s)
    requires t.queue == s.queue && t.inFlight == s.inFlight && t.rows == s.rows && t.holder == s.holder
    ensures Safe(t)
  {
    assert QueueOk(t) && HolderOk(t) && InFlightOk(t);
  }

  lemma AdmitConflictIsSafe(s: ManagerState, c: ConflictAdmission)
    requires Safe(s) && Enabled(s, AdmitConflict(c))
    ensures Safe(Next(s, AdmitConflict(c))) && RowsKept(s.rows, Next(s, AdmitConflict(c)).rows)
  {
    var current := s.holder.current;
    var path := current.repoPath;
    var out := s.(holder := Free);
    HolderIsSafe(s, Free);
    if path !in s.inFlight {
      if c.active.Some? {
        AdoptIsSafe(out, c.active.value, path);
      } else if path in s.statuses {
        var op := ConflictOperation(c);
        var status := s.statuses[path].(operationId := c.id, stage := Some(StageQueued), changedPaths := op.conflictPaths, error := None);
        DurableIsSafe(out, op, current, status, c.created, c.published, c.compensated);
      }
    }
  }

  /** The index captured under the mutex still names the same job when the journal has been written: only a
      holder of the coordinator removes or renames entries. */
  lemma RenameIsSafe(s: ManagerState)
    requires Safe(s) && s.holder.Captured?
    ensures var (current, i, job) := (s.holder.current, s.holder.index, s.holder.job);
            var op := WithName(job.operation, current);
            Safe(s.(queue := s.queue[i := GitJob(job.ticket, op, current)], inFlight := s.inFlight[current.repoPath := op],
                 holder := Refreshed(current)))
  {
    var (current, i, job) := (s.holder.current, s.holder.index, s.holder.job);
    var op := WithName(job.operation, current);
    var t := s.(queue := s.queue[i := GitJob(job.ticket, op, current)], inFlight := s.inFlight[current.repoPath := op],
    holder := Refreshed(current));
    assert InFlight(s, job) && HasActiveRow(s, job);
    forall k, path | QueuedFor(t.queue, k, path)
      ensures QueuedFor(s.queue, k, path) && t.queue[k].operation.id == s.queue[k].operation.id
    {}
    assert QueueOk(t) && InFlightOk(t);
  }

  lemma CloseCapturedIsSafe(s: ManagerState, f: Finish)
    requires Safe(s) && s.holder.Captured? && Accepts(s.rows, Write.Close(s.holder.job.operation.id, f))
    ensures Safe(WriteRow(s, Write.Close(s.holder.job.operation.id, f)).(holder := Evicting(s.holder.current, s.holder.index, s.holder.job)))
  {
    var (current, i, job) := (s.holder.current, s.holder.index, s.holder.job);
    var w := Write.Close(job.operation.id, f);
    var t := WriteRow(s, w).(holder := Evicting(current, i, job));
    assert InFlight(s, job) && HasActiveRow(s, job);
    ApplyKeepsWellformed(s.rows, w);
    ActiveRowsAfter(s.rows, w);
    OnlyOneInFlight(s, job);
    assert QueueOk(t) && HolderOk(t) && InFlightOk(t);
  }

  lemma RenewIsSafe(s: ManagerState, found: Option<Identity>, stored: bool)
    requires Safe(s) && Enabled(s, Renew(found, stored))
    ensures Safe(Renewed(s, found, stored)) && RowsKept(s.rows, Renewed(s, found, stored).rows)
  {
    var current, job := s.holder.current, s.holder.job;
    if found == Some(job.snapshot) {
      HolderIsSafe(s, Refreshed(current));
    } else if found == Some(current) && current.baseName != job.snapshot.baseName {
      RenameIsSafe(s);
    } else {
      var w := Write.Close(job.operation.id, Failing(job.operation));
      if stored && Accepts(s.rows, w) {
        CloseCapturedIsSafe(s, Failing(job.operation));
        WriteKeepsRows(s.rows, w);
      } else {
        HolderIsSafe(s, Free);
      }
    }
  }

  /** No two paths have the same operation in flight. */
  lemma OnlyOneInFlight(s: ManagerState, job: Job)
    requires Safe(s) && !s.holder.Evicting? && !s.holder.Publishing?
    requires job.GitJob? && InFlight(s, job) && HasActiveRow(s, job)
    ensures forall path :: path in s.inFlight && s.inFlight[path].id == job.operation.id ==> path == PathOf(job)
    ensures forall i, path :: QueuedFor(s.queue, i, path) && s.queue[i].operation.id == job.operation.id ==> path == PathOf(job)
  {
    forall path | path in s.inFlight && s.inFlight[path].id == job.operation.id
      ensures path == PathOf(job)
    {
      assert ActiveFor(s.rows, s.inFlight[path].id, path);
    }
  }

  lemma EvictIsSafe(s: ManagerState)
    requires Safe(s) && Enabled(s, Evict)
    ensures Safe(Next(s, Evict))
  {
    var (path, i) := (s.holder.current.repoPath, s.holder.index);
    var t := Next(s, Evict);
    forall k, p | QueuedFor(t.queue, k, p)
      ensures QueuedFor(s.queue, if k < i then k else k + 1, p) && t.queue[k] == s.queue[if k < i then k else k + 1] && p != path
    {
      var j := if k < i then k else k + 1;
      assert t.queue[k] == s.queue[j];
      assert QueuedFor(s.queue, j, p) && QueuedFor(s.queue, i, path);
    }
    assert QueueOk(t) && InFlightOk(t);
  }

  lemma PopIsSafe(s: ManagerState)
    requires Safe(s) && Enabled(s, Pop)
    ensures Safe(Next(s, Pop))
  {
    var t := Next(s, Pop);
    var job := s.queue[0];
    forall k, p | QueuedFor(t.queue, k, p)
      ensures QueuedFor(s.queue, k + 1, p) && t.queue[k] == s.queue[k + 1] && (job.GitJob? ==> p != PathOf(job))
    {
      assert QueuedFor(s.queue, k + 1, p);
      assert job.GitJob? ==> QueuedFor(s.queue, 0, PathOf(job));
    }
    assert job.GitJob? ==> QueuedFor(s.queue, 0, PathOf(job));
    assert QueueOk(t) && HolderOk(t) && InFlightOk(t);
  }

  lemma ProgressIsSafe(s: ManagerState, id: OperationId, checkpoint: Checkpoint)
    requires Safe(s) && Accepts(s.rows, Progress(id, checkpoint))
    ensures Safe(WriteRow(s, Progress(id, checkpoint)))
  {
    var w := Progress(id, checkpoint);
    var t := WriteRow(s, w);
    ApplyKeepsWellformed(s.rows, w);
    ActiveRowsAfter(s.rows, w);
    assert QueueOk(t) && HolderOk(t) && InFlightOk(t);
  }

  lemma CheckpointIsSafe(s: ManagerState, checkpoint: Checkpoint, stored: bool, status: Status, published: Faults)
    requires Safe(s) && Enabled(s, CheckpointJob(checkpoint, stored, status, published))
    ensures var t := Next(s, CheckpointJob(checkpoint, stored, status, published)); Safe(t) && RowsKept(s.rows, t.rows)
  {
    var w := Progress(s.holder.job.operation.id, checkpoint);
    if stored && Accepts(s.rows, w) {
      ProgressIsSafe(s, s.holder.job.operation.id, checkpoint);
      WriteKeepsRows(s.rows, w);
      PublishIsSafe(WriteRow(s, w), status, Preserve, published);
    }
  }

  /** Closing the row of the job being worked on. */
  lemma CloseWorkedIsSafe(s: ManagerState, f: Finish, finished: bool)
    requires Safe(s) && s.holder.Working?
    requires finished ==> Accepts(s.rows, Write.Close(s.holder.job.operation.id, f))
    ensures var job := s.holder.job;
            Safe((if finished then WriteRow(s, Write.Close(job.operation.id, f)) else s).(holder := Publishing(job, finished)))
  {
    var job := s.holder.job;
    var w := Write.Close(job.operation.id, f);
    OnlyOneInFlight(s, job);
    var t := (if finished then WriteRow(s, w) else s).(holder := Publishing(job, finished));
    if finished {
      ApplyKeepsWellformed(s.rows, w);
      ActiveRowsAfter(s.rows, w);
    }
    assert QueueOk(t) && HolderOk(t) && InFlightOk(t);
  }

  lemma FinishIsSafe(s: ManagerState, e: Ending)
    requires Safe(s) && Enabled(s, FinishJob(e))
    ensures Safe(Ending_(s, e)) && RowsKept(s.rows, Ending_(s, e).rows)
  {
    var job := s.holder.job;
    if e.Unwritten? {
      CloseWorkedIsSafe(s, Failing(job.operation), false);
    } else {
      var w := Write.Close(job.operation.id, e.finish);
      var finished := e.stored && Accepts(s.rows, w);
      CloseWorkedIsSafe(s, e.finish, finished);
      WriteKeepsRows(s.rows, w);
      var t := (if finished then WriteRow(s, w) else s).(holder := Publishing(job, finished));
      EndingShape(s, e);
      StatusesAreIrrelevant(t, Ending_(s, e));
    }
  }

  lemma EndingShape(s: ManagerState, e: Ending)
    requires s.holder.Working? && WellTyped(s) && !e.Unwritten?
    ensures var w := Write.Close(s.holder.job.operation.id, e.finish);
            var finished := e.stored && Accepts(s.rows, w);
            var t := Ending_(s, e);
            && t.queue == s.queue && t.served == s.served && t.issued == s.issued
            && t.inFlight == s.inFlight && t.holder == Publishing(s.holder.job, finished)
            && t.rows == if finished then Apply(s.rows, w) else s.rows
  {}

  lemma CompleteIsSafe(s: ManagerState)
    requires Safe(s) && Enabled(s, Complete)
    ensures Safe(Next(s, Complete))
  {
    var t := Next(s, Complete);
    forall k, p | QueuedFor(t.queue, k, p)
      ensures p != PathOf(s.holder.job)
    {
      assert QueuedFor(s.queue, k, p);
    }
    assert QueueOk(t) && InFlightOk(t);
  }

  lemma EnqueueSyncIsSafe(s: ManagerState)
    requires Safe(s)
    ensures Safe(Next(s, Enqueue))
  {
    var t := Next(s, Enqueue);
    forall k, p
      ensures QueuedFor(t.queue, k, p) <==> QueuedFor(s.queue, k, p)
    {}
    assert QueueOk(t) && HolderOk(t) && InFlightOk(t);
  }

  /** Every step of every thread keeps the invariant. */
  lemma StepIsSafe(s: ManagerState, step: Step)
    requires Safe(s) && Enabled(s, step)
    ensures Safe(Next(s, step)) && RowsKept(s.rows, Next(s, step).rows)
  {
    match step
    case Admit(a) => AdmitIsSafe(s, a);
    case AdmitConflict(c) => AdmitConflictIsSafe(s, c);
    case Renew(found, stored) => RenewIsSafe(s, found, stored);
    case Evict => EvictIsSafe(s);
    case Pop => PopIsSafe(s);
    case CheckpointJob(c, stored, status, published) => CheckpointIsSafe(s, c, stored, status, published);
    case FinishJob(e) => FinishIsSafe(s, e);
    case Complete => CompleteIsSafe(s);
    case Serve(rewritten) =>
      HolderIsSafe(s, Free);
      StatusesAreIrrelevant(s.(holder := Free), Next(s, step));
    case Enqueue => EnqueueSyncIsSafe(s);
    case Capture => CaptureIsSafe(s);
    case Enter(current) => HolderIsSafe(s, Admitting(current));
    case Leave => HolderIsSafe(s, Free);
    case Abandon => HolderIsSafe(s, Free);
    case Shut => StatusesAreIrrelevant(s, Next(s, Shut));
  }

  /** Taking or leaving the coordinator. */
  lemma HolderIsSafe(s: ManagerState, holder: Holder)
    requires Safe(s) && !s.holder.Evicting? && !s.holder.Publishing?
    requires holder.Free? || holder.Admitting? || holder.Refreshed?
    ensures Safe(s.(holder := holder))
  {
    var t := s.(holder := holder);
    assert QueueOk(t) && HolderOk(t) && InFlightOk(t);
  }

  lemma CaptureIsSafe(s: ManagerState)
    requires Safe(s) && s.holder.Admitting?
    ensures Safe(Next(s, Capture))
  {
    var t := Next(s, Capture);
    assert QueueOk(t) && HolderOk(t) && InFlightOk(t);
  }

  /** A synchronous job is queued, or the manager is closed; any thread may do either at any time. */
  function Outside(s: ManagerState, shut: bool): ManagerState {
    if shut then s.(closed := true)
    else if s.closed then s
    else s.(queue := s.queue + [SyncJob(s.issued)], issued := s.issued + 1)
  }

  lemma OutsideIsAStep(s: ManagerState)
    requires WellTyped(s)
    ensures Next(s, Enqueue) == Outside(s, false) && Next(s, Shut) == Outside(s, true)
  {}

  /** A journal statement and a status publication touch different tables. */
  lemma StatementsAreIndependent(s: ManagerState, w: Write, status: Status, action: FailureAction, f: Faults)
    ensures Publish(WriteRow(s, w), status, action, f) == WriteRow(Publish(s, status, action, f), w)
  {}

  /** What comes in between commutes with each journal statement and each status publication. */
  lemma StatementsCommute(s: ManagerState, shut: bool, w: Write, status: Status, action: FailureAction, f: Faults)
    ensures WriteRow(Outside(s, shut), w) == Outside(WriteRow(s, w), shut)
    ensures Publish(Outside(s, shut), status, action, f) == Outside(Publish(s, status, action, f), shut)
  {}

  /** So a checkpoint may be taken as one step: what comes in before it or between its two writes may as well come after. */
  lemma CheckpointCommutes(s: ManagerState, shut: bool, step: Step)
    requires WellTyped(s) && step.CheckpointJob? && Enabled(s, step)
    ensures WellTyped(Outside(s, shut)) && Enabled(Outside(s, shut), step)
    ensures Next(Outside(s, shut), step) == Outside(Next(s, step), shut)
    ensures var w := Progress(s.holder.job.operation.id, step.checkpoint);
            step.stored && Accepts(s.rows, w) ==>
              Publish(Outside(WriteRow(s, w), shut), step.status, Preserve, step.published) == Outside(Next(s, step), shut)
  {
    var w := Progress(s.holder.job.operation.id, step.checkpoint);
    StatementsCommute(s, shut, w, step.status, Preserve, step.published);
    StatementsCommute(WriteRow(s, w), shut, w, step.status, Preserve, step.published);
  }

  /** A publication and the holder after it. */
  lemma PublicationCommutes(s: ManagerState, shut: bool, status: Status, action: FailureAction, f: Faults, holder: Holder)
    ensures Publish(Outside(s, shut), status, action, f).(holder := holder) == Outside(Publish(s, status, action, f).(holder := holder), shut)
  {
    StatementsCommute(s, shut, Unavailable, status, action, f);
  }

  /** So may the end of a job. */
  lemma EndingCommutes(s: ManagerState, shut: bool, e: Ending)
    requires WellTyped(s) && Enabled(s, FinishJob(e))
    ensures WellTyped(Outside(s, shut)) && Enabled(Outside(s, shut), FinishJob(e))
    ensures Next(Outside(s, shut), FinishJob(e)) == Outside(Next(s, FinishJob(e)), shut)
  {
    assert Outside(s, shut).holder == s.holder && Outside(s, shut).rows == s.rows;
    match e
    case Ended(finish, stored, outcome, status, published) =>
      var w := Close(s.holder.job.operation.id, finish);
      var finished := stored && Accepts(s.rows, w);
      var verdict := ClassifyGitOutcome(outcome);
      var closed := if finished then WriteRow(s, w) else s;
      assert (if finished then WriteRow(Outside(s, shut), w) else Outside(s, shut)) == Outside(closed, shut);
      PublicationCommutes(closed, shut, status.(state := verdict.state), verdict.failures, published, Publishing(s.holder.job, finished));
    case _ =>
  }
}
