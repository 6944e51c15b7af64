/** The Git manager as a state machine.

    The source guards the manager with two locks: the coordinator, held for a whole admission or a whole
    job, and the manager mutex, held for one section at a time. A step below is what one thread does before
    another could act on what it touches; who holds the coordinator, and how far the holder has come, is part
    of the state. Steps of different threads interleave freely between them. The last section of an admission,
    journal and status included, runs under both locks and is one step; the sections of a conflict admission
    before it only read. A checkpoint and the end of a job write the journal and then the status outside the
    mutex; each is one step, because all that can come in between is Enqueue and Shut, which commute with any
    part of it (CheckpointCommutes, EndingCommutes). */
module ManagerState {
  import opened Basics
  import opened CommitGraph
  import opened Journal
  import opened Statuses

  /** A queued job; the ticket numbers the jobs in the order they were queued. */
  datatype Job =
    | GitJob(ticket: nat, operation: Operation, snapshot: Identity)
    | SyncJob(ticket: nat)

  datatype Holder =
    | Free
    | Admitting(current: Identity)
    | Captured(current: Identity, index: nat, job: Job)
    | Evicting(current: Identity, index: nat, job: Job)
    | Refreshed(current: Identity)
    | Working(job: Job)
    | Publishing(job: Job, finished: bool)
    | Serving(job: Job)

  /** The failures a row had when it was first seen or last reset, and the increments since. */
  datatype Budget = Budget(start: nat, recorded: nat)

  datatype ManagerState = ManagerState(
    queue: seq<Job>,
    inFlight: map<Path, Operation>,
    closed: bool,
    rows: Rows,
    statuses: StatusTable,
    holder: Holder,
    issued: nat,
    served: seq<nat>,
    budgets: map<Path, Budget>)

  // ---------------------------------------------------------------- what an admission is told

  /** `active` is the row ActiveByPath returns; `trust` is None when admission trust is refused or unreadable. */
  datatype Admission = Admission(
    kind: Kind,
    resume: bool,
    id: OperationId,
    readable: bool,
    active: Option<Operation>,
    trust: Option<Oid>,
    resumed: Faults,
    created: bool,
    published: Faults,
    compensated: bool,
    restored: bool)

  datatype ConflictAdmission = ConflictAdmission(
    kind: Kind,
    id: OperationId,
    original: Operation,
    readable: bool,
    active: Option<Operation>,
    inspected: bool,
    changedPaths: set<Path>,
    conflictPaths: set<Path>,
    created: bool,
    published: Faults,
    compensated: bool)

  /** How a job ends: nothing written (`Unwritten`), only its row closed (`Stale`), or row and status. */
  datatype Ending =
    | Unwritten
    | StaleEnd(finish: Finish, stored: bool)
    | Ended(finish: Finish, stored: bool, outcome: Outcome, status: Status, published: Faults)

  datatype Step =
    | Enter(current: Identity)
    | Leave
    | Capture
    | Renew(found: Option<Identity>, stored: bool)
    | Evict
    | Admit(a: Admission)
    | AdmitConflict(c: ConflictAdmission)
    | Pop
    | CheckpointJob(checkpoint: Checkpoint, stored: bool, status: Status, published: Faults)
    | FinishJob(ending: Ending)
    | Complete
    | Serve(rewritten: Option<Status>)
    | Abandon
    | Enqueue
    | Shut

  // ---------------------------------------------------------------- helpers

  function PathOf(job: Job): Path
    requires job.GitJob?
  {
    job.snapshot.repoPath
  }

  predicate QueuedFor(queue: seq<Job>, i: int, path: Path) {
    0 <= i < |queue| && queue[i].GitJob? && PathOf(queue[i]) == path
  }

  /** The first Git job of the path, or the length of the queue. */
  function IndexFor(queue: seq<Job>, path: Path): (i: nat)
    ensures i <= |queue| && (i < |queue| ==> QueuedFor(queue, i, path))
    ensures forall k :: 0 <= k < i ==> !QueuedFor(queue, k, path)
  {
    if queue == [] then 0
    else if queue[0].GitJob? && PathOf(queue[0]) == path then 0
    else
      var i := IndexFor(queue[1..], path);
      assert forall k :: 1 <= k < |queue| && !QueuedFor(queue[1..], k - 1, path) ==> !QueuedFor(queue, k, path);
      1 + i
  }

  /** The journal's answer is the active row of the path, if there is one. */
  ghost predicate ReadsActive(rows: Rows, path: Path, active: Option<Operation>) {
    match active
    case Some(op) => ActiveFor(rows, op.id, path) && rows[op.id] == op
    case None => forall id :: !ActiveFor(rows, id, path)
  }

  /** queuedOperationIdentityLocked: a renamed job gives its row the new name. */
  predicate Renamed(queue: seq<Job>, op: Operation, current: Identity) {
    exists i :: 0 <= i < |queue| && queue[i].GitJob? && queue[i].operation.id == op.id && queue[i].snapshot == current
  }

  function WithName(op: Operation, current: Identity): Operation {
    op.(identity := op.identity.(baseName := current.baseName, config := current.config))
  }

  function Effective(queue: seq<Job>, op: Operation, current: Identity): Operation {
    if Renamed(queue, op, current) then WithName(op, current) else op
  }

  /** sameManagerIdentity */
  predicate SameIdentity(op: Operation, current: Identity) {
    op.identity.baseName == current.baseName && op.identity.repoPath == current.repoPath
    && op.identity.config == current.config && op.identity.remote == current.remote
  }

  function NewOperation(id: OperationId, current: Identity, kind: Kind, trusted: Oid): Operation {
    Operation(id, current, kind, Queued, StageQueued, "", None, None, trusted, None, {}, {})
  }

  function ConflictOperation(c: ConflictAdmission): Operation {
    Inherited(c.original, c.id, c.kind).(changedPaths := c.changedPaths,
    conflictPaths := if c.kind == ConflictComplete then {} else c.conflictPaths)
  }

  /** managerWorkingStatus */
  function WorkingStatus(op: Operation, previous: Option<Status>): Status {
    var base := if previous.Some? then previous.value else Status("", "", StatusReady, "", None, 0, None, None, {}, None, None);
    base.(base := op.identity.baseName, path := op.identity.repoPath, operationId := op.id, stage := Some(op.stage),
    remote := op.remote, error := None,
    changedPaths := if op.changedPaths != {} then op.changedPaths else base.changedPaths,
    state := if op.kind == Initialize then StatusInitializing else StatusSyncing)
  }

  function RowOf(table: StatusTable, path: Path): Option<Status> {
    if path in table then Some(table[path]) else None
  }

  function BudgetOf(s: ManagerState, path: Path): Budget {
    if path !in s.statuses then Budget(0, 0)
    else if path in s.budgets then s.budgets[path]
    else Budget(s.statuses[path].failures, 0)
  }

  /** A status publication, with the budget it leaves. */
  function Publish(s: ManagerState, status: Status, action: FailureAction, f: Faults): ManagerState {
    var ok := Publishes(s.statuses, status, f);
    var b := BudgetOf(s, status.path);
    s.(statuses := Published(s.statuses, status, action, f),
    budgets := s.budgets[status.path :=
      if !ok then b
      else match action
        case Reset => Budget(0, 0)
        case Preserve => b
        case Increment => Budget(b.start, b.recorded + 1)])
  }

  function WriteRow(s: ManagerState, w: Write): ManagerState {
    s.(rows := Apply(s.rows, w))
  }

  function Failing(op: Operation): Finish {
    Finish(Failed, Some(op.stage), op.backupRef, op.local, op.candidate, op.remote, op.push, Some(op.changedPaths), Some(op.conflictPaths))
  }

  function Enqueued(s: ManagerState, op: Operation, current: Identity): ManagerState {
    s.(inFlight := s.inFlight[current.repoPath := op], queue := s.queue + [GitJob(s.issued, op, current)], issued := s.issued + 1)
  }

  // ---------------------------------------------------------------- admission

  /** The durable half of an admission: journal the row, publish the working status, queue the job; a status
      that cannot be published closes the row again. */
  function Durable(s: ManagerState, op: Operation, current: Identity, status: Status, created: bool, published: Faults, compensated: bool): ManagerState {
    if !created || !Accepts(s.rows, Create(op)) then s
    else
      var journalled := WriteRow(s, Create(op));
      var announced := Publish(journalled, status, Preserve, published);
      if Publishes(journalled.statuses, status, published) then Enqueued(announced, op, current)
      else
        var w := Close(op.id, Failing(op));
        if compensated && Accepts(announced.rows, w) then WriteRow(announced, w)
        else announced.(inFlight := announced.inFlight[current.repoPath := op])
  }

  /** Whether Durable queued the job. */
  predicate Queues(s: ManagerState, op: Operation, status: Status, created: bool, published: Faults) {
    created && Accepts(s.rows, Create(op)) && Publishes(s.statuses, status, published)
  }

  /** The last section of queueOperationWithResume. */
  function Admitted(s: ManagerState, current: Identity, a: Admission): ManagerState {
    var path := current.repoPath;
    var out := s.(holder := Free);
    var row := RowOf(s.statuses, path);
    if !a.readable then out
    else if a.kind == Sync && row.Some? && row.value.state == StatusNeedsReconnect then out
    else if !a.resume && row.Some? && row.value.state == StatusPaused then out
    else if s.closed || path in s.inFlight then out
    else if a.active.Some? then
      var op := Effective(s.queue, a.active.value, current);
      if SameIdentity(op, current) && (!a.resume || (op.kind == Sync && row.Some? && row.value.state == StatusSyncing))
      then out.(inFlight := out.inFlight[path := op]) else out
    else if a.resume then
      if row.None? || row.value.state != StatusPaused then out
      else
        var ready := row.value.(state := StatusReady, operationId := "", stage := None, error := None);
        if !Publishes(out.statuses, ready, a.resumed) then out
        else Resumed(out, Publish(out, ready, Reset, a.resumed), current, a)
    else if a.trust.None? then out
    else
      var op := NewOperation(a.id, current, a.kind, a.trust.value);
      Durable(out, op, current, WorkingStatus(op, row), a.created, a.published, a.compensated)
  }

  /** Resume after its reset: queue, or put the previous row back. */
  function Resumed(before: ManagerState, reset: ManagerState, current: Identity, a: Admission): ManagerState {
    var path := current.repoPath;
    if path !in before.statuses then before
    else
      var op := NewOperation(a.id, current, a.kind, if a.trust.Some? then a.trust.value else None);
      var working := WorkingStatus(op, Some(before.statuses[path].(state := StatusReady, operationId := "", stage := None, error := None)));
      var tried := if a.trust.None? then reset else Durable(reset, op, current, working, a.created, a.published, a.compensated);
      if a.trust.Some? && Queues(reset, op, working, a.created, a.published) then tried
      else if a.restored then
        tried.(statuses := tried.statuses[path := before.statuses[path]], budgets := tried.budgets[path := BudgetOf(before, path)])
      else tried
  }

  /** queueConflictOperation after its first checks. */
  function AdmittedConflict(s: ManagerState, current: Identity, c: ConflictAdmission): ManagerState {
    var path := current.repoPath;
    var out := s.(holder := Free);
    if !c.readable || path !in s.statuses || s.statuses[path].state != StatusConflict then out
    else if s.closed || path in s.inFlight then out
    else if c.active.Some? then
      if c.active.value.kind == c.kind && SameIdentity(c.active.value, current)
      then out.(inFlight := out.inFlight[path := c.active.value]) else out
    else if !c.inspected then out
    else
      var op := ConflictOperation(c);
      var status := s.statuses[path].(operationId := c.id, stage := Some(StageQueued), changedPaths := op.conflictPaths, error := None);
      Durable(out, op, current, status, c.created, c.published, c.compensated)
  }

  // ---------------------------------------------------------------- one step

  /** What the holder of the coordinator allows, and what the parameters of a step stand for. */
  ghost predicate Enabled(s: ManagerState, step: Step)
    requires WellTyped(s)
  {
    match step
    case Enter(_) => s.holder == Free
    case Leave => s.holder.Admitting? || s.holder.Refreshed?
    case Capture => s.holder.Admitting?
    case Renew(_, _) => s.holder.Captured?
    case Evict => s.holder.Evicting?
    case Admit(a) => s.holder.Refreshed? && ReadsActive(s.rows, s.holder.current.repoPath, a.active) && (a.resume ==> a.kind == Sync)
                     && (a.kind == Sync || a.kind == Initialize)
    case AdmitConflict(c) =>
      s.holder.Admitting? && ReadsActive(s.rows, s.holder.current.repoPath, c.active)
      && (c.kind == ConflictComplete || c.kind == ConflictAbort)
      && SameIdentity(c.original, s.holder.current)
    case Pop => s.holder == Free && s.queue != [] && !s.closed
    case CheckpointJob(_, _, status, _) =>
      s.holder.Working? && status.path == PathOf(s.holder.job)
      && (status.state == StatusSyncing || status.state == StatusInitializing || status.state == StatusConflict)
    case FinishJob(e) => s.holder.Working? && (e.Ended? ==> e.status.path == PathOf(s.holder.job))
    case Complete => s.holder.Publishing?
    case Serve(rewritten) =>
      s.holder.Serving? && (rewritten.Some? ==>
                              rewritten.value.path in s.statuses && s.statuses[rewritten.value.path].state == StatusConflict
                              && rewritten.value.state == StatusConflict)
    case Abandon => s.closed && s.holder.Working?
    case Enqueue => true
    case Shut => true
  }

  ghost function Next(s: ManagerState, step: Step): ManagerState
    requires WellTyped(s) && Enabled(s, step)
  {
    match step
    case Enter(current) => s.(holder := Admitting(current))
    case Leave => s.(holder := Free)
    case Capture =>
      var current := s.holder.current;
      var i := IndexFor(s.queue, current.repoPath);
      s.(holder := if i == |s.queue| then Refreshed(current) else Captured(current, i, s.queue[i]))
    case Renew(found, stored) => Renewed(s, found, stored)
    case Evict =>
      var (current, i) := (s.holder.current, s.holder.index);
      s.(queue := s.queue[..i] + s.queue[i + 1..], inFlight := s.inFlight - {current.repoPath}, holder := Refreshed(current))
    case Admit(a) => Admitted(s, s.holder.current, a)
    case AdmitConflict(c) => AdmittedConflict(s, s.holder.current, c)
    case Pop =>
      var job := s.queue[0];
      s.(queue := s.queue[1..], served := s.served + [job.ticket], holder := if job.GitJob? then Working(job) else Serving(job))
    case CheckpointJob(checkpoint, stored, status, published) =>
      var w := Progress(s.holder.job.operation.id, checkpoint);
      if stored && Accepts(s.rows, w) then Publish(WriteRow(s, w), status, Preserve, published) else s
    case FinishJob(e) => Ending_(s, e)
    case Complete =>
      s.(inFlight := if s.holder.finished then s.inFlight - {PathOf(s.holder.job)} else s.inFlight, holder := Free)
    case Serve(rewritten) =>
      (if rewritten.Some? then Publish(s, rewritten.value, Preserve, Faults(true, true, true, true)) else s).(holder := Free)
    case Abandon => s.(holder := Free)
    case Enqueue => if s.closed then s else s.(queue := s.queue + [SyncJob(s.issued)], issued := s.issued + 1)
    case Shut => s.(closed := true)
  }

  /** What the holder's data always is. */
  predicate WellTyped(s: ManagerState) {
    match s.holder
    case Captured(current, i, job) => QueuedFor(s.queue, i, current.repoPath) && s.queue[i] == job
    case Evicting(current, i, job) => QueuedFor(s.queue, i, current.repoPath) && s.queue[i] == job
    case Working(job) => job.GitJob?
    case Publishing(job, _) => job.GitJob?
    case _ => true
  }

  /** freshJobSnapshot's answer for a captured job: unchanged, renamed, or stale. */
  function Renewed(s: ManagerState, found: Option<Identity>, stored: bool): ManagerState
    requires s.holder.Captured? && WellTyped(s)
  {
    var (current, i, job) := (s.holder.current, s.holder.index, s.holder.job);
    if found == Some(job.snapshot) then s.(holder := Refreshed(current))
    else if found == Some(current) && current.baseName != job.snapshot.baseName then
      var op := WithName(job.operation, current);
      s.(queue := s.queue[i := GitJob(job.ticket, op, current)], inFlight := s.inFlight[current.repoPath := op], holder := Refreshed(current))
    else
      var w := Close(job.operation.id, Failing(job.operation));
      if stored && Accepts(s.rows, w) then WriteRow(s, w).(holder := Evicting(current, i, job)) else s.(holder := Free)
  }

  /** The end of a job: its row, then its status, then who may see it. */
  function Ending_(s: ManagerState, e: Ending): ManagerState
    requires s.holder.Working? && WellTyped(s)
  {
    var job := s.holder.job;
    match e
    case Unwritten => s.(holder := Publishing(job, false))
    case StaleEnd(finish, stored) =>
      var w := Close(job.operation.id, finish);
      var finished := stored && Accepts(s.rows, w);
      (if finished then WriteRow(s, w) else s).(holder := Publishing(job, finished))
    case Ended(finish, stored, outcome, status, published) =>
      var w := Close(job.operation.id, finish);
      var finished := stored && Accepts(s.rows, w);
      var verdict := ClassifyGitOutcome(outcome);
      var closed := if finished then WriteRow(s, w) else s;
      Publish(closed, status.(state := verdict.state), verdict.failures, published).(holder := Publishing(job, finished))
  }
}
