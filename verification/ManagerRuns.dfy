/** The order of jobs, the failure budget, and the theorem over whole runs of the manager. */
module ManagerRuns {
  import opened Basics
  import opened CommitGraph
  import opened Journal
  import opened Statuses
  import opened ManagerState
  import opened ManagerSafety

  // ---------------------------------------------------------------- first in, first out

  function Tickets(queue: seq<Job>): seq<nat> {
    seq(|queue|, i requires 0 <= i < |queue| => queue[i].ticket)
  }

  ghost predicate Increasing(tickets: seq<nat>, below: nat) {
    (forall i, j :: 0 <= i < j < |tickets| ==> tickets[i] < tickets[j]) && forall i :: 0 <= i < |tickets| ==> tickets[i] < below
  }

  /** Jobs are queued, and leave, in the order of their tickets: what was served, then what waits. */
  ghost predicate Fifo(s: ManagerState) {
    Increasing(s.served + Tickets(s.queue), s.issued)
  }

  /** How a step may move the queue: not at all, one job with the next ticket at the end, one entry evicted,
      or the first entry served. */
  ghost predicate Moves(s: ManagerState, t: ManagerState) {
    var before, after := Tickets(s.queue), Tickets(t.queue);
    || (t.served == s.served && t.issued == s.issued && after == before)
    || (t.served == s.served && t.issued == s.issued + 1 && after == before + [s.issued])
    || (t.served == s.served && t.issued == s.issued && exists i :: 0 <= i < |before| && after == before[..i] + before[i + 1..])
    || (t.issued == s.issued && before != [] && t.served == s.served + [before[0]] && after == before[1..])
  }

  lemma MovesKeepOrder(s: ManagerState, t: ManagerState)
    requires Fifo(s) && Moves(s, t)
    ensures Fifo(t)
  {
    var before, after := Tickets(s.queue), Tickets(t.queue);
    if t.served == s.served && after != before && t.issued == s.issued {
      var i :| 0 <= i < |before| && after == before[..i] + before[i + 1..];
      var all := s.served + before;
      assert s.served + after == all[..|s.served| + i] + all[|s.served| + i + 1..];
    } else if t.served != s.served {
      assert t.served + after == s.served + before;
    } else if after != before {
      assert t.served + after == (s.served + before) + [s.issued];
    }
  }

  lemma DurableMoves(s: ManagerState, op: Operation, current: Identity, status: Status, created: bool, published: Faults, compensated: bool)
    ensures Moves(s, Durable(s, op, current, status, created, published, compensated))
  {
    var t := Durable(s, op, current, status, created, published, compensated);
    assert t.queue == s.queue || Tickets(t.queue) == Tickets(s.queue) + [s.issued];
  }

  lemma ResumeMoves(before: ManagerState, reset: ManagerState, current: Identity, a: Admission)
    requires reset.queue == before.queue && reset.issued == before.issued && reset.served == before.served
    ensures Moves(before, Resumed(before, reset, current, a))
  {
    if current.repoPath in before.statuses && a.trust.Some? {
      var op := NewOperation(a.id, current, a.kind, a.trust.value);
      var working := WorkingStatus(op, Some(before.statuses[current.repoPath].(state := StatusReady, operationId := "", stage := None, error := None)));
      DurableMoves(reset, op, current, working, a.created, a.published, a.compensated);
    }
  }

  lemma AdmitMoves(s: ManagerState, current: Identity, a: Admission)
    ensures Moves(s, Admitted(s, current, a))
  {
    var out := s.(holder := Free);
    var row := RowOf(s.statuses, current.repoPath);
    if a.trust.Some? {
      var op := NewOperation(a.id, current, a.kind, a.trust.value);
      DurableMoves(out, op, current, WorkingStatus(op, row), a.created, a.published, a.compensated);
    }
    if row.Some? {
      var ready := row.value.(state := StatusReady, operationId := "", stage := None, error := None);
      ResumeMoves(out, Publish(out, ready, Reset, a.resumed), current, a);
    }
  }

  lemma AdmitConflictMoves(s: ManagerState, current: Identity, c: ConflictAdmission)
    ensures Moves(s, AdmittedConflict(s, current, c))
  {
    if current.repoPath in s.statuses {
      var op := ConflictOperation(c);
      var status := s.statuses[current.repoPath].(operationId := c.id, stage := Some(StageQueued), changedPaths := op.conflictPaths, error := None);
      DurableMoves(s.(holder := Free), op, current, status, c.created, c.published, c.compensated);
    }
  }

  lemma EvictMoves(s: ManagerState)
    requires WellTyped(s) && s.holder.Evicting?
    ensures Moves(s, Next(s, Evict))
  {
    var i := s.holder.index;
    assert Tickets(Next(s, Evict).queue) == Tickets(s.queue)[..i] + Tickets(s.queue)[i + 1..];
  }

  lemma PopMoves(s: ManagerState)
    requires WellTyped(s) && Enabled(s, Pop)
    ensures Moves(s, Next(s, Pop))
  {
    assert Tickets(Next(s, Pop).queue) == Tickets(s.queue)[1..];
  }

  lemma RenewMoves(s: ManagerState, found: Option<Identity>, stored: bool)
    requires WellTyped(s) && s.holder.Captured?
    ensures Moves(s, Renewed(s, found, stored))
  {
    assert Tickets(Renewed(s, found, stored).queue) == Tickets(s.queue);
  }

  lemma EnqueueMoves(s: ManagerState)
    requires WellTyped(s)
    ensures Moves(s, Next(s, Enqueue))
  {
    assert s.closed || Tickets(Next(s, Enqueue).queue) == Tickets(s.queue) + [s.issued];
  }

  lemma StepMoves(s: ManagerState, step: Step)
    requires WellTyped(s) && Enabled(s, step)
    ensures Moves(s, Next(s, step))
  {
    match step
    case Admit(a) => AdmitMoves(s, s.holder.current, a);
    case AdmitConflict(c) => AdmitConflictMoves(s, s.holder.current, c);
    case Enqueue => EnqueueMoves(s);
    case Evict => EvictMoves(s);
    case Pop => PopMoves(s);
    case Renew(found, stored) => RenewMoves(s, found, stored);
    case FinishJob(e) => if !e.Unwritten? { EndingShape(s, e); }
    case _ =>
  }

  // ---------------------------------------------------------------- the failure budget

  /** The stored counter is what the row started from plus the increments since; an increment that brought it
      to the threshold has paused the row; there are never more than five. */
  ghost predicate BudgetHolds(b: Budget, row: Status) {
    && row.failures == b.start + b.recorded && b.recorded <= PAUSE_THRESHOLD
    && (b.recorded > 0 && row.failures >= PAUSE_THRESHOLD ==> row.state == StatusPaused)
  }

  ghost predicate RowOk(s: ManagerState, path: Path) {
    path in s.statuses ==> s.statuses[path].path == path && BudgetHolds(BudgetOf(s, path), s.statuses[path])
  }

  /** The path has a row that is not paused. */
  predicate Live(s: ManagerState, path: Path) {
    path in s.statuses && s.statuses[path].state != StatusPaused
  }

  ghost predicate Budgeted(s: ManagerState) {
    && (forall path :: RowOk(s, path))
    && (forall i, path :: QueuedFor(s.queue, i, path) ==> Live(s, path))
    && (s.holder.Working? && s.holder.job.GitJob? ==> Live(s, PathOf(s.holder.job)))
  }

  /** Only rows of this path differ. */
  ghost predicate SameRowsBut(s: ManagerState, t: ManagerState, path: Path) {
    forall p :: p != path ==>
                  (p in s.statuses <==> p in t.statuses) && (p in s.statuses ==> t.statuses[p] == s.statuses[p])
                  && BudgetOf(t, p) == BudgetOf(s, p)
  }

  lemma PublishTouchesOne(s: ManagerState, status: Status, action: FailureAction, f: Faults)
    ensures SameRowsBut(s, Publish(s, status, action, f), status.path)
  {}

  /** A publication for a row that is not paused keeps its budget; only an increment can pause it, or the
      state that was asked for. */
  lemma PublishKeepsBudget(s: ManagerState, status: Status, action: FailureAction, f: Faults)
    requires RowOk(s, status.path)
    requires action == Reset || status.path !in s.statuses || Live(s, status.path)
    ensures RowOk(Publish(s, status, action, f), status.path)
    ensures action != Increment && Publishes(s.statuses, status, f) ==>
              status.path in Publish(s, status, action, f).statuses
              && Publish(s, status, action, f).statuses[status.path].state == status.state
    ensures !Publishes(s.statuses, status, f) && status.path in s.statuses ==>
              Publish(s, status, action, f).statuses == s.statuses
  {}

  /** Every row but one, and every job but those of one path, are as they were. */
  lemma BudgetedBut(s: ManagerState, t: ManagerState, path: Path)
    requires Budgeted(s) && SameRowsBut(s, t, path) && RowOk(t, path)
    requires forall i, p :: QueuedFor(t.queue, i, p) && p != path ==> exists j :: QueuedFor(s.queue, j, p)
    requires (exists i :: QueuedFor(t.queue, i, path)) ==> Live(t, path)
    requires t.holder.Working? && t.holder.job.GitJob? ==>
               (PathOf(t.holder.job) == path && Live(t, path)) || (t.holder == s.holder && PathOf(t.holder.job) != path)
    ensures Budgeted(t)
  {
    forall p
      ensures RowOk(t, p)
    {
      assert RowOk(s, p);
    }
    forall i, p | QueuedFor(t.queue, i, p)
      ensures Live(t, p)
    {
      if p != path {
        var j :| QueuedFor(s.queue, j, p);
        assert Live(s, p);
      }
    }
  }

  /** An admission's effect on the status table and on the queue: at most one publication, at most one job. */
  ghost predicate PublishesOnce(s: ManagerState, t: ManagerState, path: Path, status: Status, published: Faults) {
    && t.holder == s.holder
    && ((t.statuses == s.statuses && t.budgets == s.budgets)
        || (t.statuses == Publish(s, status, Preserve, published).statuses && t.budgets == Publish(s, status, Preserve, published).budgets))
    && (t.queue == s.queue
        || (|t.queue| == |s.queue| + 1 && t.queue[..|s.queue|] == s.queue && QueuedFor(t.queue, |s.queue|, path)
            && Publishes(s.statuses, status, published) && t.statuses == Publish(s, status, Preserve, published).statuses))
  }

  lemma DurablePublishesOnce(s: ManagerState, op: Operation, current: Identity, status: Status, created: bool, published: Faults, compensated: bool)
    ensures PublishesOnce(s, Durable(s, op, current, status, created, published, compensated), current.repoPath, status, published)
  {}

  lemma PublishOnceKeepsBudget(s: ManagerState, t: ManagerState, path: Path, status: Status, published: Faults)
    requires Budgeted(s) && s.holder == Free && (forall i :: !QueuedFor(s.queue, i, path))
    requires status.path == path && status.state != StatusPaused && (path in s.statuses ==> Live(s, path))
    requires PublishesOnce(s, t, path, status, published)
    ensures Budgeted(t) && SameRowsBut(s, t, path)
  {
    assert RowOk(s, path);
    PublishTouchesOne(s, status, Preserve, published);
    PublishKeepsBudget(s, status, Preserve, published);
    var u := Publish(s, status, Preserve, published);
    assert RowOk(t, path) by {
      assert RowOk(u, path);
    }
    forall i, p | QueuedFor(t.queue, i, p) && p != path
      ensures QueuedFor(s.queue, i, p)
    {
      if i < |s.queue| {
        assert t.queue[..|s.queue|][i] == t.queue[i];
      }
    }
    if i :| QueuedFor(t.queue, i, path) {
      if i < |s.queue| {
        assert QueuedFor(s.queue, i, path);
      }
    }
    BudgetedBut(s, t, path);
  }

  lemma DurableKeepsBudget(s: ManagerState, op: Operation, current: Identity, status: Status, created: bool, published: Faults, compensated: bool)
    requires Safe(s) && Budgeted(s) && s.holder == Free && current.repoPath !in s.inFlight
    requires status.path == current.repoPath && status.state != StatusPaused
    requires status.path in s.statuses ==> Live(s, status.path)
    ensures Budgeted(Durable(s, op, current, status, created, published, compensated))
    ensures SameRowsBut(s, Durable(s, op, current, status, created, published, compensated), status.path)
  {
    NothingQueued(s, current.repoPath);
    DurablePublishesOnce(s, op, current, status, created, published, compensated);
    PublishOnceKeepsBudget(s, Durable(s, op, current, status, created, published, compensated), current.repoPath, status, published);
  }

  function ReadyRow(row: Status): Status {
    row.(state := StatusReady, operationId := "", stage := None, error := None)
  }

  lemma FreeKeepsBudget(s: ManagerState, holder: Holder)
    requires Budgeted(s) && !holder.Working?
    ensures Budgeted(s.(holder := holder))
  {
    var t := s.(holder := holder);
    forall path
      ensures RowOk(t, path)
    {
      assert RowOk(s, path);
    }
    forall i, path | QueuedFor(t.queue, i, path)
      ensures Live(t, path)
    {
      assert QueuedFor(s.queue, i, path);
    }
  }

  lemma NothingQueued(s: ManagerState, path: Path)
    requires Safe(s) && path !in s.inFlight
    ensures forall i :: !QueuedFor(s.queue, i, path)
  {
    assert forall i :: QueuedFor(s.queue, i, path) ==> InFlight(s, s.queue[i]);
  }

  lemma ResetKeepsBudget(s: ManagerState, path: Path, f: Faults)
    requires Safe(s) && Budgeted(s) && s.holder == Free && path in s.statuses && path !in s.inFlight
    requires Publishes(s.statuses, ReadyRow(s.statuses[path]), f)
    ensures var t := Publish(s, ReadyRow(s.statuses[path]), Reset, f);
            Budgeted(t) && SameRowsBut(s, t, path) && Live(t, path)
  {
    var ready := ReadyRow(s.statuses[path]);
    var t := Publish(s, ready, Reset, f);
    assert RowOk(s, path);
    PublishTouchesOne(s, ready, Reset, f);
    PublishKeepsBudget(s, ready, Reset, f);
    NothingQueued(s, path);
    BudgetedBut(s, t, path);
  }

  /** Putting the previous row and its budget back. */
  function Restore(before: ManagerState, tried: ManagerState, path: Path): ManagerState
    requires path in before.statuses
  {
    tried.(statuses := tried.statuses[path := before.statuses[path]], budgets := tried.budgets[path := BudgetOf(before, path)])
  }

  /** Resume's outcome in terms of the admission it tried. */
  lemma ResumedIs(before: ManagerState, reset: ManagerState, current: Identity, a: Admission)
    requires current.repoPath in before.statuses
    ensures var ready := ReadyRow(before.statuses[current.repoPath]);
            if a.trust.None? then
              Resumed(before, reset, current, a) == if a.restored then Restore(before, reset, current.repoPath) else reset
            else
              var op := NewOperation(a.id, current, a.kind, a.trust.value);
              var working := WorkingStatus(op, Some(ready));
              var tried := Durable(reset, op, current, working, a.created, a.published, a.compensated);
              Resumed(before, reset, current, a)
              == if !Queues(reset, op, working, a.created, a.published) && a.restored then Restore(before, tried, current.repoPath) else tried
  {}

  lemma RestoreKeepsBudget(before: ManagerState, tried: ManagerState, path: Path)
    requires Safe(before) && Budgeted(before) && before.holder == Free && path in before.statuses && path !in before.inFlight
    requires tried.queue == before.queue && tried.holder == Free && SameRowsBut(before, tried, path)
    ensures Budgeted(Restore(before, tried, path)) && SameRowsBut(before, Restore(before, tried, path), path)
  {
    assert RowOk(before, path);
    NothingQueued(before, path);
    BudgetedBut(before, Restore(before, tried, path), path);
  }

  /** Resume after a successful reset: whatever fails, the row ends reset, working, or restored. */
  lemma ResumeKeepsBudget(before: ManagerState, reset: ManagerState, current: Identity, a: Admission)
    requires Safe(before) && Budgeted(before) && before.holder == Free
    requires current.repoPath in before.statuses && current.repoPath !in before.inFlight
    requires reset == Publish(before, ReadyRow(before.statuses[current.repoPath]), Reset, a.resumed)
    requires Publishes(before.statuses, ReadyRow(before.statuses[current.repoPath]), a.resumed)
    ensures Budgeted(Resumed(before, reset, current, a))
    ensures SameRowsBut(before, Resumed(before, reset, current, a), current.repoPath)
  {
    var path := current.repoPath;
    var row := before.statuses[path];
    PublishIsSafe(before, ReadyRow(row), Reset, a.resumed);
    ResetKeepsBudget(before, path, a.resumed);
    var op := NewOperation(a.id, current, a.kind, if a.trust.Some? then a.trust.value else None);
    var working := WorkingStatus(op, Some(ReadyRow(row)));
    DurableKeepsBudget(reset, op, current, working, a.created, a.published, a.compensated);
    DurablePublishesOnce(reset, op, current, working, a.created, a.published, a.compensated);
    if a.trust.None? {
      RestoreKeepsBudget(before, reset, path);
    } else if !Queues(reset, op, working, a.created, a.published) {
      RestoreKeepsBudget(before, Durable(reset, op, current, working, a.created, a.published, a.compensated), path);
    }
  }

  lemma AdoptKeepsBudget(s: ManagerState, inFlight: map<Path, Operation>)
    requires Budgeted(s)
    ensures Budgeted(s.(inFlight := inFlight))
  {
    var t := s.(inFlight := inFlight);
    forall p
      ensures RowOk(t, p)
    {
      assert RowOk(s, p);
    }
    forall i, p | QueuedFor(t.queue, i, p)
      ensures Live(t, p)
    {
      assert QueuedFor(s.queue, i, p);
    }
  }

  /** What an admission may do: nothing but put a row in flight, resume a paused row, or admit durably a row
      that is not paused. */
  datatype AdmissionCase = OnlyInFlight | Resuming | Durably

  function CaseOf(out: ManagerState, current: Identity, a: Admission): AdmissionCase {
    var path := current.repoPath;
    var row := RowOf(out.statuses, path);
    if !a.readable || (a.kind == Sync && row.Some? && row.value.state == StatusNeedsReconnect) || out.closed
       || path in out.inFlight || a.active.Some? then OnlyInFlight
    else if a.resume then
      if row.Some? && row.value.state == StatusPaused && Publishes(out.statuses, ReadyRow(row.value), a.resumed) then Resuming else OnlyInFlight
    else if a.trust.Some? && (row.Some? ==> row.value.state != StatusPaused) then Durably else OnlyInFlight
  }

  lemma AdmissionCases(s: ManagerState, current: Identity, a: Admission)
    ensures var out, t := s.(holder := Free), Admitted(s, current, a);
            var row := RowOf(s.statuses, current.repoPath);
            match CaseOf(out, current, a)
            case OnlyInFlight => t == out.(inFlight := t.inFlight)
            case Resuming => t == Resumed(out, Publish(out, ReadyRow(row.value), Reset, a.resumed), current, a)
            case Durably =>
              var op := NewOperation(a.id, current, a.kind, a.trust.value);
              t == Durable(out, op, current, WorkingStatus(op, row), a.created, a.published, a.compensated)
  {}

  lemma CaseKeepsBudget(out: ManagerState, current: Identity, a: Admission)
    requires Safe(out) && Budgeted(out) && out.holder == Free
    ensures var row := RowOf(out.statuses, current.repoPath);
            match CaseOf(out, current, a)
            case OnlyInFlight => true
            case Resuming =>
              var t := Resumed(out, Publish(out, ReadyRow(row.value), Reset, a.resumed), current, a);
              Budgeted(t) && SameRowsBut(out, t, current.repoPath)
            case Durably =>
              var op := NewOperation(a.id, current, a.kind, a.trust.value);
              var t := Durable(out, op, current, WorkingStatus(op, row), a.created, a.published, a.compensated);
              Budgeted(t) && SameRowsBut(out, t, current.repoPath)
  {
    var row := RowOf(out.statuses, current.repoPath);
    match CaseOf(out, current, a)
    case OnlyInFlight =>
    case Resuming =>
      assert RowOk(out, current.repoPath);
      ResumeKeepsBudget(out, Publish(out, ReadyRow(row.value), Reset, a.resumed), current, a);
    case Durably =>
      var op := NewOperation(a.id, current, a.kind, a.trust.value);
      DurableKeepsBudget(out, op, current, WorkingStatus(op, row), a.created, a.published, a.compensated);
  }

  lemma AdmitKeepsBudget(s: ManagerState, a: Admission)
    requires Safe(s) && Budgeted(s) && Enabled(s, Admit(a))
    ensures Budgeted(Next(s, Admit(a)))
    ensures SameRowsBut(s, Next(s, Admit(a)), s.holder.current.repoPath)
    ensures !a.resume && s.holder.current.repoPath in s.statuses && !Live(s, s.holder.current.repoPath) ==>
              Next(s, Admit(a)).statuses == s.statuses
  {
    var current := s.holder.current;
    var out := s.(holder := Free);
    FreeKeepsBudget(s, Free);
    HolderIsSafe(s, Free);
    AdmissionCases(s, current, a);
    CaseKeepsBudget(out, current, a);
    AdoptKeepsBudget(out, Admitted(s, current, a).inFlight);
  }

  lemma AdmitConflictKeepsBudget(s: ManagerState, c: ConflictAdmission)
    requires Safe(s) && Budgeted(s) && Enabled(s, AdmitConflict(c))
    ensures Budgeted(Next(s, AdmitConflict(c)))
    ensures SameRowsBut(s, Next(s, AdmitConflict(c)), s.holder.current.repoPath)
    ensures s.holder.current.repoPath in s.statuses && !Live(s, s.holder.current.repoPath) ==>
              Next(s, AdmitConflict(c)).statuses == s.statuses
  {
    var current := s.holder.current;
    var path := current.repoPath;
    var out := s.(holder := Free);
    FreeKeepsBudget(s, Free);
    HolderIsSafe(s, Free);
    if path !in s.inFlight && path in s.statuses && s.statuses[path].state == StatusConflict {
      assert RowOk(s, path);
      if c.active.Some? {
        AdoptKeepsBudget(out, out.inFlight[path := c.active.value]);
      } else {
        var op := ConflictOperation(c);
        var status := s.statuses[path].(operationId := c.id, stage := Some(StageQueued), changedPaths := op.conflictPaths, error := None);
        DurableKeepsBudget(out, op, current, status, c.created, c.published, c.compensated);
      }
    }
  }

  lemma WorkedPath(s: ManagerState)
    requires Safe(s) && s.holder.Working?
    ensures forall i :: !QueuedFor(s.queue, i, PathOf(s.holder.job))
  {}

  lemma CheckpointKeepsBudget(s: ManagerState, step: Step)
    requires Safe(s) && Budgeted(s) && Enabled(s, step) && step.CheckpointJob?
    ensures Budgeted(Next(s, step)) && SameRowsBut(s, Next(s, step), PathOf(s.holder.job))
  {
    var path := PathOf(s.holder.job);
    var w := Progress(s.holder.job.operation.id, step.checkpoint);
    if step.stored && Accepts(s.rows, w) {
      var t := WriteRow(s, w);
      var u := Publish(t, step.status, Preserve, step.published);
      assert RowOk(s, path) && RowOk(t, path);
      PublishTouchesOne(t, step.status, Preserve, step.published);
      PublishKeepsBudget(t, step.status, Preserve, step.published);
      WorkedPath(s);
      BudgetedBut(s, u, path);
    }
  }

  lemma EndingStatuses(s: ManagerState, e: Ending)
    requires s.holder.Working? && WellTyped(s)
    ensures var t := Ending_(s, e);
            && t.queue == s.queue && t.holder.Publishing?
            && if e.Ended? then
                 var verdict := ClassifyGitOutcome(e.outcome);
                 var u := Publish(s, e.status.(state := verdict.state), verdict.failures, e.published);
                 t.statuses == u.statuses && t.budgets == u.budgets
               else t.statuses == s.statuses && t.budgets == s.budgets
  {
    if e.Ended? {
      var verdict := ClassifyGitOutcome(e.outcome);
      StatementsAreIndependent(s, Write.Close(s.holder.job.operation.id, e.finish), e.status.(state := verdict.state), verdict.failures, e.published);
    }
  }

  lemma FinishKeepsBudget(s: ManagerState, e: Ending)
    requires Safe(s) && Budgeted(s) && Enabled(s, FinishJob(e))
    ensures Budgeted(Ending_(s, e)) && SameRowsBut(s, Ending_(s, e), PathOf(s.holder.job))
  {
    var path := PathOf(s.holder.job);
    WorkedPath(s);
    EndingStatuses(s, e);
    assert RowOk(s, path);
    if e.Ended? {
      var verdict := ClassifyGitOutcome(e.outcome);
      var status := e.status.(state := verdict.state);
      PublishTouchesOne(s, status, verdict.failures, e.published);
      PublishKeepsBudget(s, status, verdict.failures, e.published);
    }
    BudgetedBut(s, Ending_(s, e), path);
  }

  // ---------------------------------------------------------------- runs

  ghost predicate Good(s: ManagerState) {
    Safe(s) && Fifo(s) && Budgeted(s)
  }

  predicate Resumes(s: ManagerState, step: Step, path: Path) {
    step.Admit? && step.a.resume && s.holder.Refreshed? && s.holder.current.repoPath == path
  }

  predicate Paused(s: ManagerState, path: Path) {
    path in s.statuses && s.statuses[path].state == StatusPaused
  }

  ghost predicate StaysPaused(s: ManagerState, t: ManagerState, path: Path) {
    Paused(s, path) ==> path in t.statuses && t.statuses[path] == s.statuses[path]
  }

  lemma AdmissionKeepsBudget(s: ManagerState, step: Step)
    requires Safe(s) && Budgeted(s) && Enabled(s, step) && (step.Admit? || step.AdmitConflict?)
    ensures Budgeted(Next(s, step))
    ensures forall path :: !Resumes(s, step, path) ==> StaysPaused(s, Next(s, step), path)
  {
    match step
    case Admit(a) => AdmitKeepsBudget(s, a);
    case AdmitConflict(c) => AdmitConflictKeepsBudget(s, c);
  }

  lemma JobKeepsBudget(s: ManagerState, step: Step)
    requires Safe(s) && Budgeted(s) && Enabled(s, step) && (step.CheckpointJob? || step.FinishJob? || step.Serve?)
    ensures Budgeted(Next(s, step))
    ensures forall path :: !Resumes(s, step, path) ==> StaysPaused(s, Next(s, step), path)
  {
    match step
    case CheckpointJob(_, _, _, _) => CheckpointKeepsBudget(s, step);
    case FinishJob(e) => FinishKeepsBudget(s, e);
    case Serve(rewritten) => ServeKeepsBudget(s, rewritten);
  }

  /** Every step keeps the count of every budget, and only Resume changes a paused row. */
  lemma StepKeepsBudget(s: ManagerState, step: Step)
    requires Safe(s) && Budgeted(s) && Enabled(s, step)
    ensures Budgeted(Next(s, step))
    ensures forall path :: !Resumes(s, step, path) ==> StaysPaused(s, Next(s, step), path)
  {
    if step.Admit? || step.AdmitConflict? {
      AdmissionKeepsBudget(s, step);
    } else if step.CheckpointJob? || step.FinishJob? || step.Serve? {
      JobKeepsBudget(s, step);
    } else {
      QueueStepsKeepBudget(s, step);
    }
  }

  lemma ServeKeepsBudget(s: ManagerState, rewritten: Option<Status>)
    requires Safe(s) && Budgeted(s) && Enabled(s, Serve(rewritten))
    ensures Budgeted(Next(s, Serve(rewritten)))
    ensures forall path :: StaysPaused(s, Next(s, Serve(rewritten)), path)
  {
    FreeKeepsBudget(s, Free);
    if rewritten.Some? {
      var f := Faults(true, true, true, true);
      var free := s.(holder := Free);
      assert RowOk(s, rewritten.value.path);
      PublishTouchesOne(free, rewritten.value, Preserve, f);
      PublishKeepsBudget(free, rewritten.value, Preserve, f);
      BudgetedBut(free, Publish(free, rewritten.value, Preserve, f), rewritten.value.path);
    }
  }

  /** With the status table untouched, only the jobs matter. */
  lemma SameStatusesKeepBudget(s: ManagerState, t: ManagerState)
    requires Budgeted(s) && t.statuses == s.statuses && t.budgets == s.budgets
    requires forall i, path :: QueuedFor(t.queue, i, path) ==> exists j :: QueuedFor(s.queue, j, path)
    requires t.holder.Working? && t.holder.job.GitJob? ==> t.holder == s.holder || exists j :: QueuedFor(s.queue, j, PathOf(t.holder.job))
    ensures Budgeted(t)
  {
    forall path
      ensures RowOk(t, path)
    {
      assert RowOk(s, path);
    }
    forall i, path | QueuedFor(t.queue, i, path)
      ensures Live(t, path)
    {
      var j :| QueuedFor(s.queue, j, path);
    }
  }

  lemma EvictKeepsBudget(s: ManagerState)
    requires WellTyped(s) && Budgeted(s) && s.holder.Evicting?
    ensures Budgeted(Next(s, Evict))
  {
    var t := Next(s, Evict);
    forall i, path | QueuedFor(t.queue, i, path)
      ensures exists j :: QueuedFor(s.queue, j, path)
    {
      assert QueuedFor(s.queue, if i < s.holder.index then i else i + 1, path);
    }
    SameStatusesKeepBudget(s, t);
  }

  lemma PopKeepsBudget(s: ManagerState)
    requires WellTyped(s) && Budgeted(s) && Enabled(s, Pop)
    ensures Budgeted(Next(s, Pop))
  {
    var t := Next(s, Pop);
    forall i, path | QueuedFor(t.queue, i, path)
      ensures exists j :: QueuedFor(s.queue, j, path)
    {
      assert QueuedFor(s.queue, i + 1, path);
    }
    if s.queue[0].GitJob? {
      assert QueuedFor(s.queue, 0, PathOf(s.queue[0]));
    }
    SameStatusesKeepBudget(s, t);
  }

  lemma RenewKeepsBudget(s: ManagerState, found: Option<Identity>, stored: bool)
    requires WellTyped(s) && Budgeted(s) && s.holder.Captured?
    ensures Budgeted(Renewed(s, found, stored)) && Renewed(s, found, stored).statuses == s.statuses
  {
    var t := Renewed(s, found, stored);
    forall i, path | QueuedFor(t.queue, i, path)
      ensures exists j :: QueuedFor(s.queue, j, path)
    {
      assert QueuedFor(s.queue, i, path);
    }
    SameStatusesKeepBudget(s, t);
  }

  /** The steps that publish no status. */
  lemma QueueStepsKeepBudget(s: ManagerState, step: Step)
    requires Safe(s) && Budgeted(s) && Enabled(s, step)
    requires step.Enter? || step.Leave? || step.Capture? || step.Renew? || step.Evict? || step.Pop? || step.Complete?
             || step.Abandon? || step.Enqueue? || step.Shut?
    ensures Budgeted(Next(s, step)) && Next(s, step).statuses == s.statuses
  {
    if step.Evict? {
      EvictKeepsBudget(s);
    } else if step.Pop? {
      PopKeepsBudget(s);
    } else if step.Renew? {
      RenewKeepsBudget(s, step.found, step.stored);
    } else {
      var t := Next(s, step);
      assert forall i, path :: QueuedFor(t.queue, i, path) ==> QueuedFor(s.queue, i, path);
      SameStatusesKeepBudget(s, t);
    }
  }

  lemma StepIsGood(s: ManagerState, step: Step)
    requires Good(s) && Enabled(s, step)
    ensures Good(Next(s, step))
    ensures RowsKept(s.rows, Next(s, step).rows) && s.served <= Next(s, step).served
    ensures forall path :: !Resumes(s, step, path) ==> StaysPaused(s, Next(s, step), path)
  {
    StepIsSafe(s, step);
    StepMoves(s, step);
    MovesKeepOrder(s, Next(s, step));
    StepKeepsBudget(s, step);
  }

  ghost predicate Possible(s: ManagerState, steps: seq<Step>)
    decreases |steps|
  {
    steps == [] || (WellTyped(s) && Enabled(s, steps[0]) && Possible(Next(s, steps[0]), steps[1..]))
  }

  ghost function After(s: ManagerState, steps: seq<Step>): ManagerState
    requires Possible(s, steps)
    decreases |steps|
  {
    if steps == [] then s else After(Next(s, steps[0]), steps[1..])
  }

  /** Some step of the run is a Resume of this path. */
  ghost predicate ResumedIn(s: ManagerState, steps: seq<Step>, path: Path)
    requires Possible(s, steps)
    decreases |steps|
  {
    steps != [] && (Resumes(s, steps[0], path) || ResumedIn(Next(s, steps[0]), steps[1..], path))
  }

  /** Every interleaving: each path has at most one job queued or worked on, that job is the one in flight and
      is active in the journal, jobs are served in the order they were queued, finished journal rows never
      change, no row records more than five failures between two resets, and a paused row is left only
      through Resume. */
  lemma {:induction false} ManagerRun(s: ManagerState, steps: seq<Step>)
    requires Good(s) && Possible(s, steps)
    ensures Good(After(s, steps))
    ensures RowsKept(s.rows, After(s, steps).rows)
    ensures s.served <= After(s, steps).served
    ensures forall path :: !ResumedIn(s, steps, path) ==> StaysPaused(s, After(s, steps), path)
    decreases |steps|
  {
    if steps != [] {
      var t := Next(s, steps[0]);
      StepIsGood(s, steps[0]);
      ManagerRun(t, steps[1..]);
      forall path | !ResumedIn(s, steps, path)
        ensures StaysPaused(s, After(s, steps), path)
      {
        assert StaysPaused(s, t, path) && StaysPaused(t, After(t, steps[1..]), path);
      }
    }
  }

  /** In particular two jobs of one path never exist together. */
  lemma OneJobPerPath(s: ManagerState, i: int, j: int, path: Path)
    requires Good(s) && QueuedFor(s.queue, i, path) && QueuedFor(s.queue, j, path)
    ensures i == j && s.inFlight[path].id == s.queue[i].operation.id
    ensures s.holder.Working? ==> PathOf(s.holder.job) != path
    ensures !s.holder.Evicting? ==> ActiveFor(s.rows, s.queue[i].operation.id, path)
  {
    assert InFlight(s, s.queue[i]);
  }

  /** A durable admission that queues nothing, and whose compensation succeeds, touches at most the row of its
      path and leaves no operation active that was not active before. */
  lemma DurableCompensates(s: ManagerState, op: Operation, current: Identity, status: Status, created: bool, published: Faults)
    requires !Queues(s, op, status, created, published)
    ensures var t := Durable(s, op, current, status, created, published, true);
            forall id, path :: ActiveFor(t.rows, id, path) ==> ActiveFor(s.rows, id, path)
  {
    if created && Accepts(s.rows, Create(op)) {
      ClosedAgain(s.rows, op);
    }
  }

  /** Creating a row and closing it again leaves nothing new active. */
  lemma ClosedAgain(rows: Rows, op: Operation)
    requires Accepts(rows, Create(op))
    ensures var w := Write.Close(op.id, Failing(op));
            && Accepts(Apply(rows, Create(op)), w)
            && forall id, path :: ActiveFor(Apply(Apply(rows, Create(op)), w), id, path) ==> ActiveFor(rows, id, path)
  {}

  /** A Resume that queues nothing, and whose compensations succeed, leaves the status table as it was and no
      operation active that was not active before. */
  lemma ResumeCompensates(s: ManagerState, a: Admission)
    requires Good(s) && Enabled(s, Admit(a)) && a.resume && Paused(s, s.holder.current.repoPath)
    requires a.restored && a.compensated
    requires Next(s, Admit(a)).queue == s.queue
    ensures Next(s, Admit(a)).statuses == s.statuses
    ensures forall id, path :: ActiveFor(Next(s, Admit(a)).rows, id, path) ==> ActiveFor(s.rows, id, path)
  {
    var current := s.holder.current;
    var path := current.repoPath;
    var row := s.statuses[path];
    var out := s.(holder := Free);
    assert RowOk(s, path);
    if a.readable && !s.closed && path !in s.inFlight && a.active.None? && Publishes(out.statuses, ReadyRow(row), a.resumed) {
      var reset := Publish(out, ReadyRow(row), Reset, a.resumed);
      PublishTouchesOne(out, ReadyRow(row), Reset, a.resumed);
      RestoredResume(out, reset, current, a);
    }
  }

  lemma RestoredStatuses(before: ManagerState, tried: ManagerState, path: Path)
    requires path in before.statuses && SameRowsBut(before, tried, path)
    ensures tried.statuses[path := before.statuses[path]] == before.statuses
  {
    var restored := tried.statuses[path := before.statuses[path]];
    assert forall p :: p in restored <==> p in before.statuses;
  }

  lemma PublishedOnce(s: ManagerState, t: ManagerState, path: Path, status: Status, published: Faults)
    requires PublishesOnce(s, t, path, status, published) && status.path == path
    ensures SameRowsBut(s, t, path)
  {
    PublishTouchesOne(s, status, Preserve, published);
  }

  lemma RestoredResume(before: ManagerState, reset: ManagerState, current: Identity, a: Admission)
    requires current.repoPath in before.statuses && a.restored && a.compensated
    requires SameRowsBut(before, reset, current.repoPath) && reset.rows == before.rows && reset.queue == before.queue
    requires Resumed(before, reset, current, a).queue == before.queue
    ensures Resumed(before, reset, current, a).statuses == before.statuses
    ensures forall id, path :: ActiveFor(Resumed(before, reset, current, a).rows, id, path) ==> ActiveFor(before.rows, id, path)
  {
    var path := current.repoPath;
    if a.trust.None? {
      RestoredStatuses(before, reset, path);
    } else {
      var op := NewOperation(a.id, current, a.kind, a.trust.value);
      var working := WorkingStatus(op, Some(ReadyRow(before.statuses[path])));
      var tried := Durable(reset, op, current, working, a.created, a.published, true);
      DurablePublishesOnce(reset, op, current, working, a.created, a.published, true);
      PublishedOnce(reset, tried, path, working, a.published);
      RestoredStatuses(before, tried, path);
      if !Queues(reset, op, working, a.created, a.published) {
        DurableCompensates(reset, op, current, working, a.created, a.published);
      }
    }
  }
}
