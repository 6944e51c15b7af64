/** The Git manager: its fields, and the sections that change them, each against its step of the state machine. */
module Manager {
  import opened Basics
  import opened CommitGraph
  import opened Journal
  import opened Statuses
  import opened ManagerState
  import opened ManagerSafety
  import opened ManagerRuns
  import opened Admissions

  datatype Answer = Accepted(operation: Operation) | Duplicate(operation: Operation) | Declined

  class GitManager {
    var queue: seq<Job>
    var inFlight: map<Path, Operation>
    var closed: bool
    var rows: Rows
    var statuses: StatusTable
    var holder: Holder
    var issued: nat
    ghost var served: seq<nat>
    ghost var budgets: map<Path, Budget>

    ghost function View(): ManagerState
      reads this
    {
      ManagerState(queue, inFlight, closed, rows, statuses, holder, issued, served, budgets)
    }

    /** A manager over what a process finds in the database. */
    constructor (journal: Rows, table: StatusTable)
      requires Wellformed(journal) && forall path :: path in table ==> table[path].path == path
      ensures Good(View()) && rows == journal && statuses == table && queue == [] && holder == Free
      ensures !closed && inFlight == map[] && issued == 0 && served == []
    {
      queue, inFlight, closed, rows, statuses := [], map[], false, journal, table;
      holder, issued, served, budgets := Free, 0, [], map[];
      new;
      assert forall path :: RowOk(View(), path);
    }

    /** applyStatus */
    method ApplyStatus(status: Status, action: FailureAction, f: Faults) returns (ok: bool)
      modifies this`statuses, this`budgets
      ensures View() == Publish(old(View()), status, action, f)
      ensures ok <==> Publishes(old(statuses), status, f)
    {
      budgets := Publish(View(), status, action, f).budgets;
      statuses, ok := PublishStatus(statuses, status, action, f);
    }

    /** One journal statement. */
    method WriteJournal(w: Write, stored: bool) returns (ok: bool)
      modifies this`rows
      ensures ok <==> stored && Accepts(old(rows), w)
      ensures rows == if ok then Apply(old(rows), w) else old(rows)
    {
      rows, ok := Attempt(rows, w, stored);
    }

    /** The first section of refreshQueued: find the queued job of the path. */
    method Capture()
      requires holder.Admitting?
      modifies this`holder
      ensures View() == Next(old(View()), Step.Capture)
    {
      var path := holder.current.repoPath;
      var index := 0;
      while index < |queue| && !(queue[index].GitJob? && PathOf(queue[index]) == path)
        invariant 0 <= index <= |queue|
        invariant forall k :: 0 <= k < index ==> !QueuedFor(queue, k, path)
      {
        index := index + 1;
      }
      FirstIndex(queue, path, index);
      holder := if index == |queue| then Refreshed(holder.current) else Captured(holder.current, index, queue[index]);
    }

    static lemma {:induction false} FirstIndex(jobs: seq<Job>, path: Path, index: nat)
      requires index <= |jobs| && (index < |jobs| ==> QueuedFor(jobs, index, path))
      requires forall k :: 0 <= k < index ==> !QueuedFor(jobs, k, path)
      ensures IndexFor(jobs, path) == index
    {
      var i := IndexFor(jobs, path);
      assert i < index ==> QueuedFor(jobs, i, path);
    }

    /** The rest of refreshQueued for a captured job: keep it, rename it, or close its row. */
    method Renew(found: Option<Identity>, stored: bool)
      requires holder.Captured? && Good(View())
      modifies this`queue, this`inFlight, this`rows, this`holder
      ensures View() == Renewed(old(View()), found, stored)
    {
      var current, index, job := holder.current, holder.index, holder.job;
      if found == Some(job.snapshot) {
        holder := Refreshed(current);
      } else if found == Some(current) && current.baseName != job.snapshot.baseName {
        var renamed := WithName(queue[index].operation, current);
        queue := queue[index := GitJob(job.ticket, renamed, current)];
        inFlight := inFlight[current.repoPath := renamed];
        holder := Refreshed(current);
      } else {
        var finished := WriteJournal(Write.Close(job.operation.id, Failing(job.operation)), stored);
        holder := if finished then Evicting(current, index, job) else Free;
      }
    }

    /** The last section of refreshQueued: the captured index still names the job whose row was closed. */
    method Evict()
      requires holder.Evicting? && Good(View())
      modifies this`queue, this`inFlight, this`holder
      ensures View() == Next(old(View()), Step.Evict)
      ensures old(queue[holder.index]) == old(holder.job)
    {
      var index := holder.index;
      queue := queue[..index] + queue[index + 1..];
      inFlight := inFlight - {holder.current.repoPath};
      holder := Refreshed(holder.current);
    }

    /** queuedOperationIdentityLocked */
    method QueuedIdentity(op: Operation, current: Identity) returns (r: Operation)
      ensures r == Effective(queue, op, current)
    {
      for i := 0 to |queue|
        invariant forall k :: 0 <= k < i ==> !(queue[k].GitJob? && queue[k].operation.id == op.id && queue[k].snapshot == current)
      {
        if queue[i].GitJob? && queue[i].operation.id == op.id && queue[i].snapshot == current {
          return WithName(op, current);
        }
      }
      r := op;
    }

    /** The durable half of an admission. */
    method AdmitDurably(op: Operation, current: Identity, status: Status, created: bool, published: Faults, compensated: bool)
      returns (answer: Answer)
      modifies this`queue, this`inFlight, this`rows, this`statuses, this`budgets, this`issued
      ensures View() == Durable(old(View()), op, current, status, created, published, compensated)
      ensures answer == if Queues(old(View()), op, status, created, published) then Accepted(op) else Declined
      ensures JobQueued(old(queue), answer)
    {
      var journalled := WriteJournal(Create(op), created);
      if !journalled {
        return Declined;
      }
      var announced := ApplyStatus(status, Preserve, published);
      if !announced {
        var finished := WriteJournal(Write.Close(op.id, Failing(op)), compensated);
        if !finished {
          inFlight := inFlight[current.repoPath := op];
        }
        return Declined;
      }
      inFlight := inFlight[current.repoPath := op];
      queue := queue + [GitJob(issued, op, current)];
      issued := issued + 1;
      answer := Accepted(op);
    }

    /** What is asked for is welcome, and already in flight, or journalled as active. */
    static ghost predicate IsUnderWay(s: ManagerState, current: Identity, a: Admission) {
      var path := current.repoPath;
      var row := RowOf(s.statuses, path);
      && a.readable && !s.closed
      && !(a.kind == Sync && row.Some? && row.value.state == StatusNeedsReconnect)
      && (row.Some? && row.value.state == StatusPaused ==> a.resume)
      && (path in s.inFlight || a.active.Some?)
      && var known := if path in s.inFlight then s.inFlight[path] else Effective(s.queue, a.active.value, current);
         ForBase(known, current) && (a.resume ==> known.kind == Sync && row.Some? && row.value.state == StatusSyncing)
    }

    /** The last section of queueOperationWithResume. */
    method Admit(a: Admission) returns (answer: Answer)
      requires holder.Refreshed? && Good(View()) && Enabled(View(), Step.Admit(a))
      modifies this`queue, this`inFlight, this`rows, this`statuses, this`budgets, this`issued, this`holder
      ensures View() == Admitted(old(View()), old(holder.current), a)
      ensures JobQueued(old(queue), answer)
      ensures answer.Duplicate? ==> old(holder.current).repoPath in inFlight
                                    && inFlight[old(holder.current).repoPath].id == answer.operation.id
      ensures answer.Duplicate? <==> IsUnderWay(old(View()), old(holder.current), a)
    {
      var current := holder.current;
      var path := current.repoPath;
      assert RowOk(View(), path);
      holder := Free;
      if !a.readable {
        return Declined;
      }
      var row := RowOf(statuses, path);
      if a.kind == Sync && row.Some? && row.value.state == StatusNeedsReconnect {
        return Declined;
      }
      if !a.resume && row.Some? && row.value.state == StatusPaused {
        return Declined;
      }
      if closed {
        return Declined;
      }
      if path in inFlight {
        var op := inFlight[path];
        var same := SameIdentity(op, current)
                    && (!a.resume || (op.kind == Sync && row.Some? && row.value.state == StatusSyncing));
        return if same then Duplicate(op) else Declined;
      }
      if a.active.Some? {
        var op := QueuedIdentity(a.active.value, current);
        if SameIdentity(op, current) && (!a.resume || (op.kind == Sync && row.Some? && row.value.state == StatusSyncing)) {
          inFlight := inFlight[path := op];
          return Duplicate(op);
        }
        return Declined;
      }
      if a.resume {
        if row.None? || row.value.state != StatusPaused {
          return Declined;
        }
        answer := ResumePaused(current, row.value, a);
        return;
      }
      if a.trust.None? {
        return Declined;
      }
      var op := NewOperation(a.id, current, a.kind, a.trust.value);
      answer := AdmitDurably(op, current, WorkingStatus(op, row), a.created, a.published, a.compensated);
    }

    /** Resume: reset the row, admit, and put the row back when the admission fails. */
    method ResumePaused(current: Identity, previous: Status, a: Admission) returns (answer: Answer)
      requires RowOf(statuses, current.repoPath) == Some(previous) && previous.path == current.repoPath
      modifies this`queue, this`inFlight, this`rows, this`statuses, this`budgets, this`issued
      ensures var ready := ReadyRow(previous);
              View() == if !Publishes(old(statuses), ready, a.resumed) then old(View())
                        else Resumed(old(View()), Publish(old(View()), ready, Reset, a.resumed), current, a)
      ensures JobQueued(old(queue), answer) && !answer.Duplicate?
    {
      ghost var before := View();
      var reset := ApplyStatus(ReadyRow(previous), Reset, a.resumed);
      if !reset {
        budgets := before.budgets;
        return Declined;
      }
      answer := AdmitAfterReset(current, previous, a, before);
    }

    /** An accepted job is the last of the queue; any other answer queues nothing. */
    ghost predicate JobQueued(before: seq<Job>, answer: Answer)
      reads this`queue
    {
      if answer.Accepted? then
        |queue| == |before| + 1 && queue[..|before|] == before && queue[|before|].GitJob? && queue[|before|].operation == answer.operation
      else queue == before
    }

    method AdmitAfterReset(current: Identity, previous: Status, a: Admission, ghost before: ManagerState) returns (answer: Answer)
      requires RowOf(before.statuses, current.repoPath) == Some(previous)
      modifies this`queue, this`inFlight, this`rows, this`statuses, this`budgets, this`issued
      ensures View() == Resumed(before, old(View()), current, a)
      ensures JobQueued(old(queue), answer) && !answer.Duplicate?
    {
      ResumedIs(before, View(), current, a);
      answer := Declined;
      if a.trust.Some? {
        var op := NewOperation(a.id, current, a.kind, a.trust.value);
        answer := AdmitDurably(op, current, WorkingStatus(op, Some(ReadyRow(previous))), a.created, a.published, a.compensated);
      }
      if answer == Declined && a.restored {
        statuses := statuses[current.repoPath := previous];
        budgets := budgets[current.repoPath := BudgetOf(before, current.repoPath)];
      }
    }

    /** enqueueSynchronous */
    method EnqueueSynchronous() returns (ok: bool)
      modifies this`queue, this`issued
      ensures View() == Next(old(View()).(holder := Free), Step.Enqueue).(holder := holder)
      ensures ok <==> !closed
    {
      if closed {
        return false;
      }
      queue := queue + [SyncJob(issued)];
      issued := issued + 1;
      ok := true;
    }

    /** Close */
    method Close()
      modifies this`closed
      ensures View() == old(View()).(closed := true)
    {
      closed := true;
    }

    /** The worker takes the first job of the queue. */
    method Pop() returns (job: Option<Job>)
      requires holder == Free
      modifies this`queue, this`served, this`holder
      ensures job.None? <==> old(closed) || old(queue) == []
      ensures job.None? ==> View() == old(View())
      ensures job.Some? ==> View() == Next(old(View()), Step.Pop) && job.value == old(queue)[0]
    {
      if closed || queue == [] {
        return None;
      }
      var first := queue[0];
      queue := queue[1..];
      served := served + [first.ticket];
      holder := if first.GitJob? then Working(first) else Serving(first);
      job := Some(first);
    }

    /** The progress callback of a running job: the checkpoint first, the status only once it is stored. */
    method SaveProgress(checkpoint: Checkpoint, stored: bool, status: Status, published: Faults) returns (ok: bool)
      requires holder.Working? && Good(View()) && Enabled(View(), Step.CheckpointJob(checkpoint, stored, status, published))
      modifies this`rows, this`statuses, this`budgets
      ensures View() == Next(old(View()), Step.CheckpointJob(checkpoint, stored, status, published))
      ensures ok <==> stored && Publishes(old(statuses), status, published)
    {
      var saved := WriteJournal(Progress(holder.job.operation.id, checkpoint), stored);
      assert Accepts(old(rows), Progress(holder.job.operation.id, checkpoint));
      if !saved {
        return false;
      }
      ok := ApplyStatus(status, Preserve, published);
    }

    /** finishSuccess and finishFailure: close the row, then publish the classified status whatever came of it. */
    method FinishJob(finish: Finish, stored: bool, outcome: Outcome, status: Status, published: Faults) returns (finished: bool)
      requires holder.Working? && holder.job.GitJob? && status.path == PathOf(holder.job)
      modifies this`rows, this`statuses, this`budgets, this`holder
      ensures View() == Next(old(View()), Step.FinishJob(Ended(finish, stored, outcome, status, published)))
      ensures finished <==> stored && Accepts(old(rows), Write.Close(old(holder).job.operation.id, finish))
      ensures Publishes(old(statuses), status, published) ==> ShownIn(statuses, old(statuses), status, outcome)
    {
      var job := holder.job;
      finished := WriteJournal(Write.Close(job.operation.id, finish), stored);
      var verdict := ClassifyGitOutcome(outcome);
      var shown := ApplyStatus(status.(state := verdict.state), verdict.failures, published);
      if shown {
        OutcomeIsShown(old(statuses), status, outcome, published);
      }
      holder := Publishing(job, finished);
    }

    /** finishAbortSuccess: the status first, and the row only once the status is stored. To everybody else this is
        the ending whose row is not stored when the status is not. */
    method FinishAbort(finish: Finish, stored: bool, outcome: Outcome, status: Status, published: Faults) returns (finished: bool)
      requires holder.Working? && holder.job.GitJob? && status.path == PathOf(holder.job)
      modifies this`rows, this`statuses, this`budgets, this`holder
      ensures View() == Next(old(View()), Step.FinishJob(Ended(finish, stored && Publishes(old(statuses), status, published), outcome, status, published)))
      ensures finished <==> Publishes(old(statuses), status, published) && stored && Accepts(old(rows), Write.Close(old(holder).job.operation.id, finish))
      ensures Publishes(old(statuses), status, published) ==> ShownIn(statuses, old(statuses), status, outcome)
    {
      var job := holder.job;
      var verdict := ClassifyGitOutcome(outcome);
      StatementsAreIndependent(View(), Write.Close(job.operation.id, finish), status.(state := verdict.state), verdict.failures, published);
      var shown := ApplyStatus(status.(state := verdict.state), verdict.failures, published);
      finished := false;
      if shown {
        OutcomeIsShown(old(statuses), status, outcome, published);
        finished := WriteJournal(Write.Close(job.operation.id, finish), stored);
      }
      holder := Publishing(job, finished);
    }

    /** completeTerminal, after which the worker gives the coordinator up. */
    method CompleteTerminal()
      requires holder.Publishing? && holder.job.GitJob?
      modifies this`inFlight, this`holder
      ensures View() == Next(old(View()), Step.Complete)
    {
      if holder.finished {
        inFlight := inFlight - {PathOf(holder.job)};
      }
      holder := Free;
    }
  }
}
