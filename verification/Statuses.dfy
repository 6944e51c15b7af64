/** The Git status table and the failure budget kept in it. */
module Statuses {
  import opened Basics
  import opened CommitGraph
  import opened Errors
  import opened Journal

  datatype GitState =
    | StatusUnconfigured | StatusInitializing | StatusReady | StatusSyncing
    | StatusError | StatusPaused | StatusConflict | StatusNeedsReconnect

  /** One row; times are milliseconds. */
  datatype Status = Status(
    base: string,
    path: Path,
    state: GitState,
    operationId: string,
    stage: Option<Stage>,
    failures: nat,
    lastAttempt: Option<int>,
    lastSuccess: Option<int>,
    changedPaths: set<Path>,
    remote: Oid,
    error: Option<ErrorCode>)

  type StatusTable = map<Path, Status>

  datatype FailureAction = Preserve | Reset | Increment

  const PAUSE_THRESHOLD := 5

  /** The row one guarded UPDATE leaves: the counter is derived from the old row, and the threshold pauses. */
  function Applied(row: Status, status: Status, action: FailureAction): Status {
    status.(state := if action == Increment && row.failures + 1 >= PAUSE_THRESHOLD then StatusPaused else status.state,
    failures := match action
      case Increment => row.failures + 1
      case Reset => 0
      case Preserve => row.failures)
  }

  /** ApplyTransition: updates nothing when the path has no row. */
  function ApplyTransition(table: StatusTable, status: Status, action: FailureAction): StatusTable {
    if status.path in table then table[status.path := Applied(table[status.path], status, action)] else table
  }

  // ---------------------------------------------------------------- classification of outcomes

  datatype Outcome = Outcome(kind: Kind, state: State, existing: GitState, code: Option<ErrorCode>)
  datatype Classification = Classification(state: GitState, failures: FailureAction)

  /** gitOperationalFailure: failures that are nobody's decision. An unnamed code counts. */
  predicate Operational(code: Option<ErrorCode>) {
    match code
    case None => true
    case Some(c) =>
      c !in {GitConflict, ConflictNotFound, ConflictStale, ConflictUnresolved, ConflictUnsupported, MergeNotInProgress,
             RecoveryRequired, Interrupted, RepositoryRootMismatch, BackupMismatch, NeedsReconnect, BranchDeleted,
             HistoryRewritten, IdentityMissing, OriginMismatch, NotRepository, InvalidBranch, ConfirmationRequired,
             Canceled, PausedByUser, NotPaused}
  }

  /** ClassifyGitOutcome */
  function ClassifyGitOutcome(o: Outcome): Classification {
    if o.state == Succeeded && o.kind != ConflictAbort then Classification(StatusReady, Reset)
    else if o.state == Succeeded then Classification(StatusPaused, Preserve)
    else if o.state == Conflict || o.code == Some(GitConflict) then Classification(StatusConflict, Preserve)
    else if o.kind == ConflictAbort && o.state == Failed && (o.existing == StatusConflict || o.existing == StatusNeedsReconnect) then
      Classification(o.existing, Preserve)
    else if o.code == Some(NeedsReconnect) then Classification(StatusNeedsReconnect, Preserve)
    else if o.code == Some(BranchDeleted) || o.code == Some(HistoryRewritten) then Classification(StatusPaused, Preserve)
    else if o.state == Failed && Operational(o.code) && (o.kind == Sync || o.kind == ConflictComplete) then
      Classification(StatusError, Increment)
    else Classification(StatusError, Preserve)
  }

  /** The base is in sync with its remote. */
  ghost predicate BroughtInSync(o: Outcome) {
    o.state == Succeeded && (o.kind == Initialize || o.kind == Sync || o.kind == ConflictComplete)
  }

  ghost predicate Aborted(o: Outcome) {
    o.state == Succeeded && o.kind == ConflictAbort
  }

  ghost predicate MetConflict(o: Outcome) {
    o.state == Conflict || (o.state != Succeeded && o.code == Some(GitConflict))
  }

  /** An abort that failed leaves a base that could not be used as it was. */
  ghost predicate AbortFailed(o: Outcome) {
    o.kind == ConflictAbort && o.state == Failed && o.code != Some(GitConflict) && o.existing in {StatusConflict, StatusNeedsReconnect}
  }

  /** Ended by its error code, whatever it is. */
  ghost predicate Stopped(o: Outcome) {
    o.state != Succeeded && !MetConflict(o) && !AbortFailed(o)
  }

  /** The codes that name something to be decided or repaired, or a decision: a conflict and what can be done
      about it, an operation cut short, a repository that is not the configured one, a history that others
      changed, a setting that is missing, an action of the user. */
  ghost predicate Decided(code: Option<ErrorCode>) {
    || code in {Some(GitConflict), Some(ConflictNotFound), Some(ConflictStale), Some(ConflictUnresolved), Some(ConflictUnsupported)}
    || code in {Some(MergeNotInProgress), Some(RecoveryRequired), Some(Interrupted)}
    || code in {Some(RepositoryRootMismatch), Some(NotRepository), Some(OriginMismatch), Some(BackupMismatch)}
    || code in {Some(NeedsReconnect), Some(BranchDeleted), Some(HistoryRewritten)}
    || code in {Some(IdentityMissing), Some(InvalidBranch), Some(ConfirmationRequired)}
    || code in {Some(Canceled), Some(PausedByUser), Some(NotPaused)}
  }

  ghost predicate UsesBudget(o: Outcome) {
    o.state == Failed && (o.kind == Sync || o.kind == ConflictComplete) && !Decided(o.code)
  }

  /** Only failures of the two pushing operations that are nobody's decision use the budget, and only a success
      of an operation that leaves the base in sync refills it. */
  lemma BudgetIsForOperationalFailures(o: Outcome)
    ensures ClassifyGitOutcome(o).failures == Increment <==> UsesBudget(o)
    ensures ClassifyGitOutcome(o).failures == Reset <==> BroughtInSync(o)
    ensures ClassifyGitOutcome(o).failures == Increment ==> ClassifyGitOutcome(o).state == StatusError
    ensures ClassifyGitOutcome(o).state == StatusReady <==> ClassifyGitOutcome(o).failures == Reset
  {}

  /** What each outcome makes of the base; there is no other state. A deleted branch and a rewritten history pause
      it, so that nothing is synchronized until somebody has looked. */
  lemma StatesOfOutcomes(o: Outcome)
    ensures var state := ClassifyGitOutcome(o).state;
      && (state == StatusReady <==> BroughtInSync(o))
      && (state == StatusConflict <==> MetConflict(o) || (AbortFailed(o) && o.existing == StatusConflict))
      && (state == StatusNeedsReconnect
          <==> (Stopped(o) && o.code == Some(NeedsReconnect)) || (AbortFailed(o) && o.existing == StatusNeedsReconnect))
      && (state == StatusPaused <==> Aborted(o) || (Stopped(o) && o.code in {Some(BranchDeleted), Some(HistoryRewritten)}))
      && (state == StatusError <==> Stopped(o) && o.code !in {Some(NeedsReconnect), Some(BranchDeleted), Some(HistoryRewritten)})
  {}

  /** The row that shows an outcome, over a row that has failed so often: the fifth failure in a row pauses, too. */
  ghost predicate Shows(after: Status, o: Outcome, failures: nat) {
    var exhausted := UsesBudget(o) && failures + 1 >= PAUSE_THRESHOLD;
    && after.failures == (if BroughtInSync(o) then 0 else if UsesBudget(o) then failures + 1 else failures)
    && (after.state == StatusReady <==> BroughtInSync(o))
    && (after.state == StatusConflict <==> MetConflict(o) || (AbortFailed(o) && o.existing == StatusConflict))
    && (after.state == StatusNeedsReconnect
        <==> (Stopped(o) && o.code == Some(NeedsReconnect)) || (AbortFailed(o) && o.existing == StatusNeedsReconnect))
    && (after.state == StatusPaused
        <==> exhausted || Aborted(o) || (Stopped(o) && o.code in {Some(BranchDeleted), Some(HistoryRewritten)}))
    && (after.state == StatusError
        <==> !exhausted && Stopped(o) && o.code !in {Some(NeedsReconnect), Some(BranchDeleted), Some(HistoryRewritten)})
  }

  // ---------------------------------------------------------------- the budget of one row

  datatype Transition = Transition(status: Status, action: FailureAction)

  function RowAfter(row: Status, ts: seq<Transition>): Status
    decreases |ts|
  {
    if ts == [] then row else RowAfter(Applied(row, ts[0].status, ts[0].action), ts[1..])
  }

  /** The increments after the last reset, on top of what the row had if there was none. */
  function Tally(start: nat, ts: seq<Transition>): nat
    decreases |ts|
  {
    if ts == [] then start
    else
      var last := ts[|ts| - 1];
      match last.action
      case Reset => 0
      case Preserve => Tally(start, ts[..|ts| - 1])
      case Increment => Tally(start, ts[..|ts| - 1]) + 1
  }

  lemma {:induction false} RowAfterLast(row: Status, ts: seq<Transition>)
    requires ts != []
    ensures RowAfter(row, ts) == Applied(RowAfter(row, ts[..|ts| - 1]), ts[|ts| - 1].status, ts[|ts| - 1].action)
    decreases |ts|
  {
    if |ts| > 1 {
      RowAfterLast(Applied(row, ts[0].status, ts[0].action), ts[1..]);
      assert ts[1..][..|ts| - 2] == ts[..|ts| - 1][1..];
    } else {
      assert ts[1..] == [] && ts[..0] == [];
    }
  }

  /** Over every run of transitions the stored counter is the tally, and an increment that brings it to
      the threshold pauses the row whatever state was asked for. */
  lemma {:induction false} CounterIsTally(row: Status, ts: seq<Transition>)
    ensures RowAfter(row, ts).failures == Tally(row.failures, ts)
    ensures ts != [] && ts[|ts| - 1].action == Increment && Tally(row.failures, ts) >= PAUSE_THRESHOLD ==>
              RowAfter(row, ts).state == StatusPaused
    decreases |ts|
  {
    if ts != [] {
      RowAfterLast(row, ts);
      CounterIsTally(row, ts[..|ts| - 1]);
    }
  }

  // ---------------------------------------------------------------- the store

  /** Which of the statements of one status publication the storage carries out. */
  datatype Faults = Faults(readable: bool, seeded: bool, applied: bool, deleted: bool)

  /** The table after GitManager.applyStatus: a missing row is seeded first, and unseeded on failure. */
  function Published(table: StatusTable, status: Status, action: FailureAction, f: Faults): StatusTable {
    if !f.readable then table
    else if status.path in table then (if f.applied then ApplyTransition(table, status, action) else table)
    else if !f.seeded then table
    else
      var seeded := table[status.path := status.(failures := 0)];
      if f.applied then ApplyTransition(seeded, status, action) else if f.deleted then table else seeded
  }

  predicate Publishes(table: StatusTable, status: Status, f: Faults) {
    f.readable && f.applied && (status.path in table || f.seeded)
  }

  /** How often the row has failed; a row that does not exist yet starts at zero. */
  function FailuresAt(table: StatusTable, path: Path): nat {
    if path in table then table[path].failures else 0
  }

  /** The outcome of an operation, once it is published: its state and counter, and the rest of the row as given. */
  ghost predicate ShownIn(table: StatusTable, before: StatusTable, status: Status, o: Outcome) {
    && status.path in table && Shows(table[status.path], o, FailuresAt(before, status.path))
    && table[status.path] == status.(state := table[status.path].state, failures := table[status.path].failures)
    && table - {status.path} == before - {status.path}
  }

  lemma OutcomeIsShown(table: StatusTable, status: Status, o: Outcome, f: Faults)
    requires Publishes(table, status, f)
    ensures var verdict := ClassifyGitOutcome(o);
      ShownIn(Published(table, status.(state := verdict.state), verdict.failures, f), table, status, o)
  {
    BudgetIsForOperationalFailures(o);
    StatesOfOutcomes(o);
  }

  /** applyStatus: seed a missing row, then the transition; unseed when the transition fails. A success is what
      the guarded update makes of the stored row, or of a new one without failures; a failure changes nothing,
      except that a row whose removal failed too stays seeded. No other row is ever touched. */
  method PublishStatus(table: StatusTable, status: Status, action: FailureAction, f: Faults) returns (after: StatusTable, ok: bool)
    ensures after == Published(table, status, action, f)
    ensures ok <==> Publishes(table, status, f)
    ensures ok ==> after == table[status.path := Applied(if status.path in table then table[status.path] else status.(failures := 0), status, action)]
    ensures !ok ==> after == table || (status.path !in table && !f.deleted && after == table[status.path := status.(failures := 0)])
    ensures after - {status.path} == table - {status.path}
  {
    after, ok := table, false;
    if !f.readable {
      return;
    }
    var found := status.path in table;
    if !found {
      if !f.seeded {
        return;
      }
      after := table[status.path := status.(failures := 0)];
    }
    if !f.applied {
      if !found && f.deleted {
        after := after - {status.path};
      }
      return;
    }
    after, ok := ApplyTransition(after, status, action), true;
  }
}
