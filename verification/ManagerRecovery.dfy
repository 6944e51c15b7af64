/** GitManager.RecoverLocal: what a restart does with each configured base, and the trust of the next admission. */
module ManagerRecovery {
  import opened Basics
  import opened CommitGraph
  import opened Errors
  import opened Journal
  import G = GitSession
  import opened Recovery
  import opened Statuses
  import M = ManagerState

  // ---------------------------------------------------------------- admission trust

  /** managerOperationTrustedOID */
  function OperationTrust(op: Operation, status: Option<Status>): Oid {
    if op.state == Succeeded && op.stage == StageCompleted && op.push.Some?
       && status.Some? && status.value.state == StatusReady && status.value.remote == op.push
    then op.push else op.remote
  }

  /** managerAdmissionTrust; None is a refusal. */
  function AdmissionTrust(kind: Kind, current: Identity, status: Option<Status>, latest: Option<Operation>): Option<Oid> {
    if latest.None? || latest.value.identity.remote != current.remote then
      if kind == Sync then Option.None else Some(Option.None)
    else
      var journal := OperationTrust(latest.value, status);
      var stored := if status.Some? then status.value.remote else Option.None;
      if stored.Some? && journal.Some? && stored != journal then Option.None
      else if kind == Sync && (stored.None? || journal.None?) then Option.None
      else Some(if stored.Some? then stored else journal)
  }

  /** The journal stands behind this remote: it was trusted when the operation ended, or it is what the operation
      pushed, and the status says that nothing has been wrong since. */
  predicate Vouches(op: Operation, status: Status, oid: Oid) {
    op.remote == oid || (op.state == Succeeded && op.stage == StageCompleted && op.push == oid && status.state == StatusReady)
  }

  /** A Sync is admitted exactly with a trusted remote that the status names and the journal stands behind. */
  lemma SyncTrustIsAgreement(current: Identity, status: Option<Status>, latest: Option<Operation>, oid: Oid)
    ensures AdmissionTrust(Sync, current, status, latest) == Some(oid)
            <==> oid.Some? && status.Some? && status.value.remote == oid && latest.Some?
                 && latest.value.identity.remote == current.remote && Vouches(latest.value, status.value, oid)
  {}

  /** An Initialize is refused only over a remote that the status names and the journal denies. */
  lemma InitializeTrustIsConsistent(current: Identity, status: Option<Status>, latest: Option<Operation>)
    ensures var trust := AdmissionTrust(Initialize, current, status, latest);
      if latest.None? || latest.value.identity.remote != current.remote then trust == Some(None)
      else if status.None? || status.value.remote.None? then trust == Some(latest.value.remote)
      else trust == if latest.value.remote.None? || Vouches(latest.value, status.value, status.value.remote)
                    then Some(status.value.remote) else None
  {}

  // ---------------------------------------------------------------- the restart

  /** What the restart reads for one base. Operations carry the effective name of a renamed base. `original` is
      recoveryConflictOperation's answer, `latestConflict` that of the journal's last conflict. */
  datatype Facts = Facts(
    current: Identity,
    canonical: bool,
    latest: Option<Operation>,
    original: Option<Operation>,
    latestConflict: Option<Operation>,
    indexed: bool,
    seen: Inspection)

  /** Which of the reads and writes for one base succeed. */
  datatype Storage = Storage(
    latestRead: bool,
    statusRead: bool,
    originalRead: bool,
    conflictRead: bool,
    noteSync: bool,
    checkpoint: bool,
    finish: bool,
    status: Faults)

  predicate OriginalConflict(op: Operation) {
    op.kind == Initialize || op.kind == Sync
  }

  function EmptyStatus(): Status {
    Status("", "", StatusUnconfigured, "", None, 0, None, None, {}, None, None)
  }

  /** managerStatusFromPrevious */
  function PreviousStatus(current: Identity, row: Option<Status>): Status {
    (if row.Some? then row.value else EmptyStatus()).(base := current.baseName, path := current.repoPath)
  }

  /** An unfinished completion or abort of this very base. */
  predicate UnfinishedTransition(f: Facts, active: Option<Operation>) {
    active.Some? && M.SameIdentity(active.value, f.current) && (active.value.kind == ConflictComplete || active.value.kind == ConflictAbort)
  }

  predicate LatestMatches(f: Facts) {
    f.latest.Some? && M.SameIdentity(f.latest.value, f.current)
  }

  predicate StatusInConflict(row: Option<Status>) {
    row.Some? && row.value.state == StatusConflict
  }

  /** The operation whose progress recovery is to judge. */
  function RecoveryOperation(f: Facts, active: Option<Operation>, row: Option<Status>): Option<Operation> {
    if UnfinishedTransition(f, active) then active
    else if StatusInConflict(row) then f.original
    else if LatestMatches(f) then f.latest
    else None
  }

  /** The operation whose conflict is still being resolved, if the records know one. */
  function ConflictBehind(f: Facts, active: Option<Operation>, row: Option<Status>, originalRead: bool): Option<Operation> {
    if UnfinishedTransition(f, active) then
      if StatusInConflict(row) && f.original.Some? && originalRead then f.original
      else if f.latestConflict.Some? && OriginalConflict(f.latestConflict.value) && M.SameIdentity(f.latestConflict.value, f.current)
      then f.latestConflict
      else None
    else if StatusInConflict(row) then f.original
    else if LatestMatches(f) && f.latest.value.state == Conflict && OriginalConflict(f.latest.value) then f.latest
    else None
  }

  /** What the Git service answers for the base. */
  function Judged(f: Facts, active: Option<Operation>, row: Option<Status>, repo: G.Repository): Recovered {
    RecoverLocal(RecoveryOperation(f, active, row), repo, f.seen)
  }

  predicate InConflictNow(f: Facts, active: Option<Operation>, row: Option<Status>, repo: G.Repository, originalRead: bool) {
    var judged := Judged(f, active, row, repo);
    (judged.failure.Some? && judged.failure.value.Conflicted?)
    || (!UnfinishedTransition(f, active) && ConflictBehind(f, active, row, originalRead).Some?)
  }

  predicate InterruptedCompletion(state: ConflictState) {
    state == NeedsReindex || state == PushPending || state == PushUnknown
  }

  /** The labels that only a completion or an abort can get. */
  predicate NamesProgress(state: ConflictState) {
    InterruptedCompletion(state) || state == Pushed || state == Aborted
  }

  /** The records say that this base has a conflict to resolve, and nobody was completing or aborting it. */
  predicate RecordedConflict(f: Facts, active: Option<Operation>, row: Option<Status>) {
    && !UnfinishedTransition(f, active)
    && if StatusInConflict(row) then f.original.Some? && f.original.value.kind in {Initialize, Sync}
       else LatestMatches(f) && f.latest.value.state == Conflict && f.latest.value.kind in {Initialize, Sync}
  }

  // ---------------------------------------------------------------- whose conflict it is

  /** The operation was admitted for this very base, directory and connection. */
  ghost predicate OfBase(op: Operation, current: Identity) {
    op.identity == op.identity.(baseName := current.baseName, repoPath := current.repoPath, config := current.config, remote := current.remote)
  }

  /** A completion or an abort of this base was under way. */
  ghost predicate WasEnding(f: Facts, active: Option<Operation>) {
    active.Some? && active.value.kind in {ConflictComplete, ConflictAbort} && OfBase(active.value, f.current)
  }

  /** The last operation of this base met a conflict. */
  ghost predicate LastMetConflict(f: Facts) {
    f.latest.Some? && OfBase(f.latest.value, f.current) && f.latest.value.state == Conflict && f.latest.value.kind in {Initialize, Sync}
  }

  ghost predicate ShownInConflict(row: Option<Status>) {
    row.Some? && row.value.state == StatusConflict
  }

  /** Which operation recovery is asked about. */
  lemma JudgesExactly(f: Facts, active: Option<Operation>, row: Option<Status>)
    ensures RecoveryOperation(f, active, row)
            == if WasEnding(f, active) then active
               else if ShownInConflict(row) then f.original
               else if f.latest.Some? && OfBase(f.latest.value, f.current) then f.latest
               else None
  {}

  /** Whose conflict it is: what the status leads to while it shows one, and otherwise the last operation that met one;
      for a completion or an abort the last conflict of the base counts where the status does not help. */
  lemma BehindExactly(f: Facts, active: Option<Operation>, row: Option<Status>, originalRead: bool)
    ensures var helped := ShownInConflict(row) && (WasEnding(f, active) ==> originalRead && f.original.Some?);
            var met := if WasEnding(f, active) then f.latestConflict else f.latest;
            ConflictBehind(f, active, row, originalRead)
            == if helped then f.original
               else if met.Some? && OfBase(met.value, f.current) && met.value.kind in {Initialize, Sync}
                       && (WasEnding(f, active) || met.value.state == Conflict)
               then met
               else None
  {}

  /** A base is in conflict if Git says so, or if nobody was ending a conflict that the records know of. */
  lemma InConflictExactly(f: Facts, active: Option<Operation>, row: Option<Status>, repo: G.Repository, originalRead: bool)
    ensures InConflictNow(f, active, row, repo, originalRead)
            <==> || (Inspectable(f.seen) && (!f.seen.mergeReadable || (!f.seen.otherPending && repo.unmerged != {})))
                 || (!WasEnding(f, active) && if ShownInConflict(row) then f.original.Some? else LastMetConflict(f))
  {
    var op := RecoveryOperation(f, active, row);
    if RecoverLocal(op, repo, f.seen).failure.Some? {
      FailureExactly(op, repo, f.seen);
    } else {
      AnswerExactly(op, repo, f.seen);
    }
  }

  function CheckpointWith(op: Operation, stage: Stage, remote: Oid): Checkpoint {
    CheckpointOf(op).(stage := stage, remote := remote)
  }

  function FinishAs(op: Operation, state: State, stage: Stage, remote: Oid): Finish {
    Finish(state, Some(stage), op.backupRef, op.local, op.candidate, remote, op.push, Some(op.changedPaths), Some(op.conflictPaths))
  }

  /** The database reads that this base needs succeed. */
  predicate ReadsSucceed(f: Facts, active: Option<Operation>, row: Option<Status>, w: Storage) {
    var transition := UnfinishedTransition(f, active);
    && w.latestRead && w.statusRead
    && (!transition && StatusInConflict(row) ==> w.originalRead)
    && (transition && !(StatusInConflict(row) && w.originalRead && f.original.Some?) ==> w.conflictRead)
  }

  /** The unfinished row can be checkpointed, if need be, and closed. */
  predicate ClosesUnfinished(rows: Rows, active: Operation, judged: Recovered, w: Storage) {
    && active.id in rows && rows[active.id].Active() && w.finish
    && (judged.result.remote.Some? && active.remote != judged.result.remote ==> w.checkpoint)
  }

  predicate HoldsActive(rows: Rows, id: OperationId) {
    id in rows && rows[id].Active()
  }

  /** A rebuilt index is synchronized and journalled before the completion is closed. */
  predicate Reindexes(f: Facts, rows: Rows, active: Operation, judged: Recovered, w: Storage) {
    judged.result.state == NeedsReindex ==> (f.indexed ==> w.noteSync) && w.checkpoint && HoldsActive(rows, active.id)
  }

  /** managerSafeError: the code of a safe error, or that of a command that failed. */
  function SafeCode(failure: Option<G.Failure>): ErrorCode {
    if failure.Some? && failure.value.Safe? then failure.value.code else CommandFailed
  }

  /** What is said of a push whose acceptance is not known. */
  function OpenPush(verdict: ConflictState): ErrorCode {
    if verdict == PushUnknown then RecoveryRequired else Interrupted
  }

  function StageAfter(active: Operation, judged: Recovered): Stage {
    if judged.result.state == NeedsReindex then StageConflictReindexed else active.stage
  }

  /** Every read and write the restart makes for a base works. */
  predicate Works(w: Storage) {
    && w.latestRead && w.statusRead && w.originalRead && w.conflictRead && w.noteSync && w.checkpoint && w.finish
    && w.status.readable && w.status.seeded && w.status.applied
  }

  /** Everything that has to be stored for the base is: the status, what a completion or an abort that is settled
      needs, and the close of any other unfinished row. */
  predicate Stores(f: Facts, active: Option<Operation>, rows: Rows, table: StatusTable, judged: Recovered, conflicted: bool,
                   behind: Option<Operation>, recovered: Option<Operation>, status: Status, w: Storage)
  {
    var verdict := judged.result.state;
    && Publishes(table, status, w.status)
    && if active.None? then
         recovered.Some? && recovered.value.kind == ConflictComplete && verdict == NeedsReindex && f.indexed ==> w.noteSync
       else if Settles(active.value, verdict, conflicted, behind) then
         && HoldsActive(rows, active.value.id) && w.finish
         && (active.value.kind == ConflictComplete ==>
               if verdict == Pushed then f.indexed ==> w.noteSync else Reindexes(f, rows, active.value, judged, w))
       else ClosesUnfinished(rows, active.value, judged, w)
  }

  /** Nothing is wrong with the base: no merge, nothing interrupted, everything so far stored. */
  predicate OpensWith(f: Facts, active: Option<Operation>, rows: Rows, judged: Recovered, conflicted: bool, op: Option<Operation>, w: Storage) {
    && !conflicted && judged.failure.None? && !judged.result.blocking && f.canonical
    && (if active.Some? then
          && ClosesUnfinished(rows, active.value, judged, w)
          && !(active.value.kind == ConflictComplete && (InterruptedCompletion(judged.result.state) || judged.result.state == Pushed))
          && !(active.value.kind == ConflictAbort && judged.result.state == Aborted)
        else !(op.Some? && op.value.kind == ConflictComplete && InterruptedCompletion(judged.result.state)))
  }

  predicate Opens(f: Facts, active: Option<Operation>, rows: Rows, row: Option<Status>, repo: G.Repository, w: Storage) {
    ReadsSucceed(f, active, row, w)
    && OpensWith(f, active, rows, Judged(f, active, row, repo), InConflictNow(f, active, row, repo, w.originalRead),
                 RecoveryOperation(f, active, row), w)
  }

  /** The one way to open a gate without the status being stored: the base is in order and the status write,
      which comes after the gate is opened, fails. */
  ghost predicate OpensUnsaved(f: Facts, active: Option<Operation>, rows: Rows, table: StatusTable, repo: G.Repository, w: Storage) {
    Opens(f, active, rows, M.RowOf(table, f.current.repoPath), repo, w)
    && !Publishes(table, PreviousStatus(f.current, M.RowOf(table, f.current.repoPath)), w.status)
  }

  /** Everything recovery reads from the repository can be read. */
  predicate RefsReadable(seen: Inspection) {
    seen.refused.None? && seen.lock == Unlocked && seen.refsReadable && seen.privateRefReadable
  }

  /** An interrupted Sync of this base, whose row and refs name the trusted remote without ambiguity. */
  ghost predicate InterruptedSync(f: Facts, op: Operation, rows: Rows, row: Option<Status>, repo: G.Repository) {
    && op.kind == Sync && op.id in rows && rows[op.id] == op && M.SameIdentity(op, f.current) && f.latest == Some(op)
    && (StatusInConflict(row) ==> f.original == Some(op)) && RefsReadable(f.seen) && Recoverable(op, repo) && repo.managed.Some?
  }

  /** Journal, status and managed ref name the same trusted remote, and the row is finished. */
  predicate TrustAgrees(rows: Rows, table: StatusTable, id: OperationId, path: Path, repo: G.Repository) {
    && id in rows && !rows[id].Active() && rows[id].remote == repo.managed
    && path in table && table[path].remote == repo.managed
  }

  /** The next Sync is then admitted with exactly the managed ref as its trusted remote. */
  lemma AgreementAdmits(rows: Rows, table: StatusTable, op: Operation, current: Identity, repo: G.Repository)
    requires TrustAgrees(rows, table, op.id, current.repoPath, repo) && repo.managed.Some?
    requires rows[op.id].state != Succeeded && rows[op.id].identity.remote == current.remote
    ensures AdmissionTrust(Sync, current, Some(table[current.repoPath]), Some(rows[op.id])) == Some(repo.managed)
  {}

  /** The facts about the Git service's answer that the manager's decisions rest on. */
  lemma JudgementIsSound(operation: Option<Operation>, repo: G.Repository, seen: Inspection)
    ensures var r := RecoverLocal(operation, repo, seen).result;
            && (!G.NoMerge(repo) ==> r.blocking)
            && (InterruptedCompletion(r.state) || r.state in {Pushed, Aborted} ==> !r.blocking)
    ensures operation.Some? && operation.value.kind == ConflictComplete ==>
              var r := RecoverLocal(operation, repo, seen).result; r.blocking || InterruptedCompletion(r.state) || r.state == Pushed
    ensures operation.Some? && RefsReadable(seen) && Recoverable(operation.value, repo) ==>
              RecoverLocal(operation, repo, seen).result.remote == repo.managed
    ensures operation.Some? && OriginalConflict(operation.value) ==> !NamesProgress(RecoverLocal(operation, repo, seen).result.state)
    ensures NamesProgress(RecoverLocal(operation, repo, seen).result.state) ==> RecoverLocal(operation, repo, seen).failure.None?
  {}

  // ---------------------------------------------------------------- what the status says in the end

  /** A completion is committed, and its push is not known to be accepted. */
  ghost predicate Unpublished(active: Option<Operation>, recovered: Option<Operation>, verdict: ConflictState) {
    var op := if active.Some? then active else recovered;
    op.Some? && op.value.kind == ConflictComplete && verdict in {NeedsReindex, PushPending, PushUnknown}
  }

  /** An unfinished completion turns out to be accepted and trusted. */
  ghost predicate Accepted(active: Option<Operation>, verdict: ConflictState) {
    active.Some? && active.value.kind == ConflictComplete && verdict == Pushed
  }

  /** An unfinished abort turns out to be over. */
  ghost predicate AbortIsOver(active: Option<Operation>, verdict: ConflictState, conflicted: bool) {
    active.Some? && active.value.kind == ConflictAbort && verdict == Aborted && !conflicted
  }

  /** Nothing of a completion or abort is to be settled. */
  ghost predicate NothingToSettle(active: Option<Operation>, recovered: Option<Operation>, verdict: ConflictState, conflicted: bool) {
    !Unpublished(active, recovered, verdict) && !Accepted(active, verdict) && !AbortIsOver(active, verdict, conflicted)
  }

  /** The base can be used: nothing failed, nothing blocks, and its path leads to it. */
  ghost predicate InOrder(judged: Recovered, conflicted: bool, canonical: bool) {
    !conflicted && judged.failure.None? && !judged.result.blocking && canonical
  }

  /** The state a restart without an error leaves, case by case: a pause outlives it. */
  ghost predicate StateFits(state: GitState, paused: bool, active: Option<Operation>, recovered: Option<Operation>, judged: Recovered,
                            conflicted: bool, canonical: bool) {
    var verdict := judged.result.state;
    var open := NothingToSettle(active, recovered, verdict, conflicted);
    && (state == StatusError <==> Unpublished(active, recovered, verdict))
    && (state == StatusReady <==> Accepted(active, verdict) || (open && InOrder(judged, conflicted, canonical) && !paused))
    && (state == StatusPaused <==> AbortIsOver(active, verdict, conflicted) || (open && InOrder(judged, conflicted, canonical) && paused))
    && (state == StatusConflict <==> open && conflicted)
    && (state == StatusNeedsReconnect <==> open && !conflicted && !InOrder(judged, conflicted, canonical))
  }

  /** The error the restart shows with it. */
  ghost predicate ErrorFits(error: Option<ErrorCode>, previous: Option<ErrorCode>, state: GitState, judged: Recovered, settled: bool) {
    match state
    case StatusError => error == Some(if judged.result.state == PushUnknown then RecoveryRequired else Interrupted)
    case StatusConflict => error == Some(GitConflict)
    case StatusNeedsReconnect =>
      error == Some(if judged.failure.Some? && judged.failure.value.Safe? then judged.failure.value.code else CommandFailed)
    case StatusPaused => error == if settled then None else previous
    case _ => error == None
  }

  /** Who is named in the row: the completion or abort that was settled, or whoever was. */
  ghost predicate NameFits(after: Status, previous: Status, active: Option<Operation>, recovered: Option<Operation>, judged: Recovered,
                           conflicted: bool) {
    var verdict := judged.result.state;
    var op := if active.Some? then active else recovered;
    if Unpublished(active, recovered, verdict) then
      && after.operationId == op.value.id && after.changedPaths == op.value.changedPaths
      && after.stage == Some(if active.Some? && verdict == NeedsReindex then StageConflictReindexed else op.value.stage)
    else if Accepted(active, verdict) || AbortIsOver(active, verdict, conflicted) then
      after.operationId == active.value.id && after.stage == Some(StageCompleted) && after.changedPaths == active.value.changedPaths
    else if active.Some? && active.value.kind == ConflictAbort && conflicted then true
    else
      && after.operationId == previous.operationId && after.stage == previous.stage
      && (!conflicted ==> after.changedPaths == previous.changedPaths)
  }

  /** The row after a restart without an error. The failure budget is refilled only by an accepted completion. */
  ghost predicate RowFits(after: Status, f: Facts, previous: Option<Status>, active: Option<Operation>, recovered: Option<Operation>,
                          judged: Recovered, conflicted: bool) {
    var before := PreviousStatus(f.current, previous);
    var paused := previous.Some? && previous.value.state == StatusPaused;
    && StateFits(after.state, paused, active, recovered, judged, conflicted, f.canonical)
    && ErrorFits(after.error, before.error, after.state, judged, AbortIsOver(active, judged.result.state, conflicted))
    && NameFits(after, before, active, recovered, judged, conflicted)
    && after.failures == (if Accepted(active, judged.result.state) then 0 else before.failures)
    && after.remote == (if judged.result.remote.Some? then judged.result.remote else before.remote)
    && after.base == f.current.baseName && after.path == f.current.repoPath
    && after.lastAttempt == before.lastAttempt && after.lastSuccess == before.lastSuccess
  }

  /** Every path in conflict that Git or the records name. */
  ghost predicate NamesConflict(after: Status, f: Facts, active: Option<Operation>, row: Option<Status>, judged: Recovered, originalRead: bool) {
    var behind := ConflictBehind(f, active, row, originalRead);
    var durable := !UnfinishedTransition(f, active) && behind.Some?;
    forall p :: p in after.changedPaths <==>
                  p in judged.result.conflictPaths
                  || (judged.failure.Some? && judged.failure.value.Conflicted? && p in judged.failure.value.paths)
                  || (durable && p in behind.value.conflictPaths)
                  || (durable && StatusInConflict(row) && p in row.value.changedPaths)
  }

  /** An abort that was interrupted gives the row back to the operation whose conflict it is. */
  ghost predicate NamesOriginal(after: Status, active: Option<Operation>, conflicted: bool, behind: Option<Operation>) {
    active.Some? && active.value.kind == ConflictAbort && conflicted && behind.Some? ==>
      after.operationId == behind.value.id && after.stage == Some(behind.value.stage)
  }

  function FailedPaths(judged: Recovered): set<Path> {
    judged.result.conflictPaths
    + if judged.failure.Some? && judged.failure.value.Conflicted? then judged.failure.value.paths else {}
  }

  /** The paths shown with a conflict: those of the merge, and those that the records know of. */
  function ConflictPaths(f: Facts, active: Option<Operation>, row: Option<Status>, judged: Recovered, originalRead: bool): set<Path> {
    var behind := ConflictBehind(f, active, row, originalRead);
    if UnfinishedTransition(f, active) || behind.None? then FailedPaths(judged)
    else FailedPaths(judged) + behind.value.conflictPaths + if StatusInConflict(row) then row.value.changedPaths else {}
  }

  /** The status a restart starts from: the row that is there, with the remote that recovery names. */
  function StartingStatus(f: Facts, row: Option<Status>, judged: Recovered): Status {
    var previous := PreviousStatus(f.current, row);
    if judged.result.remote.Some? then previous.(remote := judged.result.remote) else previous
  }

  /** The row of a completion that is committed and not known to be accepted. */
  function OpenRow(status: Status, op: Operation, stage: Stage, verdict: ConflictState): Status {
    status.(state := StatusError, operationId := op.id, stage := Some(stage), changedPaths := op.changedPaths,
    error := Some(if verdict == PushUnknown then RecoveryRequired else Interrupted))
  }

  /** The row of a completion or abort that is over. */
  function OverRow(status: Status, op: Operation, state: GitState): Status {
    status.(state := state, operationId := op.id, stage := Some(StageCompleted), changedPaths := op.changedPaths, error := None)
  }

  /** The row of a conflict that goes back to the operation it came from. */
  function ReturnedRow(status: Status, original: Operation, paths: set<Path>): Status {
    status.(state := StatusConflict, operationId := original.id, stage := Some(original.stage), changedPaths := paths, error := Some(GitConflict))
  }

  /** The row of a base that needs no settling. */
  function PlainRow(status: Status, judged: Recovered, conflicted: bool, paths: set<Path>, canonical: bool): Status {
    if conflicted then status.(state := StatusConflict, changedPaths := paths, error := Some(GitConflict))
    else if judged.failure.Some? || judged.result.blocking || !canonical then
      status.(state := StatusNeedsReconnect, error := Some(SafeCode(judged.failure)))
    else if status.state == StatusPaused then status
    else status.(state := StatusReady, error := None)
  }

  /** An unfinished row that is settled as what it is; the others are closed. */
  predicate Settles(op: Operation, verdict: ConflictState, conflicted: bool, behind: Option<Operation>) {
    || (op.kind == ConflictAbort && ((conflicted && behind.Some?) || verdict == Aborted))
    || (op.kind == ConflictComplete && (InterruptedCompletion(verdict) || verdict == Pushed))
  }

  function SettledRow(status: Status, op: Operation, judged: Recovered, conflicted: bool, behind: Option<Operation>, paths: set<Path>): Status {
    var verdict := judged.result.state;
    if op.kind == ConflictAbort && conflicted && behind.Some? then ReturnedRow(status, behind.value, paths)
    else if op.kind == ConflictAbort then OverRow(status, op, StatusPaused)
    else if verdict == Pushed then OverRow(status, op, StatusReady).(failures := 0)
    else OpenRow(status, op, StageAfter(op, judged), verdict)
  }

  /** The row that a restart without an error leaves. */
  function RestartRow(status: Status, active: Option<Operation>, recovered: Option<Operation>, judged: Recovered, conflicted: bool,
                      behind: Option<Operation>, paths: set<Path>, canonical: bool): Status
  {
    var verdict := judged.result.state;
    if active.Some? && Settles(active.value, verdict, conflicted, behind) then
      SettledRow(status, active.value, judged, conflicted, behind, paths)
    else if active.None? && recovered.Some? && recovered.value.kind == ConflictComplete && InterruptedCompletion(verdict) then
      OpenRow(status, recovered.value, recovered.value.stage, verdict)
    else PlainRow(status, judged, conflicted, paths, canonical)
  }

  lemma ReturnedRowFits(f: Facts, op: Operation, recovered: Option<Operation>, judged: Recovered, row: Option<Status>, original: Operation,
                        paths: set<Path>)
    requires op.kind == ConflictAbort
    ensures RowFits(ReturnedRow(StartingStatus(f, row, judged), original, paths), f, row, Some(op), recovered, judged, true)
  {}

  lemma OverRowFits(f: Facts, op: Operation, recovered: Option<Operation>, judged: Recovered, row: Option<Status>)
    requires op.kind == ConflictAbort && judged.result.state == Aborted
    ensures RowFits(OverRow(StartingStatus(f, row, judged), op, StatusPaused), f, row, Some(op), recovered, judged, false)
  {}

  lemma AcceptedRowFits(f: Facts, op: Operation, recovered: Option<Operation>, judged: Recovered, conflicted: bool, row: Option<Status>)
    requires op.kind == ConflictComplete && judged.result.state == Pushed
    ensures RowFits(OverRow(StartingStatus(f, row, judged), op, StatusReady).(failures := 0), f, row, Some(op), recovered, judged, conflicted)
  {}

  lemma InterruptedRowFits(f: Facts, op: Operation, recovered: Option<Operation>, judged: Recovered, conflicted: bool, row: Option<Status>)
    requires op.kind == ConflictComplete && InterruptedCompletion(judged.result.state)
    ensures RowFits(OpenRow(StartingStatus(f, row, judged), op, StageAfter(op, judged), judged.result.state), f, row, Some(op), recovered, judged,
                    conflicted)
  {}

  lemma SettledRowFits(f: Facts, op: Operation, recovered: Option<Operation>, judged: Recovered, conflicted: bool, row: Option<Status>,
                       behind: Option<Operation>, paths: set<Path>)
    requires Settles(op, judged.result.state, conflicted, behind)
    requires conflicted && judged.result.state == Aborted ==> behind.Some?
    ensures RowFits(SettledRow(StartingStatus(f, row, judged), op, judged, conflicted, behind, paths), f, row, Some(op), recovered, judged, conflicted)
  {
    if op.kind == ConflictAbort {
      if conflicted {
        ReturnedRowFits(f, op, recovered, judged, row, behind.value, paths);
      } else {
        OverRowFits(f, op, recovered, judged, row);
      }
    } else if judged.result.state == Pushed {
      AcceptedRowFits(f, op, recovered, judged, conflicted, row);
    } else {
      InterruptedRowFits(f, op, recovered, judged, conflicted, row);
    }
  }

  lemma PlainRowFits(f: Facts, active: Option<Operation>, recovered: Option<Operation>, judged: Recovered, conflicted: bool, row: Option<Status>,
                     paths: set<Path>)
    requires NothingToSettle(active, recovered, judged.result.state, conflicted)
    ensures RowFits(PlainRow(StartingStatus(f, row, judged), judged, conflicted, paths, f.canonical), f, row, active, recovered, judged, conflicted)
  {}

  lemma OpenRowFits(f: Facts, op: Operation, judged: Recovered, conflicted: bool, row: Option<Status>)
    requires op.kind == ConflictComplete && InterruptedCompletion(judged.result.state)
    ensures RowFits(OpenRow(StartingStatus(f, row, judged), op, op.stage, judged.result.state), f, row, None, Some(op), judged, conflicted)
  {}

  lemma ConflictPathsAreNamed(f: Facts, active: Option<Operation>, row: Option<Status>, judged: Recovered, originalRead: bool, after: Status)
    requires after.changedPaths == ConflictPaths(f, active, row, judged, originalRead)
    ensures NamesConflict(after, f, active, row, judged, originalRead)
  {}

  /** Case by case, the state, the error, the name, the paths and the rest of that row. */
  lemma RestartRowFits(f: Facts, active: Option<Operation>, recovered: Option<Operation>, judged: Recovered, conflicted: bool,
                       behind: Option<Operation>, paths: set<Path>, row: Option<Status>)
    requires conflicted && judged.result.state == Aborted ==> behind.Some?
    ensures var after := RestartRow(StartingStatus(f, row, judged), active, recovered, judged, conflicted, behind, paths, f.canonical);
            RowFits(after, f, row, active, recovered, judged, conflicted)
            && (after.state == StatusConflict ==> after.changedPaths == paths && NamesOriginal(after, active, conflicted, behind))
  {
    if active.Some? && Settles(active.value, judged.result.state, conflicted, behind) {
      SettledRowFits(f, active.value, recovered, judged, conflicted, row, behind, paths);
    } else if active.None? && recovered.Some? && recovered.value.kind == ConflictComplete && InterruptedCompletion(judged.result.state) {
      OpenRowFits(f, recovered.value, judged, conflicted, row);
    } else {
      PlainRowFits(f, active, recovered, judged, conflicted, row, paths);
    }
  }

  /** The row that a restart without an error leaves, from what it reads. */
  function RowAfterRestart(f: Facts, active: Option<Operation>, row: Option<Status>, repo: G.Repository, originalRead: bool): Status {
    var judged := Judged(f, active, row, repo);
    RestartRow(StartingStatus(f, row, judged), active, RecoveryOperation(f, active, row), judged,
               InConflictNow(f, active, row, repo, originalRead), ConflictBehind(f, active, row, originalRead),
               ConflictPaths(f, active, row, judged, originalRead), f.canonical)
  }

  /** What that row says, case by case. */
  ghost predicate SaysWhatIs(after: Status, f: Facts, active: Option<Operation>, row: Option<Status>, repo: G.Repository, originalRead: bool) {
    var judged := Judged(f, active, row, repo);
    var conflicted := InConflictNow(f, active, row, repo, originalRead);
    && RowFits(after, f, row, active, RecoveryOperation(f, active, row), judged, conflicted)
    && (after.state == StatusConflict ==>
          NamesConflict(after, f, active, row, judged, originalRead)
          && NamesOriginal(after, active, conflicted, ConflictBehind(f, active, row, originalRead)))
  }

  lemma RestartSaysWhatIs(f: Facts, active: Option<Operation>, row: Option<Status>, repo: G.Repository, originalRead: bool)
    ensures SaysWhatIs(RowAfterRestart(f, active, row, repo, originalRead), f, active, row, repo, originalRead)
  {
    var judged := Judged(f, active, row, repo);
    var conflicted := InConflictNow(f, active, row, repo, originalRead);
    var behind, paths := ConflictBehind(f, active, row, originalRead), ConflictPaths(f, active, row, judged, originalRead);
    JudgementIsSound(RecoveryOperation(f, active, row), repo, f.seen);
    RestartRowFits(f, active, RecoveryOperation(f, active, row), judged, conflicted, behind, paths, row);
    var after := RowAfterRestart(f, active, row, repo, originalRead);
    if after.state == StatusConflict {
      ConflictPathsAreNamed(f, active, row, judged, originalRead, after);
    }
  }

  /** A conflict that the records know outlives the restart. */
  lemma RecordedConflictOutlives(f: Facts, active: Option<Operation>, row: Option<Status>, repo: G.Repository, originalRead: bool)
    requires RecordedConflict(f, active, row)
    ensures RowAfterRestart(f, active, row, repo, originalRead).state == StatusConflict
  {
    JudgementIsSound(RecoveryOperation(f, active, row), repo, f.seen);
  }

  /** An unfinished completion of this base makes it ready exactly if its push was accepted and trusted. */
  lemma CompletionIsReadyIfPushed(f: Facts, active: Option<Operation>, row: Option<Status>, repo: G.Repository, originalRead: bool)
    requires UnfinishedTransition(f, active) && active.value.kind == ConflictComplete
    ensures RowAfterRestart(f, active, row, repo, originalRead).state == StatusReady
            <==> RecoverLocal(active, repo, f.seen).result.state == Pushed
  {
    JudgementIsSound(active, repo, f.seen);
  }

  /** No operation is recorded, no conflict shown, and the repository is in order. */
  ghost predicate NothingHappened(f: Facts, row: Option<Status>, repo: G.Repository) {
    f.latest.None? && !StatusInConflict(row) && f.canonical && G.NoMerge(repo) && f.seen == HealthyInspection(repo)
  }

  /** Paused if and only if it was, with as many failures as before. */
  ghost predicate KeepsPause(after: Status, row: Option<Status>) {
    && after.state == (if row.Some? && row.value.state == StatusPaused then StatusPaused else StatusReady)
    && (row.Some? ==> after.failures == row.value.failures)
  }

  lemma PauseOutlives(f: Facts, row: Option<Status>, repo: G.Repository, originalRead: bool)
    requires NothingHappened(f, row, repo)
    ensures KeepsPause(RowAfterRestart(f, None, row, repo, originalRead), row)
  {}

  /** The remote an interrupted Sync is recovered with, and what its row then says. */
  lemma SyncIsRecovered(f: Facts, op: Operation, rows: Rows, row: Option<Status>, repo: G.Repository, originalRead: bool)
    requires InterruptedSync(f, op, rows, row, repo)
    ensures Judged(f, Some(op), row, repo).result.remote == repo.managed
    ensures RowAfterRestart(f, Some(op), row, repo, originalRead).remote == repo.managed
  {
    JudgementIsSound(RecoveryOperation(f, Some(op), row), repo, f.seen);
  }

  /** What has to be stored, from what the restart reads. */
  ghost predicate StoresAll(f: Facts, active: Option<Operation>, rows: Rows, table: StatusTable, repo: G.Repository, w: Storage) {
    var row := M.RowOf(table, f.current.repoPath);
    var judged := Judged(f, active, row, repo);
    Stores(f, active, rows, table, judged, InConflictNow(f, active, row, repo, w.originalRead), ConflictBehind(f, active, row, w.originalRead),
           RecoveryOperation(f, active, row), StartingStatus(f, row, judged), w)
  }

  // ---------------------------------------------------------------- what the journal says in the end

  ghost predicate Knows(rows: Rows, op: Operation) {
    op.id in rows && rows[op.id] == op
  }

  /** The row that an unfinished operation is closed with. */
  function ClosedRow(op: Operation, judged: Recovered, conflicted: bool, behind: Option<Operation>, paths: set<Path>): Operation {
    var verdict := judged.result.state;
    if !Settles(op, verdict, conflicted, behind) then
      op.(state := if conflicted then Conflict else Failed,
      remote := if judged.result.remote.Some? then judged.result.remote else op.remote,
      conflictPaths := if conflicted then paths else op.conflictPaths)
    else if op.kind == ConflictAbort then
      if conflicted && behind.Some? then op.(state := Failed) else op.(state := Succeeded, stage := StageCompleted)
    else if verdict == Pushed then op.(state := Succeeded, stage := StageCompleted, remote := FillOid(op.remote, judged.result.remote))
    else op.(state := Failed, stage := StageAfter(op, judged))
  }

  /** Nothing that the operation had journalled is lost. It has succeeded exactly if it was a completion that turned
      out to be accepted or an abort that turned out to be over, and met a conflict exactly if there is one that is
      not settled otherwise; in every other case it has failed. */
  ghost predicate ClosedRight(op: Operation, after: Operation, judged: Recovered, conflicted: bool, behind: Option<Operation>) {
    var verdict := judged.result.state;
    && after == op.(state := after.state, stage := after.stage, remote := after.remote, conflictPaths := after.conflictPaths)
    && after.state in {Succeeded, Failed, Conflict}
    && (after.state == Succeeded <==> Accepted(Some(op), verdict) || AbortIsOver(Some(op), verdict, conflicted))
    && (after.state == Conflict
        <==> conflicted && NothingToSettle(Some(op), None, verdict, conflicted) && !(op.kind == ConflictAbort && behind.Some?))
    && (after.state != Conflict ==> after.conflictPaths == op.conflictPaths)
    && (op.remote.Some? && judged.result.remote in {None, op.remote} ==> after.remote == op.remote)
    && (op.stage != after.stage ==> after.stage == if after.state == Succeeded then StageCompleted else StageConflictReindexed)
  }

  /** The row of the unfinished operation after a restart without an error, from what it reads. */
  function JournalAfterRestart(f: Facts, op: Operation, row: Option<Status>, repo: G.Repository, originalRead: bool): Operation {
    var judged := Judged(f, Some(op), row, repo);
    ClosedRow(op, judged, InConflictNow(f, Some(op), row, repo, originalRead), ConflictBehind(f, Some(op), row, originalRead),
              ConflictPaths(f, Some(op), row, judged, originalRead))
  }

  /** What that row says. */
  ghost predicate JournalSaysWhatIs(op: Operation, after: Operation, f: Facts, row: Option<Status>, repo: G.Repository, originalRead: bool) {
    ClosedRight(op, after, Judged(f, Some(op), row, repo), InConflictNow(f, Some(op), row, repo, originalRead),
                ConflictBehind(f, Some(op), row, originalRead))
  }

  lemma RestartClosesRight(f: Facts, op: Operation, rows: Rows, row: Option<Status>, repo: G.Repository, originalRead: bool)
    ensures var after := JournalAfterRestart(f, op, row, repo, originalRead);
      && JournalSaysWhatIs(op, after, f, row, repo, originalRead)
      && (InterruptedSync(f, op, rows, row, repo) ==> !after.Active() && after.remote == repo.managed && after.state != Succeeded)
  {
    JudgementIsSound(RecoveryOperation(f, Some(op), row), repo, f.seen);
    ClosedRowIsRight(op, Judged(f, Some(op), row, repo), InConflictNow(f, Some(op), row, repo, originalRead),
                     ConflictBehind(f, Some(op), row, originalRead),
                     ConflictPaths(f, Some(op), row, Judged(f, Some(op), row, repo), originalRead));
    if InterruptedSync(f, op, rows, row, repo) {
      SyncIsRecovered(f, op, rows, row, repo, originalRead);
    }
  }

  lemma ClosedRowIsRight(op: Operation, judged: Recovered, conflicted: bool, behind: Option<Operation>, paths: set<Path>)
    requires conflicted && judged.result.state == Aborted ==> behind.Some?
    ensures ClosedRight(op, ClosedRow(op, judged, conflicted, behind, paths), judged, conflicted, behind)
  {}

  lemma RestartIsExact(f: Facts, active: Option<Operation>, rows: Rows, row: Option<Status>, repo: G.Repository, originalRead: bool)
    ensures var after := RowAfterRestart(f, active, row, repo, originalRead);
      && SaysWhatIs(after, f, active, row, repo, originalRead)
      && (RecordedConflict(f, active, row) ==> after.state == StatusConflict)
      && (UnfinishedTransition(f, active) && active.value.kind == ConflictComplete ==>
            (after.state == StatusReady <==> RecoverLocal(active, repo, f.seen).result.state == Pushed))
      && (active.None? && NothingHappened(f, row, repo) ==> KeepsPause(after, row))
      && (active.Some? ==>
            var closed := JournalAfterRestart(f, active.value, row, repo, originalRead);
            && JournalSaysWhatIs(active.value, closed, f, row, repo, originalRead)
            && (InterruptedSync(f, active.value, rows, row, repo) ==>
                  after.remote == repo.managed && !closed.Active() && closed.remote == repo.managed && closed.state != Succeeded))
  {
    RestartSaysWhatIs(f, active, row, repo, originalRead);
    if RecordedConflict(f, active, row) {
      RecordedConflictOutlives(f, active, row, repo, originalRead);
    }
    if UnfinishedTransition(f, active) && active.value.kind == ConflictComplete {
      CompletionIsReadyIfPushed(f, active, row, repo, originalRead);
    }
    if active.None? && NothingHappened(f, row, repo) {
      PauseOutlives(f, row, repo, originalRead);
    }
    if active.Some? {
      RestartClosesRight(f, active.value, rows, row, repo, originalRead);
      if InterruptedSync(f, active.value, rows, row, repo) {
        SyncIsRecovered(f, active.value, rows, row, repo, originalRead);
      }
    }
  }

  /** Nothing of what the restart needs to know of a base is missing. */
  ghost predicate Complete(current: Identity) {
    "" !in {current.baseName, current.repoPath, current.config, current.remote, current.branch}
  }

  predicate FullyConfigured(current: Identity) {
    current.baseName != "" && current.repoPath != "" && current.config != "" && current.remote != "" && current.branch != ""
  }

  /** Some configured base at this path has its records read. */
  ghost predicate RecordsRead(bases: seq<Facts>, storage: seq<Storage>, path: Path)
    requires |storage| == |bases|
  {
    exists i :: 0 <= i < |bases| && Complete(bases[i].current) && bases[i].current.repoPath == path
                && storage[i].latestRead && storage[i].statusRead
  }

  lemma RecordsReadNext(bases: seq<Facts>, storage: seq<Storage>, k: nat)
    requires |storage| == |bases| && k < |bases|
    ensures forall path :: RecordsRead(bases[..k + 1], storage[..k + 1], path)
                      <==> RecordsRead(bases[..k], storage[..k], path)
                           || (Complete(bases[k].current) && bases[k].current.repoPath == path
                               && storage[k].latestRead && storage[k].statusRead)
  {
    var more, all := bases[..k + 1], storage[..k + 1];
    assert forall i :: 0 <= i < k ==> more[i] == bases[..k][i] && all[i] == storage[..k][i];
    assert more[k] == bases[k] && all[k] == storage[k];
    forall path | RecordsRead(bases[..k], storage[..k], path)
      ensures RecordsRead(more, all, path)
    {
      var i :| 0 <= i < k && Complete(bases[..k][i].current) && bases[..k][i].current.repoPath == path
               && storage[..k][i].latestRead && storage[..k][i].statusRead;
      assert more[i] == bases[..k][i];
    }
  }

  /** No two bases share a path, and the unfinished rows are those of their paths. */
  ghost predicate Apart(bases: seq<Facts>, unfinished: map<Path, Operation>, rows: Rows) {
    && (forall i, j :: 0 <= i < j < |bases| ==> bases[i].current.repoPath != bases[j].current.repoPath)
    && forall p :: p in unfinished ==> Knows(rows, unfinished[p]) && unfinished[p].Active() && unfinished[p].identity.repoPath == p
  }

  ghost predicate IsClosed(rows: Rows, id: OperationId) {
    id in rows && !rows[id].Active()
  }

  /** The unfinished rows of the first bases are closed, and those of the others as they were. */
  ghost predicate ClosedUpTo(bases: seq<Facts>, unfinished: map<Path, Operation>, rows: Rows, k: nat)
    requires k <= |bases|
  {
    && (forall i :: 0 <= i < k && Complete(bases[i].current) && bases[i].current.repoPath in unfinished ==>
                      IsClosed(rows, unfinished[bases[i].current.repoPath].id))
    && (forall i :: k <= i < |bases| && bases[i].current.repoPath in unfinished ==> Knows(rows, unfinished[bases[i].current.repoPath]))
  }

  lemma ClosedNext(bases: seq<Facts>, unfinished: map<Path, Operation>, first: Rows, before: Rows, after: Rows, k: nat)
    requires k < |bases| && Apart(bases, unfinished, first) && ClosedUpTo(bases, unfinished, before, k)
    requires var path := bases[k].current.repoPath;
             if path in unfinished then
               after - {unfinished[path].id} == before - {unfinished[path].id}
               && (Complete(bases[k].current) ==> IsClosed(after, unfinished[path].id))
             else after == before
    ensures ClosedUpTo(bases, unfinished, after, k + 1)
  {
    var path := bases[k].current.repoPath;
    if path in unfinished {
      var id := unfinished[path].id;
      forall i | 0 <= i < |bases| && i != k && bases[i].current.repoPath in unfinished
        ensures var other := unfinished[bases[i].current.repoPath].id;
                other != id && (other in after <==> other in before) && (other in after ==> after[other] == before[other])
      {
        var p := bases[i].current.repoPath;
        assert p != path && Knows(first, unfinished[p]) && Knows(first, unfinished[path]);
        var other := unfinished[p].id;
        assert other in after - {id} <==> other in before - {id};
      }
    }
  }

  class RestartedManager {
    var rows: Rows
    var statuses: StatusTable
    var gates: set<Path>

    /** A new process: the records are what it finds, and no gate is set. */
    constructor (journal: Rows, table: StatusTable)
      ensures rows == journal && statuses == table && gates == {}
    {
      rows, statuses, gates := journal, table, {};
    }

    /** The gate is set exactly when the status tells the user so. */
    predicate GateFitsStatus(path: Path)
      reads this
    {
      path in statuses && (path in gates <==> statuses[path].state == StatusConflict || statuses[path].state == StatusNeedsReconnect)
    }

    /** The conflict is announced, and everything else is kept off the base. */
    predicate InConflictState(path: Path)
      reads this
    {
      path in gates && path in statuses && statuses[path].state == StatusConflict
    }

    /** SetConflict */
    method SetGate(path: Path, conflict: bool)
      modifies this`gates
      ensures gates == if conflict then old(gates) + {path} else old(gates) - {path}
    {
      gates := if conflict then gates + {path} else gates - {path};
    }

    method ApplyStatus(status: Status, action: FailureAction, f: Faults) returns (ok: bool)
      modifies this`statuses
      ensures statuses == Published(old(statuses), status, action, f)
      ensures ok <==> Publishes(old(statuses), status, f)
      ensures ok && action != Increment ==>
                status.path in statuses
                && statuses[status.path] == status.(failures := if action == Reset then 0 else FailuresAt(old(statuses), status.path))
    {
      statuses, ok := PublishStatus(statuses, status, action, f);
    }

    method WriteRow(w: Write, stored: bool) returns (ok: bool)
      modifies this`rows
      ensures ok <==> stored && Accepts(old(rows), w)
      ensures rows == if ok then Apply(old(rows), w) else old(rows)
    {
      rows, ok := Attempt(rows, w, stored);
    }

    /** Publish a status and close the row; the gate opens only when both were stored. */
    method Settle(path: Path, id: OperationId, status: Status, action: FailureAction, finish: Finish, w: Storage) returns (ok: bool)
      modifies this
      ensures ok ==> gates == old(gates) - {path}
      ensures !ok ==> gates == old(gates) + {path}
      ensures ok <==> Publishes(old(statuses), status, w.status) && w.finish && Accepts(old(rows), Close(id, finish))
      ensures ok ==> statuses == Published(old(statuses), status, action, w.status)
      ensures ok ==> rows == Apply(old(rows), Close(id, finish)) && status.path in statuses
                     && (action != Increment ==>
                           statuses[status.path] == status.(failures := if action == Reset then 0 else FailuresAt(old(statuses), status.path)))
    {
      var published := ApplyStatus(status, action, w.status);
      if !published {
        SetGate(path, true);
        return false;
      }
      var finished := WriteRow(Close(id, finish), w.finish);
      SetGate(path, !finished);
      ok := finished;
    }

    /** One base of GitManager.RecoverLocal. `active` is its unfinished row, if it has one. */
    method RecoverBase(f: Facts, active: Option<Operation>, repo: G.Repository, w: Storage) returns (ok: bool)
      modifies this
      ensures forall p :: p != f.current.repoPath ==> (p in gates <==> p in old(gates))
      ensures ok <==> ReadsSucceed(f, active, M.RowOf(old(statuses), f.current.repoPath), w) && StoresAll(f, active, old(rows), old(statuses), repo, w)
      ensures Works(w) && (active.Some? ==> HoldsActive(old(rows), active.value.id)) ==> ok
      ensures ok && !G.NoMerge(repo) ==> f.current.repoPath in gates
      ensures ok ==> GateFitsStatus(f.current.repoPath)
      ensures ok && RecordedConflict(f, active, M.RowOf(old(statuses), f.current.repoPath)) ==> InConflictState(f.current.repoPath)
      ensures !G.NoMerge(repo) ==> (f.current.repoPath in gates <==> f.current.repoPath in old(gates) || (w.latestRead && w.statusRead))
      ensures active.None? && f.latest.None? && f.original.None? && !f.canonical && w.latestRead && w.statusRead ==>
                f.current.repoPath in gates
      ensures !ok && f.current.repoPath !in gates
              <==> OpensUnsaved(f, active, old(rows), old(statuses), repo, w)
                   || (f.current.repoPath !in old(gates) && !(w.latestRead && w.statusRead))
      ensures ok && UnfinishedTransition(f, active) && active.value.kind == ConflictComplete ==>
                (statuses[f.current.repoPath].state == StatusReady
                 <==> RecoverLocal(active, repo, f.seen).result.state == Pushed)
      ensures ok ==> SaysWhatIs(statuses[f.current.repoPath], f, active, M.RowOf(old(statuses), f.current.repoPath), repo, w.originalRead)
      ensures ok && active.None? && NothingHappened(f, M.RowOf(old(statuses), f.current.repoPath), repo) ==>
                KeepsPause(statuses[f.current.repoPath], M.RowOf(old(statuses), f.current.repoPath))
      ensures active.None? ==> rows == old(rows)
      ensures ok && active.Some? && Knows(old(rows), active.value) ==>
                && active.value.id in rows && rows - {active.value.id} == old(rows) - {active.value.id}
                && JournalSaysWhatIs(active.value, rows[active.value.id], f, M.RowOf(old(statuses), f.current.repoPath), repo, w.originalRead)
      ensures ok && active.Some? && InterruptedSync(f, active.value, old(rows), M.RowOf(old(statuses), f.current.repoPath), repo) ==>
                TrustAgrees(rows, statuses, active.value.id, f.current.repoPath, repo)
                && rows[active.value.id].state != Succeeded && rows[active.value.id].identity == active.value.identity
    {
      var path := f.current.repoPath;
      if !w.latestRead || !w.statusRead {
        return false;
      }
      var row := M.RowOf(statuses, path);
      var transition := UnfinishedTransition(f, active);
      if !transition && StatusInConflict(row) && !w.originalRead {
        SetGate(path, true);
        return false;
      }
      if transition && !(StatusInConflict(row) && w.originalRead && f.original.Some?) && !w.conflictRead {
        SetGate(path, true);
        return false;
      }
      ok := RecoverRead(f, active, repo, row, w);
    }

    /** The base once its records are read. */
    method RecoverRead(f: Facts, active: Option<Operation>, repo: G.Repository, row: Option<Status>, w: Storage) returns (ok: bool)
      requires row == M.RowOf(statuses, f.current.repoPath) && ReadsSucceed(f, active, row, w)
      modifies this
      ensures forall p :: p != f.current.repoPath ==> (p in gates <==> p in old(gates))
      ensures ok <==> StoresAll(f, active, old(rows), old(statuses), repo, w)
      ensures !G.NoMerge(repo) ==> f.current.repoPath in gates
      ensures active.None? && RecoveryOperation(f, active, row).None? && !f.canonical ==> f.current.repoPath in gates
      ensures ok ==> GateFitsStatus(f.current.repoPath)
      ensures !ok && f.current.repoPath !in gates <==> OpensUnsaved(f, active, old(rows), old(statuses), repo, w)
      ensures ok && RecordedConflict(f, active, row) ==> InConflictState(f.current.repoPath)
      ensures ok && UnfinishedTransition(f, active) && active.value.kind == ConflictComplete ==>
                (statuses[f.current.repoPath].state == StatusReady
                 <==> RecoverLocal(active, repo, f.seen).result.state == Pushed)
      ensures ok ==> SaysWhatIs(statuses[f.current.repoPath], f, active, row, repo, w.originalRead)
      ensures ok && active.None? && NothingHappened(f, row, repo) ==> KeepsPause(statuses[f.current.repoPath], row)
      ensures active.None? ==> rows == old(rows)
      ensures ok && active.Some? && Knows(old(rows), active.value) ==>
                && active.value.id in rows && rows - {active.value.id} == old(rows) - {active.value.id}
                && JournalSaysWhatIs(active.value, rows[active.value.id], f, row, repo, w.originalRead)
      ensures ok && active.Some? && InterruptedSync(f, active.value, old(rows), row, repo) ==>
                TrustAgrees(rows, statuses, active.value.id, f.current.repoPath, repo)
                && rows[active.value.id].state != Succeeded && rows[active.value.id].identity == active.value.identity
    {
      ok := RecoverJudged(f, active, repo, row, w);
      RestartIsExact(f, active, old(rows), row, repo, w.originalRead);
    }

    /** The base once recovery has been asked about it. */
    method RecoverJudged(f: Facts, active: Option<Operation>, repo: G.Repository, row: Option<Status>, w: Storage) returns (ok: bool)
      requires row == M.RowOf(statuses, f.current.repoPath) && ReadsSucceed(f, active, row, w)
      modifies this
      ensures forall p :: p != f.current.repoPath ==> (p in gates <==> p in old(gates))
      ensures ok <==> StoresAll(f, active, old(rows), old(statuses), repo, w)
      ensures !G.NoMerge(repo) ==> f.current.repoPath in gates
      ensures active.None? && RecoveryOperation(f, active, row).None? && !f.canonical ==> f.current.repoPath in gates
      ensures ok ==> GateFitsStatus(f.current.repoPath)
      ensures !ok && f.current.repoPath !in gates <==> OpensUnsaved(f, active, old(rows), old(statuses), repo, w)
      ensures ok ==> f.current.repoPath in statuses
                     && statuses[f.current.repoPath] == RowAfterRestart(f, active, row, repo, w.originalRead)
      ensures active.None? ==> rows == old(rows)
      ensures ok && active.Some? && Knows(old(rows), active.value) ==>
                rows == old(rows)[active.value.id := JournalAfterRestart(f, active.value, row, repo, w.originalRead)]
    {
      var judged := Judged(f, active, row, repo);
      JudgementIsSound(RecoveryOperation(f, active, row), repo, f.seen);
      var conflicted := InConflictNow(f, active, row, repo, w.originalRead);
      var behind, paths := ConflictBehind(f, active, row, w.originalRead), ConflictPaths(f, active, row, judged, w.originalRead);
      ok := Conclude(f, active, judged, conflicted, behind, paths, row, StartingStatus(f, row, judged), RecoveryOperation(f, active, row), w);
    }

    /** The branches for an unfinished row. `done` is false when the row is closed and the base still to be judged. */
    method ConcludeUnfinished(f: Facts, active: Operation, judged: Recovered, conflicted: bool, behind: Option<Operation>, paths: set<Path>,
                              status: Status, w: Storage)
      returns (ok: bool, done: bool)
      requires InterruptedCompletion(judged.result.state) || judged.result.state in {Pushed, Aborted} ==> !judged.result.blocking
      requires conflicted && judged.result.state == Aborted ==> behind.Some?
      requires status.path == f.current.repoPath && status.failures == FailuresAt(statuses, status.path)
      modifies this
      ensures forall p :: p != f.current.repoPath ==> (p in gates <==> p in old(gates))
      ensures !done ==> gates == old(gates) && statuses == old(statuses) && ClosesUnfinished(old(rows), active, judged, w)
      ensures !done && Knows(old(rows), active) ==> rows == old(rows)[active.id := ClosedRow(active, judged, conflicted, behind, paths)]
      ensures done && judged.result.blocking ==> f.current.repoPath in gates
      ensures done && !ok ==> f.current.repoPath in gates
      ensures done && ok ==> GateFitsStatus(f.current.repoPath) && active.kind != Sync
      ensures done && ok ==>
                status.path in statuses && statuses[status.path] == SettledRow(status, active, judged, conflicted, behind, paths)
      ensures done && ok && Knows(old(rows), active) ==> rows == old(rows)[active.id := ClosedRow(active, judged, conflicted, behind, paths)]
      ensures Settles(active, judged.result.state, conflicted, behind) ==>
                done && (ok <==> Stores(f, Some(active), old(rows), old(statuses), judged, conflicted, behind, None, status, w))
      // a row that cannot be closed is shown, and the base kept off limits
      ensures !Settles(active, judged.result.state, conflicted, behind) && done && Publishes(old(statuses), status, w.status) ==>
                status.path in statuses
                && statuses[status.path] == if conflicted then status.(state := StatusConflict, changedPaths := paths, error := Some(GitConflict))
                                            else status.(state := StatusNeedsReconnect, error := Some(CommandFailed))
      ensures !Settles(active, judged.result.state, conflicted, behind) ==>
                (done <==> !ClosesUnfinished(old(rows), active, judged, w)) && (done ==> !ok)
    {
      ok, done := RecoverTransition(f, active, judged, conflicted, behind, paths, status, w);
      if done {
        return;
      }
      var closed := CloseUnfinished(active, judged, conflicted, paths, w);
      if !closed {
        SetGate(f.current.repoPath, true);
        var _ := ApplyStatus(if conflicted then status.(state := StatusConflict, changedPaths := paths, error := Some(GitConflict))
                             else status.(state := StatusNeedsReconnect, error := Some(CommandFailed)), Preserve, w.status);
        return false, true;
      }
    }

    /** What follows the judgement where there is an unfinished row: it is settled, or closed and the gate decided. */
    method ConcludeActive(f: Facts, active: Operation, judged: Recovered, conflicted: bool, behind: Option<Operation>, paths: set<Path>,
                          row: Option<Status>, status: Status, ghost recovered: Option<Operation>, w: Storage) returns (ok: bool)
      requires status.path == f.current.repoPath && status.failures == FailuresAt(statuses, status.path)
      requires row.Some? && row.value.state == StatusPaused <==> status.state == StatusPaused
      requires InterruptedCompletion(judged.result.state) || judged.result.state in {Pushed, Aborted} ==> !judged.result.blocking
      requires conflicted && judged.result.state == Aborted ==> behind.Some?
      modifies this
      ensures forall p :: p != f.current.repoPath ==> (p in gates <==> p in old(gates))
      ensures ok <==> Stores(f, Some(active), old(rows), old(statuses), judged, conflicted, behind, recovered, status, w)
      ensures judged.result.blocking ==> f.current.repoPath in gates
      ensures ok ==> GateFitsStatus(f.current.repoPath)
      ensures ok ==> f.current.repoPath in statuses
                     && statuses[f.current.repoPath] == RestartRow(status, Some(active), recovered, judged, conflicted, behind, paths, f.canonical)
      ensures ok && Knows(old(rows), active) ==> rows == old(rows)[active.id := ClosedRow(active, judged, conflicted, behind, paths)]
      ensures !ok && f.current.repoPath !in gates
              <==> OpensWith(f, Some(active), old(rows), judged, conflicted, recovered, w) && !Publishes(old(statuses), status, w.status)
    {
      var done;
      ok, done := ConcludeUnfinished(f, active, judged, conflicted, behind, paths, status, w);
      if !done {
        ok := ConcludeBase(f, judged, conflicted, paths, row, status, w);
      }
    }

    /** What follows the judgement: settle an interrupted completion or abort, close any other unfinished
        row, and decide about the gate. */
    method Conclude(f: Facts, active: Option<Operation>, judged: Recovered, conflicted: bool, behind: Option<Operation>, paths: set<Path>,
                    row: Option<Status>, status: Status, recovered: Option<Operation>, w: Storage) returns (ok: bool)
      requires status.path == f.current.repoPath && status.failures == FailuresAt(statuses, status.path)
      requires row.Some? && row.value.state == StatusPaused <==> status.state == StatusPaused
      requires InterruptedCompletion(judged.result.state) || judged.result.state in {Pushed, Aborted} ==> !judged.result.blocking
      requires conflicted && judged.result.state == Aborted ==> behind.Some?
      modifies this
      ensures forall p :: p != f.current.repoPath ==> (p in gates <==> p in old(gates))
      ensures ok <==> Stores(f, active, old(rows), old(statuses), judged, conflicted, behind, recovered, status, w)
      ensures judged.result.blocking ==> f.current.repoPath in gates
      ensures active.None? && recovered.None? && !f.canonical ==> f.current.repoPath in gates
      ensures ok ==> GateFitsStatus(f.current.repoPath)
      ensures ok ==> f.current.repoPath in statuses
                     && statuses[f.current.repoPath] == RestartRow(status, active, recovered, judged, conflicted, behind, paths, f.canonical)
      ensures active.None? ==> rows == old(rows)
      ensures ok && active.Some? && Knows(old(rows), active.value) ==>
                rows == old(rows)[active.value.id := ClosedRow(active.value, judged, conflicted, behind, paths)]
      ensures !ok && f.current.repoPath !in gates
              <==> OpensWith(f, active, old(rows), judged, conflicted, recovered, w) && !Publishes(old(statuses), status, w.status)
    {
      if active.Some? {
        ok := ConcludeActive(f, active.value, judged, conflicted, behind, paths, row, status, recovered, w);
        return;
      }
      if recovered.Some? && recovered.value.kind == ConflictComplete && InterruptedCompletion(judged.result.state) {
        ok := RecoverFinished(f, judged, recovered.value, status, w);
        return;
      }
      ok := ConcludeBase(f, judged, conflicted, paths, row, status, w);
    }

    /** A completion whose row is already finished, but whose push is still open. */
    method RecoverFinished(f: Facts, judged: Recovered, op: Operation, status: Status, w: Storage) returns (ok: bool)
      requires status.path == f.current.repoPath && status.failures == FailuresAt(statuses, status.path)
      modifies this
      ensures rows == old(rows)
      ensures gates == if ok then old(gates) - {f.current.repoPath} else old(gates) + {f.current.repoPath}
      ensures ok ==> GateFitsStatus(f.current.repoPath)
      ensures ok <==> (judged.result.state == NeedsReindex && f.indexed ==> w.noteSync) && Publishes(old(statuses), status, w.status)
      ensures ok ==> status.path in statuses
                     && statuses[status.path] == OpenRow(status, op, op.stage, judged.result.state)
    {
      if judged.result.state == NeedsReindex && f.indexed && !w.noteSync {
        SetGate(f.current.repoPath, true);
        return false;
      }
      ok := ApplyStatus(status.(state := StatusError, operationId := op.id, stage := Some(op.stage), changedPaths := op.changedPaths,
                                error := Some(OpenPush(judged.result.state))), Preserve, w.status);
      SetGate(f.current.repoPath, !ok);
    }

    /** A rebuilt index, synchronized and journalled. */
    method Reindex(f: Facts, active: Operation, judged: Recovered, w: Storage) returns (ok: bool)
      modifies this`rows
      ensures ok <==> Reindexes(f, old(rows), active, judged, w)
      ensures HoldsActive(rows, active.id) <==> HoldsActive(old(rows), active.id)
      ensures ok && judged.result.state == NeedsReindex ==> active.id in rows && rows[active.id].stage == StageConflictReindexed
      ensures ok && Knows(old(rows), active) ==>
                rows == old(rows)[active.id := active.(state := if judged.result.state == NeedsReindex then Running else active.state,
                stage := StageAfter(active, judged))]
    {
      ok := true;
      if judged.result.state == NeedsReindex {
        if f.indexed && !w.noteSync {
          return false;
        }
        ok := WriteRow(Progress(active.id, CheckpointWith(active, StageConflictReindexed, active.remote)), w.checkpoint);
      }
    }

    /** A completion that stopped after its commit: its row is closed as failed, at the stage it has reached. */
    method RecoverInterrupted(f: Facts, active: Operation, judged: Recovered, status: Status, w: Storage) returns (ok: bool)
      requires status.path == f.current.repoPath && status.failures == FailuresAt(statuses, status.path)
      modifies this
      ensures gates == if ok then old(gates) - {f.current.repoPath} else old(gates) + {f.current.repoPath}
      ensures ok <==> HoldsActive(old(rows), active.id) && w.finish && Publishes(old(statuses), status, w.status)
                      && Reindexes(f, old(rows), active, judged, w)
      ensures ok ==>
                && active.id in rows && rows[active.id].state == Failed
                && (judged.result.state == NeedsReindex ==> rows[active.id].stage == StageConflictReindexed)
                && status.path in statuses
                && statuses[status.path] == OpenRow(status, active, StageAfter(active, judged), judged.result.state)
      ensures ok && Knows(old(rows), active) ==> rows == old(rows)[active.id := active.(state := Failed, stage := StageAfter(active, judged))]
    {
      var path, stage := f.current.repoPath, StageAfter(active, judged);
      var indexed := Reindex(f, active, judged, w);
      if !indexed {
        SetGate(path, true);
        return false;
      }
      ok := Settle(path, active.id, status.(state := StatusError, operationId := active.id, stage := Some(stage),
                                            changedPaths := active.changedPaths, error := Some(OpenPush(judged.result.state))), Preserve,
                   FinishAs(active, Failed, stage, active.remote), w);
    }

    /** A completion whose push was accepted and trusted: it has succeeded. */
    method RecoverPushed(f: Facts, active: Operation, judged: Recovered, status: Status, w: Storage) returns (ok: bool)
      requires status.path == f.current.repoPath && status.failures == FailuresAt(statuses, status.path)
      modifies this
      ensures gates == if ok then old(gates) - {f.current.repoPath} else old(gates) + {f.current.repoPath}
      ensures ok <==> HoldsActive(old(rows), active.id) && w.finish && Publishes(old(statuses), status, w.status) && (f.indexed ==> w.noteSync)
      ensures ok ==>
                && active.id in rows && rows[active.id].state == Succeeded && rows[active.id].stage == StageCompleted
                && status.path in statuses
                && statuses[status.path] == OverRow(status, active, StatusReady).(failures := 0)
      ensures ok && Knows(old(rows), active) ==>
                rows == old(rows)[active.id := active.(state := Succeeded, stage := StageCompleted, remote := FillOid(active.remote, judged.result.remote))]
    {
      var path := f.current.repoPath;
      if f.indexed && !w.noteSync {
        SetGate(path, true);
        return false;
      }
      ok := Settle(path, active.id, status.(state := StatusReady, operationId := active.id, stage := Some(StageCompleted),
                                            changedPaths := active.changedPaths, error := None), Reset,
                   FinishAs(active, Succeeded, StageCompleted, judged.result.remote), w);
    }

    /** An abort that did not come to its end: its row is closed, and the conflict shown as that of the operation it came from. */
    method ReturnConflict(path: Path, active: Operation, original: Operation, paths: set<Path>, status: Status, w: Storage) returns (ok: bool)
      requires status.path == path && status.failures == FailuresAt(statuses, path)
      modifies this
      ensures gates == old(gates) + {path}
      ensures ok <==> HoldsActive(old(rows), active.id) && w.finish && Publishes(old(statuses), status, w.status)
      ensures ok ==> path in statuses && statuses[path] == ReturnedRow(status, original, paths)
      ensures ok && Knows(old(rows), active) ==> rows == old(rows)[active.id := active.(state := Failed)]
    {
      var finished := WriteRow(Close(active.id, FinishAs(active, Failed, active.stage, active.remote)), w.finish);
      if finished {
        ok := ApplyStatus(status.(state := StatusConflict, operationId := original.id, stage := Some(original.stage), changedPaths := paths,
                                  error := Some(GitConflict)), Preserve, w.status);
      } else {
        ok := false;
      }
      SetGate(path, true);
    }

    /** An abort whose merge is gone: it has succeeded, and the base is paused. */
    method RecoverAborted(path: Path, active: Operation, status: Status, w: Storage) returns (ok: bool)
      requires status.path == path && status.failures == FailuresAt(statuses, path)
      modifies this
      ensures gates == if ok then old(gates) - {path} else old(gates) + {path}
      ensures ok <==> HoldsActive(old(rows), active.id) && w.finish && Publishes(old(statuses), status, w.status)
      ensures ok ==> path in statuses && statuses[path] == OverRow(status, active, StatusPaused)
      ensures ok && Knows(old(rows), active) ==> rows == old(rows)[active.id := active.(state := Succeeded, stage := StageCompleted)]
    {
      ok := Settle(path, active.id, status.(state := StatusPaused, operationId := active.id, stage := Some(StageCompleted),
                                            changedPaths := active.changedPaths, error := None), Preserve,
                   FinishAs(active, Succeeded, StageCompleted, active.remote), w);
    }

    /** The branches for an unfinished completion or abort. `done` is false when the base falls through them. */
    method RecoverTransition(f: Facts, active: Operation, judged: Recovered, conflicted: bool, behind: Option<Operation>, paths: set<Path>,
                             status: Status, w: Storage)
      returns (ok: bool, done: bool)
      requires InterruptedCompletion(judged.result.state) || judged.result.state in {Pushed, Aborted} ==> !judged.result.blocking
      requires conflicted && judged.result.state == Aborted ==> behind.Some?
      requires status.path == f.current.repoPath && status.failures == FailuresAt(statuses, status.path)
      modifies this
      ensures done <==> Settles(active, judged.result.state, conflicted, behind)
      ensures forall p :: p != f.current.repoPath ==> (p in gates <==> p in old(gates))
      ensures !done ==> gates == old(gates) && rows == old(rows) && statuses == old(statuses)
      ensures done && judged.result.blocking ==> f.current.repoPath in gates
      ensures done && !ok ==> f.current.repoPath in gates
      ensures done && ok ==> GateFitsStatus(f.current.repoPath)
      ensures done ==> (ok <==> HoldsActive(old(rows), active.id) && w.finish && Publishes(old(statuses), status, w.status)
                                && (active.kind == ConflictComplete ==>
                                      if judged.result.state == Pushed then f.indexed ==> w.noteSync else Reindexes(f, old(rows), active, judged, w)))
      ensures done && ok && active.kind == ConflictComplete && judged.result.state != Pushed ==>
                active.id in rows && rows[active.id].state == Failed
                && (judged.result.state == NeedsReindex ==> rows[active.id].stage == StageConflictReindexed)
      ensures done && ok ==>
                status.path in statuses && statuses[status.path] == SettledRow(status, active, judged, conflicted, behind, paths)
      ensures done && ok && Knows(old(rows), active) ==> rows == old(rows)[active.id := ClosedRow(active, judged, conflicted, behind, paths)]
    {
      var path := f.current.repoPath;
      done := true;
      if active.kind == ConflictAbort && conflicted && behind.Some? {
        ok := ReturnConflict(path, active, behind.value, paths, status, w);
        return;
      }
      if active.kind == ConflictComplete && InterruptedCompletion(judged.result.state) {
        ok := RecoverInterrupted(f, active, judged, status, w);
        return;
      }
      if active.kind == ConflictComplete && judged.result.state == Pushed {
        ok := RecoverPushed(f, active, judged, status, w);
        return;
      }
      if active.kind == ConflictAbort && judged.result.state == Aborted {
        ok := RecoverAborted(path, active, status, w);
        return;
      }
      ok, done := true, false;
    }

    /** One base, with its unfinished row; one that is not fully configured is left alone. */
    method RecoverNext(bases: seq<Facts>, k: nat, unfinished: map<Path, Operation>, repo: G.Repository, w: Storage, ghost first: Rows)
      returns (ok: bool)
      requires k < |bases|
      modifies this
      ensures forall p :: p != bases[k].current.repoPath ==> (p in gates <==> p in old(gates))
      ensures !Complete(bases[k].current) ==> ok && gates == old(gates) && rows == old(rows) && statuses == old(statuses)
      ensures Complete(bases[k].current) && !G.NoMerge(repo) ==>
                (bases[k].current.repoPath in gates <==> bases[k].current.repoPath in old(gates) || (w.latestRead && w.statusRead))
                && (ok ==> bases[k].current.repoPath in gates)
      ensures Apart(bases, unfinished, first) && ClosedUpTo(bases, unfinished, old(rows), k) ==>
                (Works(w) ==> ok) && (ok ==> ClosedUpTo(bases, unfinished, rows, k + 1))
    {
      ok := true;
      var f := bases[k];
      if FullyConfigured(f.current) {
        var path := f.current.repoPath;
        var active := if path in unfinished then Some(unfinished[path]) else None;
        ok := RecoverBase(f, active, repo, w);
      }
      if ok && Apart(bases, unfinished, first) && ClosedUpTo(bases, unfinished, old(rows), k) {
        ClosedNext(bases, unfinished, first, old(rows), rows, k);
      }
    }

    /** The bases in turn; nothing is done if the unfinished rows cannot be listed. Without an error, every base
        with a merge in progress is gated; with one, exactly those that were gated or whose records could be read. */
    method RecoverAll(listed: bool, bases: seq<Facts>, unfinished: map<Path, Operation>, repos: Path -> G.Repository, storage: seq<Storage>)
      returns (ok: bool)
      requires |storage| == |bases|
      modifies this
      ensures ok ==> forall f :: f in bases && Complete(f.current) && !G.NoMerge(repos(f.current.repoPath)) ==>
                                   f.current.repoPath in gates
      ensures forall path :: !G.NoMerge(repos(path)) ==>
                               (path in gates <==> path in old(gates) || (listed && RecordsRead(bases, storage, path)))
      ensures ok ==> listed
      // every unfinished row is closed, and with working storage there is no error
      ensures ok && Apart(bases, unfinished, old(rows)) ==> ClosedUpTo(bases, unfinished, rows, |bases|)
      ensures listed && Apart(bases, unfinished, old(rows)) && (forall w :: w in storage ==> Works(w)) ==> ok
    {
      if !listed {
        return false;
      }
      ok := true;
      for k := 0 to |bases|
        invariant ok ==> forall i :: 0 <= i < k && Complete(bases[i].current) && !G.NoMerge(repos(bases[i].current.repoPath)) ==>
                                       bases[i].current.repoPath in gates
        invariant forall path :: !G.NoMerge(repos(path)) ==>
                                   (path in gates <==> path in old(gates) || RecordsRead(bases[..k], storage[..k], path))
        invariant ok && Apart(bases, unfinished, old(rows)) ==> ClosedUpTo(bases, unfinished, rows, k)
        invariant Apart(bases, unfinished, old(rows)) && (forall w :: w in storage ==> Works(w)) ==> ok
      {
        var f := bases[k];
        RecordsReadNext(bases, storage, k);
        var recovered := RecoverNext(bases, k, unfinished, repos(f.current.repoPath), storage[k], old(rows));
        ok := ok && recovered;
      }
      assert bases[..|bases|] == bases && storage[..|storage|] == storage;
    }

    /** An unfinished row of any kind: checkpoint the recovered remote, then close the row. */
    method CloseUnfinished(active: Operation, judged: Recovered, conflicted: bool, paths: set<Path>, w: Storage) returns (ok: bool)
      modifies this`rows
      ensures ok <==> ClosesUnfinished(old(rows), active, judged, w)
      ensures ok && Knows(old(rows), active) ==>
                rows == old(rows)[active.id := active.(state := if conflicted then Conflict else Failed,
                remote := if judged.result.remote.Some? then judged.result.remote else active.remote,
                conflictPaths := if conflicted then paths else active.conflictPaths)]
      ensures ok ==> active.id in rows && rows[active.id].state == (if conflicted then Conflict else Failed)
                     && rows[active.id].identity == old(rows)[active.id].identity
                     && rows[active.id].conflictPaths == if conflicted then paths else active.conflictPaths
      ensures ok && active.id in old(rows) && old(rows)[active.id] == active && judged.result.remote.Some? ==>
                active.id in rows && !rows[active.id].Active() && rows[active.id].remote == judged.result.remote
    {
      var remote := active.remote;
      if judged.result.remote.Some? && active.remote != judged.result.remote {
        var saved := WriteRow(Progress(active.id, CheckpointWith(active, active.stage, judged.result.remote)), w.checkpoint);
        if !saved {
          return false;
        }
        remote := judged.result.remote;
      }
      var finish := FinishAs(active, if conflicted then Conflict else Failed, active.stage, remote);
      ok := WriteRow(Close(active.id, if conflicted then finish.(conflictPaths := Some(paths)) else finish), w.finish);
    }

    /** The last switch: gated while anything is wrong, opened otherwise, and the status written after that. */
    method ConcludeBase(f: Facts, judged: Recovered, conflicted: bool, paths: set<Path>, row: Option<Status>, status: Status, w: Storage)
      returns (ok: bool)
      requires status.failures == FailuresAt(statuses, status.path)
      requires row.Some? && row.value.state == StatusPaused <==> status.state == StatusPaused
      modifies this`gates, this`statuses
      ensures gates == if conflicted || judged.failure.Some? || judged.result.blocking || !f.canonical
                       then old(gates) + {f.current.repoPath} else old(gates) - {f.current.repoPath}
      ensures ok <==> Publishes(old(statuses), status, w.status)
      ensures ok ==> status.path in statuses && statuses[status.path] == PlainRow(status, judged, conflicted, paths, f.canonical)
      ensures ok && status.path == f.current.repoPath ==> GateFitsStatus(f.current.repoPath)
    {
      var path := f.current.repoPath;
      var next := status;
      if conflicted {
        SetGate(path, true);
        next := next.(state := StatusConflict, changedPaths := paths, error := Some(GitConflict));
      } else if judged.failure.Some? || judged.result.blocking || !f.canonical {
        SetGate(path, true);
        next := next.(state := StatusNeedsReconnect, error := Some(SafeCode(judged.failure)));
      } else {
        SetGate(path, false);
        next := if row.Some? && row.value.state == StatusPaused then next.(state := StatusPaused)
                else next.(state := StatusReady, error := None);
      }
      ok := ApplyStatus(next, Preserve, w.status);
    }
  }

  /** The start of a process: it serves only if the restart reports no error, and then every base with a merge in
      progress is gated. */
  method StartUp(journal: Rows, table: StatusTable, listed: bool, bases: seq<Facts>, unfinished: map<Path, Operation>,
                 repos: Path -> G.Repository, storage: seq<Storage>) returns (m: RestartedManager, serving: bool)
    requires |storage| == |bases|
    ensures fresh(m)
    ensures serving ==> forall f :: f in bases && Complete(f.current) && !G.NoMerge(repos(f.current.repoPath)) ==>
                                      f.current.repoPath in m.gates
    ensures forall path :: !G.NoMerge(repos(path)) ==> (path in m.gates <==> listed && RecordsRead(bases, storage, path))
  {
    m := new RestartedManager(journal, table);
    serving := m.RecoverAll(listed, bases, unfinished, repos, storage);
  }

  /** A merge in progress is left ungated when the base's records cannot be read; the process does not serve then. */
  method UnreadBaseStaysUngated() returns (f: Facts, repo: G.Repository, m: RestartedManager, serving: bool)
    ensures Complete(f.current) && !G.NoMerge(repo)
    ensures f.current.repoPath !in m.gates && !serving
  {
    var merging := Some(Commit(0, []));
    repo := G.Repository(merging, merging, {}, None, None, None);
    f := Facts(Identity("base", "/notes", "fp", "rfp", "main"), true, None, None, None, false, HealthyInspection(repo));
    var unread := Storage(false, true, true, true, true, true, true, Faults(true, true, true, true));
    var there := repo;
    m, serving := StartUp(map[], map[], true, [f], map[], _ => there, [unread]);
    assert !RecordsRead([f], [unread], f.current.repoPath);
    assert f in [f];
  }

  /** A gate is opened although an error is returned: one base is found out of order and gated, another one at the same
      path is in order, and the status cannot be written. */
  method GateOpensUnsaved() returns (f: Facts, m: RestartedManager, gated: bool, ok: bool)
    ensures gated && f.current.repoPath !in m.gates && !ok
  {
    var repo := G.Repository(None, None, {}, None, None, None);
    f := Facts(Identity("base", "/notes", "fp", "rfp", "main"), true, None, None, None, false, HealthyInspection(repo));
    var unsaved := Storage(true, true, true, true, true, true, true, Faults(true, false, false, true));
    m := new RestartedManager(map[], map[]);
    var other := f.(current := f.current.(baseName := "other"), canonical := false);
    var _ := m.RecoverBase(other, None, repo, unsaved);
    gated := f.current.repoPath in m.gates;
    assert OpensUnsaved(f, None, m.rows, m.statuses, repo, unsaved);
    ok := m.RecoverBase(f, None, repo, unsaved);
  }
}
