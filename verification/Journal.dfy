/** The durable journal of Git operations: one row per operation, written by three guarded
    statements (create, checkpoint, finish). */
module Journal {
  import opened Basics
  import opened CommitGraph

  type OperationId = string
  type Path = string

  datatype Kind = Initialize | Sync | ConflictComplete | ConflictAbort
  datatype State = Queued | Running | Succeeded | Failed | Conflict

  datatype Stage =
    | StageQueued | StageProbing | StageFetching | StageSnapshotting | StageBackingUp | StageSwitching
    | StageMerging | StageReindexing | StagePushing | StageCompleted
    | StageConflictCompleting | StageConflictCommitted | StageConflictReindexed | StageConflictPushing
    | StageConflictAborting

  /** The configured base an operation was admitted for. */
  datatype Identity = Identity(baseName: string, repoPath: Path, config: string, remote: string, branch: string)

  /** One row. The `sorted, duplicate-free` path lists of the columns are sets here. */
  datatype Operation = Operation(
    id: OperationId,
    identity: Identity,
    kind: Kind,
    state: State,
    stage: Stage,
    backupRef: string,
    local: Oid,
    candidate: Oid,
    remote: Oid,
    push: Oid,
    changedPaths: set<Path>,
    conflictPaths: set<Path>)
  {
    predicate Active() { state == Queued || state == Running }
  }

  datatype Checkpoint = Checkpoint(
    stage: Stage,
    backupRef: string,
    local: Oid,
    candidate: Oid,
    remote: Oid,
    push: Oid,
    changedPaths: set<Path>,
    conflictPaths: set<Path>)

  /** The checkpoint a run starts from: the columns of its own row. */
  function CheckpointOf(row: Operation): Checkpoint {
    Checkpoint(row.stage, row.backupRef, row.local, row.candidate, row.remote, row.push, row.changedPaths, row.conflictPaths)
  }

  /** The row a checkpoint leaves: every progress column is overwritten. */
  function Checkpointed(row: Operation, c: Checkpoint): Operation {
    row.(state := Running, stage := c.stage, backupRef := c.backupRef, local := c.local, candidate := c.candidate,
    remote := c.remote, push := c.push, changedPaths := c.changedPaths, conflictPaths := c.conflictPaths)
  }

  /** The columns admission wrote stay, and the operation does not end. */
  predicate SameOperation(before: Operation, after: Operation) {
    before.id == after.id && before.identity == after.identity && before.kind == after.kind && (before.Active() ==> after.Active())
  }

  /** What a finish statement carries; a path list may be left unspecified. */
  datatype Finish = Finish(
    state: State,
    stage: Option<Stage>,
    backupRef: string,
    local: Oid,
    candidate: Oid,
    remote: Oid,
    push: Oid,
    changedPaths: Option<set<Path>>,
    conflictPaths: Option<set<Path>>)

  function FillOid(column: Oid, value: Oid): Oid {
    if column.None? then value else column
  }

  /** The row a finish leaves: empty identifier columns are filled, the others keep their value. */
  function Finished(row: Operation, f: Finish): Operation {
    var stage :=
      if f.stage == Some(StageCompleted) then StageCompleted
      else if row.stage == StageQueued && f.stage.Some? then f.stage.value
      else row.stage;
    row.(state := f.state, stage := stage,
    backupRef := if row.backupRef == "" then f.backupRef else row.backupRef,
    local := FillOid(row.local, f.local),
    candidate := FillOid(row.candidate, f.candidate),
    remote := FillOid(row.remote, f.remote),
    push := FillOid(row.push, f.push),
    changedPaths := if f.changedPaths.Some? then f.changedPaths.value else row.changedPaths,
    conflictPaths := if f.conflictPaths.Some? then f.conflictPaths.value else row.conflictPaths)
  }

  /** What an accepted finish makes of a row: every column of progress that was empty takes its own value, no other
      one changes, a path list is replaced by its own if one is given, and the stage only by the last one. */
  ghost predicate ClosedBy(row: Operation, f: Finish, after: Operation) {
    && after.id == row.id && after.identity == row.identity && after.kind == row.kind && after.state == f.state
    && (row.backupRef == "" ==> after.backupRef == f.backupRef) && (row.backupRef != "" ==> after.backupRef == row.backupRef)
    && (row.local.None? ==> after.local == f.local) && (row.local.Some? ==> after.local == row.local)
    && (row.candidate.None? ==> after.candidate == f.candidate) && (row.candidate.Some? ==> after.candidate == row.candidate)
    && (row.remote.None? ==> after.remote == f.remote) && (row.remote.Some? ==> after.remote == row.remote)
    && (row.push.None? ==> after.push == f.push) && (row.push.Some? ==> after.push == row.push)
    && (f.changedPaths.None? ==> after.changedPaths == row.changedPaths)
    && (f.changedPaths.Some? ==> after.changedPaths == f.changedPaths.value)
    && (f.conflictPaths.None? ==> after.conflictPaths == row.conflictPaths)
    && (f.conflictPaths.Some? ==> after.conflictPaths == f.conflictPaths.value)
    && (after.stage != row.stage ==> f.stage == Some(after.stage) && (after.stage == StageCompleted || row.stage == StageQueued))
    && (f.stage == Some(StageCompleted) || (f.stage.Some? && row.stage == StageQueued) ==> f.stage == Some(after.stage))
  }

  /** queueConflictOperation: the new row inherits the identifiers of the conflicting operation. */
  function Inherited(original: Operation, id: OperationId, kind: Kind): Operation {
    original.(id := id, kind := kind, state := Queued, stage := StageQueued)
  }

  type Rows = map<OperationId, Operation>

  predicate ActiveFor(rows: Rows, id: OperationId, path: Path) {
    id in rows && rows[id].Active() && rows[id].identity.repoPath == path
  }

  /** The partial unique index: at most one active row per repository path. */
  ghost predicate OneActivePerPath(rows: Rows) {
    forall a, b, path :: ActiveFor(rows, a, path) && ActiveFor(rows, b, path) ==> a == b
  }

  ghost predicate KeyedById(rows: Rows) {
    forall id :: id in rows ==> rows[id].id == id
  }

  /** One attempted write. The storage may refuse any of them on its own. */
  datatype Write =
    | Create(operation: Operation)
    | Progress(id: OperationId, checkpoint: Checkpoint)
    | Close(id: OperationId, finish: Finish)
    | Unavailable

  predicate Accepts(rows: Rows, w: Write) {
    match w
    case Create(op) =>
      op.id !in rows && !exists id | id in rows :: ActiveFor(rows, id, op.identity.repoPath)
    case Progress(id, _) => id in rows && rows[id].Active()
    case Close(id, f) =>
      (f.state == Succeeded || f.state == Failed || f.state == Conflict) && id in rows && rows[id].Active()
    case Unavailable => false
  }

  /** The table after an attempted write; a refused write leaves it as it was. */
  function Apply(rows: Rows, w: Write): Rows {
    if !Accepts(rows, w) then rows else
    match w
    case Create(op) => rows[op.id := op.(state := Queued, stage := StageQueued)]
    case Progress(id, c) => rows[id := Checkpointed(rows[id], c)]
    case Close(id, f) => rows[id := Finished(rows[id], f)]
  }

  function Run(rows: Rows, writes: seq<Write>): Rows
    decreases |writes|
  {
    if writes == [] then rows else Run(Apply(rows, writes[0]), writes[1..])
  }

  ghost predicate Wellformed(rows: Rows) {
    KeyedById(rows) && OneActivePerPath(rows)
  }

  lemma ApplyKeepsWellformed(rows: Rows, w: Write)
    requires Wellformed(rows)
    ensures Wellformed(Apply(rows, w))
  {
    var after := Apply(rows, w);
    forall a, b, path | ActiveFor(after, a, path) && ActiveFor(after, b, path)
      ensures a == b
    {
      if w.Create? && Accepts(rows, w) {
        assert a != w.operation.id ==> ActiveFor(rows, a, path);
        assert b != w.operation.id ==> ActiveFor(rows, b, path);
      } else {
        assert ActiveFor(rows, a, path) && ActiveFor(rows, b, path);
      }
    }
  }

  /** Whatever is written, in whatever order and with whatever failures: keys stay keys, no path ever
      has two active rows, no row disappears, a finished row never changes again, and the columns that
      admission wrote are immutable. */
  lemma {:induction false} JournalRun(rows: Rows, writes: seq<Write>)
    requires Wellformed(rows)
    ensures Wellformed(Run(rows, writes))
    ensures rows.Keys <= Run(rows, writes).Keys
    ensures forall id :: id in rows && !rows[id].Active() ==> Run(rows, writes)[id] == rows[id]
    ensures forall id :: id in rows ==>
                           Run(rows, writes)[id].identity == rows[id].identity && Run(rows, writes)[id].kind == rows[id].kind
    decreases |writes|
  {
    if writes != [] {
      ApplyKeepsWellformed(rows, writes[0]);
      JournalRun(Apply(rows, writes[0]), writes[1..]);
    }
  }

  /** An identifier that was journalled survives every way of finishing, so what a failed or
      conflicting run leaves in the row is what its last checkpoint said. */
  lemma FinishKeepsJournalled(row: Operation, f: Finish)
    ensures row.local.Some? ==> Finished(row, f).local == row.local
    ensures row.candidate.Some? ==> Finished(row, f).candidate == row.candidate
    ensures row.remote.Some? ==> Finished(row, f).remote == row.remote
    ensures row.push.Some? ==> Finished(row, f).push == row.push
    ensures row.backupRef != "" ==> Finished(row, f).backupRef == row.backupRef
  {}

  /** The journal table as the service holds it. */
  class OperationTable {
    var rows: Rows

    constructor ()
      ensures rows == map[] && Wellformed(rows)
    {
      rows := map[];
    }

    constructor Over(rows: Rows)
      ensures this.rows == rows
    {
      this.rows := rows;
    }

    /** INSERT of a queued row, refused by the primary key or by the one-active-path index. */
    method CreateQueued(op: Operation, stored: bool) returns (ok: bool)
      modifies this
      ensures rows == Apply(old(rows), if stored then Create(op) else Unavailable)
      ensures old(Wellformed(rows)) ==> Wellformed(rows)
      ensures ok <==> stored && Accepts(old(rows), Create(op))
      ensures ok ==> ActiveFor(rows, op.id, op.identity.repoPath)
                     && rows[op.id] == op.(state := Queued, stage := StageQueued) && rows - {op.id} == old(rows)
    {
      if Wellformed(rows) {
        ApplyKeepsWellformed(rows, Create(op));
      }
      ok := stored && op.id !in rows && !exists id | id in rows :: ActiveFor(rows, id, op.identity.repoPath);
      if ok {
        rows := rows[op.id := op.(state := Queued, stage := StageQueued)];
      }
    }

    /** UPDATE guarded by `state IN ('queued', 'running')`; no affected row is an error. */
    method Checkpoint(id: OperationId, c: Checkpoint, stored: bool) returns (ok: bool)
      modifies this
      ensures rows == Apply(old(rows), if stored then Progress(id, c) else Unavailable)
      ensures old(Wellformed(rows)) ==> Wellformed(rows)
      ensures ok <==> stored && id in old(rows) && old(rows)[id].Active()
      ensures ok ==> CheckpointOf(rows[id]) == c && SameOperation(old(rows)[id], rows[id]) && rows[id].state == Running
      ensures forall other :: other != id ==> (other in rows <==> other in old(rows)) && (other in rows ==> rows[other] == old(rows)[other])
    {
      if Wellformed(rows) {
        ApplyKeepsWellformed(rows, Progress(id, c));
      }
      ok := stored && id in rows && rows[id].Active();
      if ok {
        rows := rows[id := Checkpointed(rows[id], c)];
      }
    }

    /** UPDATE to a terminal state under the same guard. */
    method Finish(id: OperationId, f: Finish, stored: bool) returns (ok: bool)
      modifies this
      ensures rows == Apply(old(rows), if stored then Close(id, f) else Unavailable)
      ensures old(Wellformed(rows)) ==> Wellformed(rows)
      ensures ok <==> stored && Accepts(old(rows), Close(id, f))
      ensures ok ==> id in rows && !rows[id].Active() && ClosedBy(old(rows)[id], f, rows[id])
      ensures forall other :: other != id ==> (other in rows <==> other in old(rows)) && (other in rows ==> rows[other] == old(rows)[other])
    {
      if Wellformed(rows) {
        ApplyKeepsWellformed(rows, Close(id, f));
      }
      if f.state != Succeeded && f.state != Failed && f.state != Conflict {
        return false;
      }
      ok := stored && id in rows && rows[id].Active();
      if ok {
        rows := rows[id := Finished(rows[id], f)];
      }
    }
  }

  /** One statement against the table, which the storage may refuse on its own. */
  method Attempt(rows: Rows, w: Write, stored: bool) returns (after: Rows, ok: bool)
    ensures ok <==> stored && Accepts(rows, w)
    ensures after == if ok then Apply(rows, w) else rows
  {
    var table := new OperationTable.Over(rows);
    match w {
      case Create(op) => ok := table.CreateQueued(op, stored);
      case Progress(id, c) => ok := table.Checkpoint(id, c, stored);
      case Close(id, f) => ok := table.Finish(id, f, stored);
      case Unavailable => ok := false;
    }
    after := table.rows;
  }
}
