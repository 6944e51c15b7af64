/** The note index and its replacement in one transaction. */
module NoteIndex {
  import opened Basics
  import opened Journal

  datatype NoteNode = NoteNode(id: string, name: string, path: string, parentId: string, directory: bool)

  /** The indexed notes by id. */
  type Index = map<string, NoteNode>

  /** The rows that inserting these notes one after the other leaves. */
  function IndexOf(nodes: seq<NoteNode>): Index
    decreases |nodes|
  {
    if nodes == [] then map[]
    else IndexOf(nodes[..|nodes| - 1])[nodes[|nodes| - 1].id := nodes[|nodes| - 1]]
  }

  predicate UniqueIds(nodes: seq<NoteNode>) {
    forall i, k :: 0 <= i < k < |nodes| ==> nodes[i].id != nodes[k].id
  }

  /** There is a row for the ids of the notes, and for no other. */
  lemma {:induction false} RowsAreOfNotes(nodes: seq<NoteNode>, id: string)
    ensures id in IndexOf(nodes) <==> exists k :: 0 <= k < |nodes| && nodes[k].id == id
    decreases |nodes|
  {
    if nodes != [] {
      var n := |nodes| - 1;
      RowsAreOfNotes(nodes[..n], id);
      if k :| 0 <= k < |nodes| && nodes[k].id == id {
        assert k < n ==> nodes[..n][k].id == id;
      }
    }
  }

  /** With unique ids every note has its row. */
  lemma {:induction false} RowOfEach(nodes: seq<NoteNode>, k: nat)
    requires UniqueIds(nodes) && k < |nodes|
    ensures nodes[k].id in IndexOf(nodes) && IndexOf(nodes)[nodes[k].id] == nodes[k]
    decreases |nodes|
  {
    if k < |nodes| - 1 {
      RowOfEach(nodes[..|nodes| - 1], k);
    }
  }

  class NoteTable {
    var rows: Index
    var busy: bool  // a transaction was begun and has not ended

    constructor (rows: Index)
      ensures this.rows == rows && !busy
    {
      this.rows, busy := rows, false;
    }
  }

  /** How COMMIT ends; after a failure it is not known whether it was applied. */
  datatype CommitOutcome = Committed | FailedUnapplied | FailedApplied

  /** replaceFinalizer: a prepared replacement that is committed or rolled back, each at most once. */
  class ReplaceFinalizer {
    const table: NoteTable
    const pending: Index
    var commitCalled: bool
    var commitFailed: bool
    var rollbackCalled: bool
    var rollbackFailed: bool

    /** The transaction is still open: nothing of it can be seen. */
    predicate Open()
      reads this
    {
      !commitCalled && !rollbackCalled
    }

    constructor (table: NoteTable, nodes: Index)
      ensures this.table == table && pending == nodes && Open()
    {
      this.table, pending := table, nodes;
      commitCalled, commitFailed, rollbackCalled, rollbackFailed := false, false, false, false;
    }

    /** Only the first commit reaches the database, and only if there was no rollback before; later calls
        repeat its answer. */
    method Commit(outcome: CommitOutcome) returns (ok: bool)
      modifies this`commitCalled, this`commitFailed, table
      ensures old(commitCalled) ==> ok == !old(commitFailed) && table.rows == old(table.rows)
      ensures !old(commitCalled) && old(rollbackCalled) ==> !ok && table.rows == old(table.rows)
      ensures old(Open()) ==> ok == outcome.Committed?
                              && table.rows == if outcome == FailedUnapplied then old(table.rows) else pending
      ensures commitFailed == if old(Open()) then !ok else old(commitFailed)
      ensures commitCalled == (old(commitCalled) || old(Open()))
      ensures table.busy == (old(table.busy) && !old(Open()))
    {
      if commitCalled {
        return !commitFailed;
      }
      if rollbackCalled {
        return false;
      }
      commitCalled := true;
      table.busy := false;
      ok := outcome.Committed?;
      commitFailed := !ok;
      if outcome != FailedUnapplied {
        table.rows := pending;
      }
    }

    /** A rollback never changes committed rows, and fails after a successful commit. */
    method Rollback(stored: bool) returns (ok: bool)
      modifies this`rollbackCalled, this`rollbackFailed, table`busy
      ensures old(rollbackCalled) ==> ok == !old(rollbackFailed) && rollbackCalled && rollbackFailed == old(rollbackFailed)
      ensures !old(rollbackCalled) && commitCalled && !commitFailed ==> !ok && !rollbackCalled
      ensures !old(rollbackCalled) && !(commitCalled && !commitFailed) ==> ok == stored && rollbackCalled && rollbackFailed == !ok
      ensures old(Open()) && ok ==> !table.busy
      ensures !old(Open()) || !ok ==> table.busy == old(table.busy)
    {
      if rollbackCalled {
        return !rollbackFailed;
      }
      if commitCalled && !commitFailed {
        return false;
      }
      if stored && !commitCalled {
        table.busy := false;
      }
      rollbackCalled := true;
      ok := stored;
      rollbackFailed := !ok;
    }
  }

  /** Which statements of the preparation succeed; the insert of a note fails as well if its id is taken. */
  datatype Preparation = Preparation(begun: bool, cleared: bool, prepared: bool, inserted: seq<bool>, closed: bool, rolledBack: bool)

  predicate Inserts(p: Preparation, k: nat) {
    k >= |p.inserted| || p.inserted[k]
  }

  ghost predicate Prepares(nodes: seq<NoteNode>, p: Preparation) {
    && p.begun && p.cleared && p.prepared && p.closed
    && UniqueIds(nodes) && forall k :: 0 <= k < |nodes| ==> Inserts(p, k)
  }

  lemma OneMoreNote(nodes: seq<NoteNode>, k: nat)
    requires k < |nodes| && UniqueIds(nodes[..k])
    ensures UniqueIds(nodes[..k + 1]) <==> nodes[k].id !in IndexOf(nodes[..k])
    ensures UniqueIds(nodes) ==> UniqueIds(nodes[..k + 1])
  {
    RowsAreOfNotes(nodes[..k], nodes[k].id);
    assert forall i :: 0 <= i < k ==> nodes[..k + 1][i] == nodes[..k][i];
    assert nodes[..k + 1][k] == nodes[k];
  }

  /** The inserts into the emptied table, up to the first that fails. */
  method InsertAll(nodes: seq<NoteNode>, p: Preparation) returns (staged: Index, ok: bool)
    ensures ok <==> UniqueIds(nodes) && forall k :: 0 <= k < |nodes| ==> Inserts(p, k)
    ensures ok ==> staged == IndexOf(nodes)
  {
    staged := map[];
    for k := 0 to |nodes|
      invariant staged == IndexOf(nodes[..k]) && UniqueIds(nodes[..k])
      invariant forall i :: 0 <= i < k ==> Inserts(p, i)
    {
      OneMoreNote(nodes, k);
      assert nodes[..k + 1][..k] == nodes[..k];
      if nodes[k].id in staged || !Inserts(p, k) {
        return staged, false;
      }
      staged := staged[nodes[k].id := nodes[k]];
    }
    assert nodes[..|nodes|] == nodes;
    ok := true;
  }

  /** BeginReplaceAll: nothing of the new rows is seen before the commit; a failed preparation is rolled back. */
  method BeginReplaceAll(table: NoteTable, nodes: seq<NoteNode>, p: Preparation)
    returns (finalizer: Option<ReplaceFinalizer>, rollbackOk: bool)
    modifies table`busy
    ensures finalizer.Some? <==> Prepares(nodes, p)
    ensures finalizer.Some? ==> fresh(finalizer.value) && finalizer.value.table == table && finalizer.value.Open()
    ensures finalizer.Some? ==> finalizer.value.pending == IndexOf(nodes) && rollbackOk && table.busy
    ensures finalizer.None? ==> rollbackOk == (!p.begun || p.rolledBack) && table.busy == (old(table.busy) || !rollbackOk)
  {
    finalizer, rollbackOk := None, true;
    if !p.begun {
      return;
    }
    var before := table.busy;
    table.busy := true;
    var staged, ok := map[], p.cleared && p.prepared;
    if ok {
      staged, ok := InsertAll(nodes, p);
    }
    if !ok || !p.closed {
      rollbackOk := p.rolledBack;
      table.busy := before || !rollbackOk;
      return;
    }
    var f := new ReplaceFinalizer(table, staged);
    finalizer := Some(f);
  }
}
