/** A settings mutation: the file, the note index, the pinned root and the status table, changed together. */
module Settings {
  import opened Basics
  import opened Configuration
  import opened Coordinator
  import opened GateRelease
  import opened Journal
  import opened NoteIndex
  import opened Statuses

  class ConfigStore {
    var disk: Config

    constructor (initial: Config)
      ensures disk == initial
    {
      disk := initial;
    }

    /** Save writes a temporary file and renames it: either the whole new configuration or none of it. */
    method Save(config: Config, stored: bool) returns (ok: bool)
      modifies this
      ensures ok == stored && disk == if stored then config else old(disk)
    {
      if stored {
        disk := config;
      }
      ok := stored;
    }
  }

  datatype Health = Healthy | OpenFailed | Closed | FailedClosed

  /** The base the note service works on. */
  datatype Runtime = Runtime(basePath: Path, conflictPath: Path, root: Option<nat>)

  /** pinConfigCurrentBasePath */
  function Pinned(config: Config, path: Path): Option<Config> {
    if config.currentBase == "" then Some(config)
    else
      var i := BaseIndex(config.bases, config.currentBase);
      if i < 0 then None else Some(config.(bases := config.bases[i := config.bases[i].(path := path)]))
  }

  /** configuredBasePath */
  function CurrentPath(config: Config): Option<Path> {
    if config.currentBase == "" then Some("")
    else
      var i := BaseIndex(config.bases, config.currentBase);
      if i < 0 then None else Some(config.bases[i].path)
  }

  /** The current base of a configuration: the first one of the current name. */
  ghost predicate IsCurrent(config: Config, i: int) {
    && config.currentBase != "" && 0 <= i < |config.bases| && config.bases[i].name == config.currentBase
    && forall j :: 0 <= j < i ==> config.bases[j].name != config.currentBase
  }

  /** The configuration that was asked for, with its current base in this directory and nothing else different. */
  ghost predicate StoredAs(stored: Config, next: Config, directory: Path) {
    && stored.currentBase == next.currentBase && stored.setupCompleted == next.setupCompleted
    && |stored.bases| == |next.bases|
    && (forall i :: IsCurrent(next, i) ==> stored.bases[i] == next.bases[i].(path := directory))
    && (forall i :: 0 <= i < |next.bases| && !IsCurrent(next, i) ==> stored.bases[i] == next.bases[i])
    && (next.currentBase != "" ==> exists i :: IsCurrent(next, i))
  }

  /** The path of the current base, or the empty one if there is no current base. */
  ghost predicate WorksAt(config: Config, path: Path) {
    if config.currentBase == "" then path == ""
    else exists i :: IsCurrent(config, i) && config.bases[i].path == path
  }

  /** Where the path leads. */
  ghost predicate LiesAt(path: Path, directory: Path, root: Option<nat>, fs: FileSystem) {
    if path == "" then directory == "" && root == None
    else fs(path).Some? && directory == fs(path).value.canonical && root == Some(fs(path).value.identity)
  }

  lemma FirstIsCurrent(config: Config, i: int)
    requires config.currentBase != ""
    ensures IsCurrent(config, i) <==> i >= 0 && i == BaseIndex(config.bases, config.currentBase)
  {
    FirstOfItsName(config.bases, config.currentBase);
    var first := BaseIndex(config.bases, config.currentBase);
    assert IsCurrent(config, i) && first >= 0 ==> !(i < first) && !(first < i);
    assert 0 <= i < |config.bases| ==> config.bases[i] in config.bases;
  }

  lemma {:induction false} FirstOfItsName(bases: seq<Base>, name: string)
    ensures forall j :: 0 <= j < BaseIndex(bases, name) ==> bases[j].name != name
  {
    if bases != [] {
      FirstOfItsName(bases[1..], name);
      forall j | 0 <= j < BaseIndex(bases, name)
        ensures bases[j].name != name
      {
        assert j > 0 ==> bases[j] == bases[1..][j - 1];
      }
    }
  }

  /** Pinning stores exactly that configuration, and is refused only for a current base that does not exist. */
  lemma PinnedExactly(next: Config, directory: Path, stored: Config)
    ensures Pinned(next, directory) == Some(stored) <==> StoredAs(stored, next, directory)
  {
    if next.currentBase != "" {
      var first := BaseIndex(next.bases, next.currentBase);
      forall i: int
        ensures IsCurrent(next, i) <==> i >= 0 && i == first
      {
        FirstIsCurrent(next, i);
      }
      if first >= 0 {
        var pinned := next.(bases := next.bases[first := next.bases[first].(path := directory)]);
        assert IsCurrent(next, first) && StoredAs(pinned, next, directory);
        if StoredAs(stored, next, directory) {
          assert stored.bases == pinned.bases;
        }
      } else {
        assert forall i :: !IsCurrent(next, i);
      }
    } else if StoredAs(stored, next, directory) {
      assert stored.bases == next.bases;
    }
  }

  lemma CurrentPathExactly(config: Config, path: Path)
    ensures CurrentPath(config) == Some(path) <==> WorksAt(config, path)
  {
    if config.currentBase != "" {
      var first := BaseIndex(config.bases, config.currentBase);
      forall i: int
        ensures IsCurrent(config, i) <==> i >= 0 && i == first
      {
        FirstIsCurrent(config, i);
      }
    }
  }

  /** The base and the notes a switch to this path leads to; None when the path cannot be opened and scanned. */
  function TargetOf(target: Path, fs: FileSystem): Option<(Runtime, seq<NoteNode>)> {
    if target == "" then Some((Runtime("", "", None), []))
    else
      var d := fs(target);
      if d.None? || d.value.notes.None? then None
      else Some((Runtime(target, d.value.canonical, Some(d.value.identity)), d.value.notes.value))
  }

  /** The base and the index after a switch to this path. */
  predicate LeadsTo(target: Path, fs: FileSystem, runtime: Runtime, rows: Index) {
    if target == "" then runtime == Runtime("", "", None) && rows == IndexOf([])
    else
      && fs(target).Some? && runtime == Runtime(target, fs(target).value.canonical, Some(fs(target).value.identity))
      && fs(target).value.notes.Some? && rows == IndexOf(fs(target).value.notes.value)
  }

  /** The base the notes are open in is also the one the new configuration works in. */
  ghost predicate KeptInPlace(next: Config, fs: FileSystem, before: Runtime, oldRows: Index, after: Runtime, rows: Index) {
    && rows == oldRows && after.root == before.root
    && exists path :: WorksAt(next, path) && LiesAt(path, after.conflictPath, after.root, fs)
  }

  /** Which steps of a base switch succeed. */
  datatype SwitchFaults = SwitchFaults(
    rootStable: bool,
    prepared: Preparation,
    saved: bool,
    commit: CommitOutcome,
    rolledBack: bool,
    restored: bool)

  class NoteService {
    const table: NoteTable
    var runtime: Runtime
    var health: Health

    constructor (table: NoteTable, runtime: Runtime)
      ensures this.table == table && this.runtime == runtime && health == Healthy
    {
      this.table, this.runtime, health := table, runtime, Healthy;
    }

    /** baseIdentityLocked; None is an error. */
    function Identity(expected: Path, fs: FileSystem): Option<(bool, Path)>
      reads this
    {
      if expected == "" then Some((runtime.root.None?, ""))
      else
        var d := fs(expected);
        if d.None? then None else Some((runtime.root == Some(d.value.identity), d.value.canonical))
    }

    /** persistConfig: save in place when the configuration keeps the pinned base. */
    method PersistConfig(expected: Path, store: ConfigStore, next: Config, fs: FileSystem, saved: bool)
      returns (matches: bool, failed: bool, pinned: Config)
      modifies this`runtime, store
      ensures !failed <==> health == Healthy && old(Identity(expected, fs)).Some?
                           && (old(Identity(expected, fs)).value.0 ==>
                                 saved && Pinned(next, old(Identity(expected, fs)).value.1).Some?)
      ensures !failed ==> matches == old(Identity(expected, fs)).value.0
      ensures !failed ==> (matches <==> exists directory :: LiesAt(expected, directory, old(runtime.root), fs))
      ensures failed ==> store.disk == old(store.disk) && runtime == old(runtime)
      ensures !failed && !matches ==> store.disk == old(store.disk) && runtime == old(runtime)
      ensures !failed && matches ==> store.disk == pinned && runtime.root == old(runtime.root)
                                     && StoredAs(pinned, next, runtime.conflictPath)
                                     && runtime.basePath == runtime.conflictPath && LiesAt(expected, runtime.conflictPath, runtime.root, fs)
    {
      matches, failed, pinned := false, true, next;
      if health != Healthy {
        return;
      }
      var identity := Identity(expected, fs);
      if identity.None? {
        return;
      }
      assert identity.value.0 ==> LiesAt(expected, identity.value.1, runtime.root, fs);
      if !identity.value.0 {
        failed := false;
        return;
      }
      var config := Pinned(next, identity.value.1);
      if config.None? {
        return;
      }
      pinned := config.value;
      matches := true;
      var ok := store.Save(pinned, saved);
      if !ok {
        return;
      }
      runtime := runtime.(basePath := identity.value.1, conflictPath := identity.value.1);
      PinnedExactly(next, runtime.conflictPath, pinned);
      failed := false;
    }

    /** prepareBaseSwitchLocked: open, identify and scan the target, and prepare its index. */
    method PrepareSwitch(target: Path, fs: FileSystem, w: SwitchFaults)
      returns (candidate: Option<Runtime>, finalizer: Option<ReplaceFinalizer>, rollbackFailed: bool)
      modifies this`health, table`busy
      ensures candidate.Some? <==> finalizer.Some?
      ensures candidate.Some? <==> TargetOf(target, fs).Some? && (target == "" || w.rootStable) && Prepares(TargetOf(target, fs).value.1, w.prepared)
      ensures candidate.None? && !rollbackFailed ==> table.busy == old(table.busy)
      ensures rollbackFailed ==> candidate.None? && health == FailedClosed
      ensures !rollbackFailed ==> health == old(health)
      ensures finalizer.Some? ==> fresh(finalizer.value) && finalizer.value.Open() && finalizer.value.table == table
                                  && candidate.value == TargetOf(target, fs).value.0 && finalizer.value.pending == IndexOf(TargetOf(target, fs).value.1)
    {
      candidate, finalizer, rollbackFailed := None, None, false;
      var next := TargetOf(target, fs);
      if next.None? || (target != "" && !w.rootStable) {
        return;
      }
      var rollbackOk;
      finalizer, rollbackOk := BeginReplaceAll(table, next.value.1, w.prepared);
      if finalizer.None? {
        rollbackFailed := !rollbackOk;
        if rollbackFailed {
          health := FailedClosed;
        }
        return;
      }
      candidate := Some(next.value.0);
    }

    /** Undo a prepared switch before anything was published. */
    method Abandon(finalizer: ReplaceFinalizer, rolledBack: bool) returns (rollbackFailed: bool)
      requires finalizer.Open()
      modifies this`health, finalizer`rollbackCalled, finalizer`rollbackFailed, finalizer.table`busy
      ensures rollbackFailed == !rolledBack && (!rollbackFailed ==> !finalizer.table.busy)
      ensures health == if rollbackFailed then FailedClosed else old(health)
    {
      var ok := finalizer.Rollback(rolledBack);
      rollbackFailed := !ok;
      if rollbackFailed {
        health := FailedClosed;
      }
    }

    /** The target can be opened, scanned, prepared and committed, and both configurations can be pinned. */
    ghost predicate Switches(target: Path, next: Config, previous: Config, fs: FileSystem, w: SwitchFaults)
      reads this
    {
      && health != Closed && health != FailedClosed
      && TargetOf(target, fs).Some? && (target == "" || w.rootStable) && Prepares(TargetOf(target, fs).value.1, w.prepared)
      && Pinned(previous, runtime.conflictPath).Some? && Pinned(next, TargetOf(target, fs).value.0.conflictPath).Some?
      && w.saved && w.commit.Committed?
    }

    /** switchBaseTransaction: index, file and pinned root change together or not at all, or the switch
        reports that it could not undo itself. */
    method SwitchBaseTransaction(target: Path, store: ConfigStore, next: Config, previous: Config, fs: FileSystem, w: SwitchFaults)
      returns (failed: bool, rollbackFailed: bool, pinned: Config)
      modifies this, store, table
      ensures !failed <==> old(Switches(target, next, previous, fs, w))
      ensures !rollbackFailed && !old(table.busy) ==> !table.busy
      ensures !failed ==> !rollbackFailed && LeadsTo(target, fs, runtime, table.rows)
                          && StoredAs(pinned, next, runtime.conflictPath) && store.disk == pinned && health == Healthy
      ensures failed && !rollbackFailed ==>
                store.disk == old(store.disk) && table.rows == old(table.rows) && runtime == old(runtime) && health == old(health)
      ensures rollbackFailed ==> failed && runtime == old(runtime) && health == FailedClosed
      // what can be put back is: the file holds the previous configuration, with its base where the runtime still works
      ensures rollbackFailed && w.restored ==>
                store.disk == old(store.disk) || StoredAs(store.disk, previous, old(runtime).conflictPath)
    {
      failed, rollbackFailed, pinned := true, false, next;
      if health == Closed || health == FailedClosed {
        return;
      }
      var candidate, prepared;
      candidate, prepared, rollbackFailed := PrepareSwitch(target, fs, w);
      if candidate.None? {
        return;
      }
      var finalizer := prepared.value;
      var before := Pinned(previous, runtime.conflictPath);
      var after := Pinned(next, candidate.value.conflictPath);
      if before.None? || after.None? {
        rollbackFailed := Abandon(finalizer, w.rolledBack);
        return;
      }
      pinned := after.value;
      var saved := store.Save(pinned, w.saved);
      if !saved {
        rollbackFailed := Abandon(finalizer, w.rolledBack);
        return;
      }
      var committed := finalizer.Commit(w.commit);
      if !committed {
        var _ := finalizer.Rollback(w.rolledBack);
        var _ := store.Save(before.value, w.restored);
        PinnedExactly(previous, runtime.conflictPath, before.value);
        health := FailedClosed;
        rollbackFailed := true;
        return;
      }
      runtime, health := candidate.value, Healthy;
      PinnedExactly(next, runtime.conflictPath, pinned);
      failed := false;
    }
  }

  // ---------------------------------------------------------------- the settings service

  /** One row of the status table as a mutation found it, and what it is to become; None deletes. */
  datatype StatusChange = StatusChange(path: Path, before: Option<Status>, after: Option<Status>)

  /** A status write; a failed one may have been applied all the same. */
  datatype WriteOutcome = Written | FailedUnwritten | FailedWritten

  /** The changes were read from this table. */
  ghost predicate ReadFrom(changes: seq<StatusChange>, table: StatusTable) {
    forall c :: c in changes ==> c.before == if c.path in table then Some(table[c.path]) else None
  }

  function WithRow(table: StatusTable, path: Path, row: Option<Status>): StatusTable {
    if row.Some? then table[path := row.value] else table - {path}
  }

  /** All changes carried out. */
  function Changed(table: StatusTable, changes: seq<StatusChange>): StatusTable {
    if changes == [] then table
    else WithRow(Changed(table, changes[..|changes| - 1]), changes[|changes| - 1].path, changes[|changes| - 1].after)
  }

  /** Nothing outside the changed paths differs. */
  ghost predicate SameBut(a: StatusTable, b: StatusTable, changes: seq<StatusChange>) {
    forall p :: (forall c :: c in changes ==> c.path != p) ==> (p in a <==> p in b) && (p in a ==> a[p] == b[p])
  }

  /** The rows that changes to connected bases found, in terms of where their repositories lie. */
  function RecordedPaths(current: seq<Base>, changes: seq<StatusChange>): (recorded: map<string, Path>)
    ensures forall name :: name in recorded ==>
                             exists c :: c in changes && c.before.Some? && c.before.value.base == name && c.before.value.path == recorded[name]
    decreases |changes|
  {
    if changes == [] then map[]
    else
      var earlier, change := RecordedPaths(current, changes[..|changes| - 1]), changes[|changes| - 1];
      if Records(current, change) && change.before.value.base !in earlier then earlier[change.before.value.base := change.before.value.path]
      else earlier
  }

  predicate Records(current: seq<Base>, change: StatusChange) {
    && change.before.Some? && change.before.value.base != "" && change.before.value.path != ""
    && BaseIndex(current, change.before.value.base) >= 0
    && Configured(current[BaseIndex(current, change.before.value.base)].git)
  }

  /** The change found a row of this connected base, and the row says where its repository is. */
  ghost predicate Places(current: seq<Base>, change: StatusChange, name: string) {
    && change.before.Some? && change.before.value.base == name && name != "" && change.before.value.path != ""
    && exists i :: 0 <= i < |current| && current[i].name == name && Configured(current[i].git) && forall j :: 0 <= j < i ==> current[j].name != name
  }

  lemma RecordsExactly(current: seq<Base>, change: StatusChange, name: string)
    ensures Records(current, change) && change.before.value.base == name <==> Places(current, change, name)
  {
    FirstOfItsName(current, name);
    var first := BaseIndex(current, name);
    assert first >= 0 ==> current[first].name == name;
    if Places(current, change, name) {
      var i :| 0 <= i < |current| && current[i].name == name && Configured(current[i].git) && forall j :: 0 <= j < i ==> current[j].name != name;
      assert current[i] in current && !(first < i) && !(i < first);
    }
  }

  predicate RecordsName(current: seq<Base>, change: StatusChange, name: string) {
    Records(current, change) && change.before.value.base == name
  }

  lemma LastRecord(current: seq<Base>, changes: seq<StatusChange>, name: string)
    requires changes != []
    ensures var before, last := RecordedPaths(current, changes[..|changes| - 1]), changes[|changes| - 1];
      && (name in RecordedPaths(current, changes) <==> name in before || RecordsName(current, last, name))
      && (name in before ==> RecordedPaths(current, changes)[name] == before[name])
      && (name !in before && RecordsName(current, last, name) ==> RecordedPaths(current, changes)[name] == last.before.value.path)
  {}

  /** The first change that records the name, or the number of changes. */
  ghost function FirstRecord(current: seq<Base>, changes: seq<StatusChange>, name: string): (k: nat)
    ensures k <= |changes|
    ensures forall j :: 0 <= j < k ==> !RecordsName(current, changes[j], name)
    ensures k < |changes| ==> RecordsName(current, changes[k], name)
    decreases |changes|
  {
    if changes == [] then 0
    else
      var n := |changes| - 1;
      var k := FirstRecord(current, changes[..n], name);
      if k == n && !RecordsName(current, changes[n], name) then n + 1 else k
  }

  lemma {:induction false} FirstRecordCounts(current: seq<Base>, changes: seq<StatusChange>, name: string)
    ensures var k := FirstRecord(current, changes, name);
      && (name in RecordedPaths(current, changes) <==> k < |changes|)
      && (k < |changes| ==> RecordedPaths(current, changes)[name] == changes[k].before.value.path)
    decreases |changes|
  {
    if changes != [] {
      FirstRecordCounts(current, changes[..|changes| - 1], name);
      LastRecord(current, changes, name);
    }
  }

  /** A place is on record exactly for a connected base that some row of a change places, and it is the first such one. */
  lemma RecordedExactly(current: seq<Base>, changes: seq<StatusChange>, name: string) returns (k: nat)
    ensures k <= |changes| && forall j :: 0 <= j < k ==> !Places(current, changes[j], name)
    ensures name in RecordedPaths(current, changes) <==> k < |changes|
    ensures k < |changes| ==> Places(current, changes[k], name) && RecordedPaths(current, changes)[name] == changes[k].before.value.path
  {
    k := FirstRecord(current, changes, name);
    FirstRecordCounts(current, changes, name);
    forall j | 0 <= j < |changes|
      ensures RecordsName(current, changes[j], name) <==> Places(current, changes[j], name)
    {
      RecordsExactly(current, changes[j], name);
    }
  }

  /** stableGitConflictIdentities */
  method StableGitConflictIdentities(current: seq<Base>, changes: seq<StatusChange>) returns (identities: map<string, Path>)
    ensures identities == RecordedPaths(current, changes)
  {
    identities := map[];
    for k := 0 to |changes|
      invariant identities == RecordedPaths(current, changes[..k])
    {
      assert changes[..k + 1][..k] == changes[..k];
      var change := changes[k];
      if Records(current, change) && change.before.value.base !in identities {
        identities := identities[change.before.value.base := change.before.value.path];
      }
    }
    assert changes[..|changes|] == changes;
  }

  datatype MutationFaults = MutationFaults(
    saved: bool,
    switch_: SwitchFaults,
    writes: seq<WriteOutcome>,
    restores: seq<WriteOutcome>)

  /** Everything one mutation may touch. */
  datatype World = World(config: Config, disk: Config, index: Index, runtime: Runtime, statuses: StatusTable)

  class SettingsService {
    const store: ConfigStore
    const notes: NoteService
    const coordinator: BaseOperationCoordinator
    var config: Config
    var statuses: StatusTable
    var degraded: bool

    constructor (store: ConfigStore, notes: NoteService, coordinator: BaseOperationCoordinator, config: Config, statuses: StatusTable)
      ensures this.store == store && this.notes == notes && this.coordinator == coordinator
      ensures this.config == config && this.statuses == statuses && !degraded
    {
      this.store, this.notes, this.coordinator := store, notes, coordinator;
      this.config, this.statuses, degraded := config, statuses, false;
    }

    function Current(): World
      reads this, store, notes, notes.table
    {
      World.World(config, store.disk, notes.table.rows, notes.runtime, statuses)
    }

    /** The configuration can be saved in place, or a switch to its base goes through. */
    ghost predicate Applies(next: Config, target: Option<Path>, fs: FileSystem, w: MutationFaults)
      reads this`config, notes
    {
      && CurrentPath(next).Some? && notes.health == Healthy
      && var identity := notes.Identity(CurrentPath(next).value, fs);
         identity.Some?
         && if identity.value.0 then w.saved && Pinned(next, identity.value.1).Some?
            else target.Some? && fs(target.value).Some? && notes.Switches(fs(target.value).value.canonical, next, config, fs, w.switch_)
    }

    /** No status write fails. */
    static predicate AllWritten(writes: seq<WriteOutcome>) {
      forall k :: 0 <= k < |writes| ==> writes[k].Written?
    }

    /** applyConfigWithConflictSnapshotLocked: the gates of removed bases are released once everything is stored. */
    method ApplyConfigWithSnapshot(next: Config, target: Option<Path>, conflicts: seq<Resolution>, fs: FileSystem, w: MutationFaults,
                                   ghost r: Reconfiguration)
      returns (ok: bool)
      requires coordinator.Valid() && CapturedBy(r, conflicts)
      modifies this`config, this`degraded, store, notes, notes.table, coordinator
      ensures coordinator.Valid() && (!ok ==> coordinator.history == old(coordinator.history))
      ensures ok ==> GatesFollow(r, old(Fold(coordinator.history)), old(coordinator.others), Fold(coordinator.history))
      ensures statuses == old(statuses) && (old(degraded) ==> degraded)
      ensures ok <==> old(Applies(next, target, fs, w))
      ensures !degraded && !old(notes.table.busy) ==> !notes.table.busy
      ensures !ok ==> degraded || Current() == old(Current())
      ensures ok ==> degraded == old(degraded) && config == store.disk && StoredAs(config, next, notes.runtime.conflictPath)
      ensures ok ==> KeptInPlace(next, fs, old(notes.runtime), old(notes.table.rows), notes.runtime, notes.table.rows)
                     || (target.Some? && fs(target.value).Some?
                         && LeadsTo(fs(target.value).value.canonical, fs, notes.runtime, notes.table.rows))
    {
      ok := false;
      var expected := CurrentPath(next);
      if expected.None? {
        return;
      }
      var matches, failed, pinned := notes.PersistConfig(expected.value, store, next, fs, w.saved);
      if failed {
        return;
      }
      if matches {
        CurrentPathExactly(next, expected.value);
        assert WorksAt(next, expected.value);
        config := pinned;
        ReleaseGates(coordinator, conflicts, r);
        ok := true;
        return;
      }
      if target.None? || fs(target.value).None? {
        return;
      }
      var canonical := fs(target.value).value.canonical;
      var rollbackFailed;
      failed, rollbackFailed, pinned := notes.SwitchBaseTransaction(canonical, store, next, config, fs, w.switch_);
      if rollbackFailed {
        degraded := true;
        return;
      }
      if failed {
        return;
      }
      config := pinned;
      ReleaseGates(coordinator, conflicts, r);
      ok := true;
    }

    /** applyConfigLocked */
    method ApplyConfig(next: Config, target: Option<Path>, fs: FileSystem, w: MutationFaults)
      returns (ok: bool)
      requires coordinator.Valid()
      modifies this`config, this`degraded, store, notes, notes.table, coordinator
      ensures coordinator.Valid() && (!ok ==> coordinator.history == old(coordinator.history))
      ensures ok ==> GatesFollow(Reconfiguration(old(config.bases), next.bases, map[], fs), old(Fold(coordinator.history)),
                                 old(coordinator.others), Fold(coordinator.history))
      ensures statuses == old(statuses) && (old(degraded) ==> degraded)
      ensures ok <==> old(Applies(next, target, fs, w))
      ensures !degraded && !old(notes.table.busy) ==> !notes.table.busy
      ensures !ok ==> degraded || Current() == old(Current())
      ensures ok ==> degraded == old(degraded) && config == store.disk && StoredAs(config, next, notes.runtime.conflictPath)
      ensures ok ==> KeptInPlace(next, fs, old(notes.runtime), old(notes.table.rows), notes.runtime, notes.table.rows)
                     || (target.Some? && fs(target.value).Some?
                         && LeadsTo(fs(target.value).value.canonical, fs, notes.runtime, notes.table.rows))
    {
      var r := Reconfiguration(config.bases, next.bases, map[], fs);
      var conflicts := Capture(r);
      ok := ApplyConfigWithSnapshot(next, target, conflicts, fs, w, r);
    }

    /** One status write. */
    method WriteStatus(path: Path, row: Option<Status>, outcome: WriteOutcome) returns (ok: bool)
      modifies this`statuses
      ensures ok == outcome.Written?
      ensures statuses == if outcome == FailedUnwritten then old(statuses) else WithRow(old(statuses), path, row)
    {
      if outcome != FailedUnwritten {
        statuses := WithRow(statuses, path, row);
      }
      ok := outcome.Written?;
    }

    /** restoreGitStatusesLocked: every row back to what it was, in reverse order, or the service is degraded. */
    method RestoreStatuses(changes: seq<StatusChange>, outcomes: seq<WriteOutcome>, ghost original: StatusTable)
      requires ReadFrom(changes, original) && SameBut(original, statuses, changes)
      modifies this`statuses, this`degraded
      ensures old(degraded) ==> degraded
      ensures !degraded ==> statuses == original
      ensures AllWritten(outcomes) ==> statuses == original && degraded == old(degraded)
    {
      var failed := false;
      var k := |changes|;
      while k > 0
        invariant 0 <= k <= |changes| && degraded == old(degraded)
        invariant SameBut(original, statuses, changes)
        invariant !failed ==> SameBut(original, statuses, changes[..k])
        invariant AllWritten(outcomes) ==> !failed
      {
        k := k - 1;
        var change := changes[k];
        ghost var earlier := statuses;
        var ok := WriteStatus(change.path, change.before, if k < |outcomes| then outcomes[k] else Written);
        StillTheSame(original, earlier, changes, change, change.before);
        if !failed && ok {
          RestoreOne(original, earlier, changes, k);
        }
        failed := failed || !ok;
      }
      if failed {
        degraded := true;
      }
    }

    static lemma StillTheSame(original: StatusTable, earlier: StatusTable, changes: seq<StatusChange>, change: StatusChange, row: Option<Status>)
      requires change in changes && SameBut(original, earlier, changes)
      ensures SameBut(original, WithRow(earlier, change.path, row), changes)
    {}

    static lemma RestoreOne(original: StatusTable, earlier: StatusTable, changes: seq<StatusChange>, k: nat)
      requires k < |changes| && ReadFrom(changes, original) && SameBut(original, earlier, changes[..k + 1])
      ensures SameBut(original, WithRow(earlier, changes[k].path, changes[k].before), changes[..k])
    {
      var later := WithRow(earlier, changes[k].path, changes[k].before);
      assert changes[k] in changes;
      assert changes[..k + 1] == changes[..k] + [changes[k]];
      forall p | forall c :: c in changes[..k] ==> c.path != p
        ensures (p in original <==> p in later) && (p in original ==> original[p] == later[p])
      {
        if p != changes[k].path {
          assert forall c :: c in changes[..k + 1] ==> c.path != p;
        }
      }
    }

    /** The status writes, in order, up to the first that fails. */
    method WriteChanges(changes: seq<StatusChange>, outcomes: seq<WriteOutcome>) returns (ok: bool)
      requires ReadFrom(changes, statuses)
      modifies this`statuses
      ensures SameBut(old(statuses), statuses, changes)
      ensures ok ==> statuses == Changed(old(statuses), changes)
      ensures AllWritten(outcomes) ==> ok
    {
      for k := 0 to |changes|
        invariant statuses == Changed(old(statuses), changes[..k]) && SameBut(old(statuses), statuses, changes)
      {
        assert changes[k] in changes;
        assert changes[..k + 1][..k] == changes[..k];
        ok := WriteStatus(changes[k].path, changes[k].after, if k < |outcomes| then outcomes[k] else Written);
        if !ok {
          return;
        }
      }
      assert changes[..|changes|] == changes;
      ok := true;
    }

    /** applyConfigWithGitStatusesLocked: statuses first, then the rest; any failure undoes the statuses. */
    method ApplyConfigWithGitStatuses(next: Config, target: Option<Path>, changes: seq<StatusChange>, fs: FileSystem, w: MutationFaults)
      returns (ok: bool)
      requires ReadFrom(changes, statuses) && coordinator.Valid()
      modifies this, store, notes, notes.table, coordinator
      ensures coordinator.Valid() && (!ok ==> coordinator.history == old(coordinator.history))
      ensures ok ==> GatesFollow(Reconfiguration(old(config.bases), next.bases, RecordedPaths(old(config.bases), changes), fs),
                                 old(Fold(coordinator.history)), old(coordinator.others), Fold(coordinator.history))
      ensures old(degraded) ==> degraded
      ensures ok ==> old(Applies(next, target, fs, w))
      ensures old(Applies(next, target, fs, w)) && AllWritten(w.writes) ==> ok
      ensures !degraded && !old(notes.table.busy) ==> !notes.table.busy
      ensures !ok ==> degraded || Current() == old(Current())
      ensures ok ==> degraded == old(degraded) && config == store.disk && statuses == Changed(old(statuses), changes)
                     && StoredAs(config, next, notes.runtime.conflictPath)
    {
      if changes == [] {
        ok := ApplyConfig(next, target, fs, w);
        return;
      }
      var identities := StableGitConflictIdentities(config.bases, changes);
      var r := Reconfiguration(config.bases, next.bases, identities, fs);
      var conflicts := Capture(r);
      ghost var original := statuses;
      ok := WriteChanges(changes, w.writes);
      if !ok {
        RestoreStatuses(changes, w.restores, original);
        return;
      }
      ok := ApplyConfigWithSnapshot(next, target, conflicts, fs, w, r);
      if !ok {
        RestoreStatuses(changes, w.restores, original);
      }
    }

    /** The frame of every mutation: refused outright once the service is degraded. */
    method Mutate(next: Config, target: Option<Path>, changes: seq<StatusChange>, fs: FileSystem, w: MutationFaults) returns (ok: bool)
      requires ReadFrom(changes, statuses) && coordinator.Valid()
      modifies this, store, notes, notes.table, coordinator
      ensures coordinator.Valid() && (!ok ==> coordinator.history == old(coordinator.history))
      ensures ok ==> GatesFollow(Reconfiguration(old(config.bases), next.bases, RecordedPaths(old(config.bases), changes), fs),
                                 old(Fold(coordinator.history)), old(coordinator.others), Fold(coordinator.history))
      ensures ok ==> old(Applies(next, target, fs, w))
      ensures !old(degraded) && old(Applies(next, target, fs, w)) && AllWritten(w.writes) ==> ok
      ensures !degraded && !old(notes.table.busy) ==> !notes.table.busy
      ensures old(degraded) ==> !ok && degraded && Current() == old(Current())
      ensures !ok ==> degraded || Current() == old(Current())
      ensures ok ==> !degraded && config == store.disk && statuses == Changed(old(statuses), changes)
                     && StoredAs(config, next, notes.runtime.conflictPath)
    {
      ok := false;
      if degraded {
        return;
      }
      ok := ApplyConfigWithGitStatuses(next, target, changes, fs, w);
    }
  }
}
