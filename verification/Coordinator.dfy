/** The lock-free conflict set of the base operation coordinator. */
module Coordinator {
  import opened Basics
  import opened Journal

  /** What identifies a directory on disk; None when it cannot be read. */
  type FileIdentity = Option<nat>

  /** Pending conflicts by clean path, with the identity of the directory when it was gated. */
  type ConflictPathSet = map<Path, FileIdentity>

  datatype Update =
    | Pend(path: Path, identity: FileIdentity)
    | Clear(path: Path)
    | ClearIdentity(path: Path, identity: FileIdentity)

  /** sameFileIdentity */
  predicate SameFile(a: FileIdentity, b: FileIdentity) {
    a.Some? && b.Some? && a == b
  }

  /** The entry goes away with the identity, or, when nothing is known on either side, with the path. */
  predicate Matches(path: Path, entry: FileIdentity, u: Update)
    requires u.ClearIdentity?
  {
    SameFile(u.identity, entry) || (path == u.path && u.identity.None? && entry.None?)
  }

  /** One update on its own. */
  function Updated(s: ConflictPathSet, u: Update): ConflictPathSet {
    match u
    case Pend(path, identity) => s[path := identity]
    case Clear(path) => s - {path}
    case ClearIdentity(_, _) => map path | path in s && !Matches(path, s[path], u) :: s[path]
  }

  function Fold(history: seq<Update>): ConflictPathSet {
    if history == [] then map[] else Updated(Fold(history[..|history| - 1]), history[|history| - 1])
  }

  // ---------------------------------------------------------------- any number of goroutines

  datatype Goroutine = Idle | Loaded(update: Update, pointer: nat)

  /** `heap` holds every snapshot ever built, by address; `history` the updates in the order of their
      successful swaps, with the goroutine that made them. */
  datatype World = World(heap: seq<ConflictPathSet>, current: nat, goroutines: map<nat, Goroutine>, history: seq<(nat, Update)>)

  datatype Step = Call(goroutine: nat, update: Update) | Swap(goroutine: nat)

  function Updates(history: seq<(nat, Update)>): seq<Update> {
    seq(|history|, i requires 0 <= i < |history| => history[i].1)
  }

  predicate Possible(w: World, step: Step) {
    && step.goroutine in w.goroutines
    && match step
       case Call(g, _) => w.goroutines[g].Idle?
       case Swap(g) => w.goroutines[g].Loaded? && w.goroutines[g].pointer < |w.heap|
  }

  /** A goroutine loads the pointer, or builds the next snapshot and tries to swap it in; a failed swap loads again. */
  function Next(w: World, step: Step): World
    requires Possible(w, step)
  {
    match step
    case Call(g, u) => w.(goroutines := w.goroutines[g := Loaded(u, w.current)])
    case Swap(g) =>
      var local := w.goroutines[g];
      var built := w.(heap := w.heap + [Updated(w.heap[local.pointer], local.update)]);
      if local.pointer == w.current then
        built.(current := |w.heap|, goroutines := w.goroutines[g := Idle], history := w.history + [(g, local.update)])
      else
        built.(goroutines := w.goroutines[g := Loaded(local.update, w.current)])
  }

  ghost predicate Runs(w: World, steps: seq<Step>)
    decreases |steps|
  {
    steps == [] || (Possible(w, steps[0]) && Runs(Next(w, steps[0]), steps[1..]))
  }

  ghost function After(w: World, steps: seq<Step>): World
    requires Runs(w, steps)
    decreases |steps|
  {
    if steps == [] then w else After(Next(w, steps[0]), steps[1..])
  }

  /** The published set is the fold of the updates whose swap succeeded. */
  ghost predicate Linear(w: World) {
    && w.current < |w.heap| && w.heap[w.current] == Fold(Updates(w.history))
    && forall g :: g in w.goroutines && w.goroutines[g].Loaded? ==> w.goroutines[g].pointer < |w.heap|
  }

  /** The swaps of the run that succeed, in order. */
  ghost function Completed(w: World, steps: seq<Step>): seq<(nat, Update)>
    requires Runs(w, steps)
    decreases |steps|
  {
    if steps == [] then []
    else
      var s := steps[0];
      (if s.Swap? && w.goroutines[s.goroutine].pointer == w.current then [(s.goroutine, w.goroutines[s.goroutine].update)] else [])
      + Completed(Next(w, s), steps[1..])
  }

  lemma FoldOne(history: seq<(nat, Update)>, g: nat, u: Update)
    ensures Fold(Updates(history + [(g, u)])) == Updated(Fold(Updates(history)), u)
  {
    var all := Updates(history + [(g, u)]);
    assert all[..|all| - 1] == Updates(history);
  }

  lemma StepIsLinear(w: World, step: Step)
    requires Linear(w) && Possible(w, step)
    ensures Linear(Next(w, step)) && w.heap <= Next(w, step).heap && w.history <= Next(w, step).history
  {
    if step.Swap? {
      FoldOne(w.history, step.goroutine, w.goroutines[step.goroutine].update);
    }
  }

  lemma HistoryGrows(w: World, step: Step)
    requires Possible(w, step)
    ensures Next(w, step).history
         == w.history
            + if step.Swap? && w.goroutines[step.goroutine].pointer == w.current
              then [(step.goroutine, w.goroutines[step.goroutine].update)] else []
  {}

  /** Every interleaving is linearizable: the published set is always the fold of the completed updates in the
      order of their swaps, exactly the updates whose swap succeeded are in it, none is lost, and a snapshot
      once built never changes. */
  lemma {:induction false} RunIsLinear(w: World, steps: seq<Step>)
    requires Linear(w) && Runs(w, steps)
    ensures Linear(After(w, steps)) && w.heap <= After(w, steps).heap
    ensures After(w, steps).history == w.history + Completed(w, steps)
    decreases |steps|
  {
    if steps != [] {
      var t := Next(w, steps[0]);
      StepIsLinear(w, steps[0]);
      RunIsLinear(t, steps[1..]);
      assert After(w, steps) == After(t, steps[1..]);
      HistoryGrows(w, steps[0]);
    }
  }

  // ---------------------------------------------------------------- one goroutine's code

  /** An immutable published snapshot; pointers are compared by identity. */
  class Snapshot {
    const entries: ConflictPathSet

    constructor (entries: ConflictPathSet)
      ensures this.entries == entries
    {
      this.entries := entries;
    }
  }

  /** Some other goroutine completes this update. */
  ghost predicate Offered(others: seq<seq<Update>>, u: Update) {
    exists s :: s in others && u in s
  }

  class BaseOperationCoordinator {
    var conflicts: Snapshot
    ghost var history: seq<Update>
    /** The updates other goroutines complete each time this one pauses. */
    var others: seq<seq<Update>>

    ghost predicate Valid()
      reads this
    {
      conflicts.entries == Fold(history)
    }

    constructor ()
      ensures Valid() && history == []
    {
      conflicts := new Snapshot(map[]);
      history, others := [], [];
    }

    /** Other goroutines run: a successful swap of theirs installs a snapshot that did not exist before. */
    method Pause() returns (ghost between: seq<Update>)
      requires Valid()
      modifies this
      ensures Valid() && history == old(history) + between
      ensures if between == [] then conflicts == old(conflicts) else fresh(conflicts)
      ensures |others| <= |old(others)| && (between != [] ==> |others| < |old(others)|)
      ensures (between != [] ==> between in old(others)) && forall s :: s in others ==> s in old(others)
    {
      var updates := if others == [] then [] else others[0];
      between := updates;
      others := if others == [] then [] else others[1..];
      InstallAll(updates);
    }

    method InstallAll(updates: seq<Update>)
      requires Valid()
      modifies this`conflicts, this`history
      ensures Valid() && history == old(history) + updates
      ensures if updates == [] then conflicts == old(conflicts) else fresh(conflicts)
    {
      for k := 0 to |updates|
        invariant Valid() && history == old(history) + updates[..k]
        invariant if k == 0 then conflicts == old(conflicts) else fresh(conflicts)
      {
        assert updates[..k + 1] == updates[..k] + [updates[k]];
        Install(updates[k]);
      }
      assert updates[..|updates|] == updates;
    }

    method Install(u: Update)
      requires Valid()
      modifies this`conflicts, this`history
      ensures Valid() && history == old(history) + [u] && fresh(conflicts)
    {
      conflicts := new Snapshot(Updated(conflicts.entries, u));
      history := history + [u];
      assert history[..|history| - 1] == old(history);
    }

    method CompareAndSwap(expected: Snapshot, next: Snapshot, ghost u: Update) returns (ok: bool)
      requires Valid() && next.entries == Updated(expected.entries, u)
      modifies this`conflicts, this`history
      ensures Valid()
      ensures ok <==> old(conflicts) == expected
      ensures if ok then conflicts == next && history == old(history) + [u] else conflicts == old(conflicts) && history == old(history)
    {
      ok := conflicts == expected;
      if ok {
        conflicts := next;
        history := history + [u];
        assert history[..|history| - 1] == old(history);
      }
    }

    /** The copy both updates start from: the entries of the snapshot that are to be kept. */
    static method CopyEntries(current: Snapshot, keep: (Path, FileIdentity) -> bool) returns (next: ConflictPathSet)
      ensures next == map path | path in current.entries && keep(path, current.entries[path]) :: current.entries[path]
    {
      next := map[];
      var remaining := current.entries.Keys;
      while remaining != {}
        invariant remaining <= current.entries.Keys
        invariant next == map path | path in current.entries && path !in remaining && keep(path, current.entries[path]) :: current.entries[path]
        decreases |remaining|
      {
        var path :| path in remaining;
        if keep(path, current.entries[path]) {
          next := next[path := current.entries[path]];
        }
        remaining := remaining - {path};
      }
    }

    /** SetConflict takes effect at one point between its call and its return. The retry loop ends because a
        swap fails only when another goroutine's has succeeded. */
    method SetConflict(path: Path, pending: bool, identity: FileIdentity) returns (ghost during: seq<Update>)
      requires Valid()
      modifies this
      ensures Valid()
      ensures path == "" ==> history == old(history)
      ensures (forall u :: u in during ==> Offered(old(others), u)) && forall s :: s in others ==> s in old(others)
      ensures path != "" ==> history == old(history) + during + [if pending then Pend(path, identity) else Clear(path)]
    {
      during := [];
      if path == "" {
        return;
      }
      ghost var u := if pending then Pend(path, identity) else Clear(path);
      while true
        invariant Valid() && history == old(history) + during
        invariant (forall u :: u in during ==> Offered(old(others), u)) && forall s :: s in others ==> s in old(others)
        decreases |others|
      {
        var current := conflicts;
        var entries := CopyEntries(current, (_, _) => true);
        assert entries == current.entries;
        entries := if pending then entries[path := identity] else entries - {path};
        var next := new Snapshot(entries);
        ghost var between := Pause();
        assert forall u :: u in between ==> Offered(old(others), u);
        during := during + between;
        var swapped := CompareAndSwap(current, next, u);
        if swapped {
          return;
        }
      }
    }

    /** clearConflictForIdentity, in the same way. */
    method ClearConflictForIdentity(path: Path, identity: FileIdentity) returns (ghost during: seq<Update>)
      requires Valid()
      modifies this
      ensures Valid()
      ensures path == "" ==> history == old(history)
      ensures (forall u :: u in during ==> Offered(old(others), u)) && forall s :: s in others ==> s in old(others)
      ensures path != "" ==> history == old(history) + during + [Update.ClearIdentity(path, identity)]
    {
      during := [];
      if path == "" {
        return;
      }
      var u := Update.ClearIdentity(path, identity);
      while true
        invariant Valid() && history == old(history) + during
        invariant (forall u :: u in during ==> Offered(old(others), u)) && forall s :: s in others ==> s in old(others)
        decreases |others|
      {
        var current := conflicts;
        var entries := CopyEntries(current, (p, entry) => !Matches(p, entry, u));
        var next := new Snapshot(entries);
        ghost var between := Pause();
        assert forall u :: u in between ==> Offered(old(others), u);
        during := during + between;
        var swapped := CompareAndSwap(current, next, u);
        if swapped {
          return;
        }
      }
    }

    /** checkMutationForIdentity: refused exactly when the completed updates leave the path, or the same
        directory under another path, pending. */
    method CheckMutationForIdentity(path: Path, identity: FileIdentity) returns (refused: bool)
      requires Valid()
      ensures refused <==> !(path == "" && identity.None?)
                           && (path in Fold(history) || exists p :: p in Fold(history) && SameFile(identity, Fold(history)[p]))
    {
      if path == "" && identity.None? {
        return false;
      }
      if path in conflicts.entries {
        return true;
      }
      var remaining := conflicts.entries.Keys;
      while remaining != {} && identity.Some?
        invariant remaining <= conflicts.entries.Keys
        invariant forall p :: p in conflicts.entries && p !in remaining ==> !SameFile(identity, conflicts.entries[p])
        decreases |remaining|
      {
        var p :| p in remaining;
        if SameFile(identity, conflicts.entries[p]) {
          return true;
        }
        remaining := remaining - {p};
      }
      refused := false;
    }
  }
}
