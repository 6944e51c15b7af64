/** What becomes of the Git status rows when the whole configuration is replaced. */
module ReplacementStatuses {
  import opened Basics
  import opened Configuration
  import opened Coordinator
  import opened GateRelease
  import opened Journal
  import opened NoteIndex
  import opened Replacement
  import opened Settings
  import opened Statuses

  function Lookup(table: StatusTable, path: Path): Option<Status> {
    if path in table then Some(table[path]) else None
  }

  /** needsReconnectGitStatus */
  function NeedsReconnectStatus(name: string, path: Path): Status {
    Status(name, path, StatusNeedsReconnect, "", None, 0, None, None, {}, None, None)
  }

  // ---------------------------------------------------------------- what a replacement does to the rows

  /** A replacement: the stored rows, both lists of bases, which new base continues which old one. */
  datatype Replacing = Replacing(table: StatusTable, current: seq<Base>, next: seq<Base>, matches: seq<int>, canon: Canonical) {
    ghost predicate Valid() {
      |matches| == |next| && forall i :: 0 <= i < |next| ==> -1 <= matches[i] < |current|
    }

    ghost predicate RowOf(base: Base, p: Path) {
      p in table && table[p].base == base.name
    }

    ghost predicate Ambiguous(base: Base) {
      exists p, q :: RowOf(base, p) && RowOf(base, q) && p != q
    }

    /** existingGitStatusPath: the base's row, or else where it would be. */
    ghost predicate Owns(base: Base, place: (Path, bool)) {
      if place.1 then RowOf(base, place.0) else place.0 == base.path && forall p :: !RowOf(base, p)
    }

    /** The new base i continues an old one under another name or path. */
    ghost predicate Rebuilt(i: int)
      requires Valid()
    {
      0 <= i < |next| && matches[i] >= 0 && (current[matches[i]].name != next[i].name || current[matches[i]].path != next[i].path)
    }

    /** The new base i stays at its row p under a new name. */
    ghost predicate Renames(i: int, p: Path)
      requires Valid()
    {
      && Rebuilt(i) && RowOf(current[matches[i]], p) && canon(next[i].path) == Some(p)
      && current[matches[i]].name != next[i].name
    }

    /** The new base i leaves its row p. */
    ghost predicate Leaves(i: int, p: Path)
      requires Valid()
    {
      Rebuilt(i) && RowOf(current[matches[i]], p) && canon(next[i].path) != Some(p)
    }

    /** The new base i comes to p from elsewhere and has a Git connection. */
    ghost predicate Arrives(i: int, p: Path)
      requires Valid()
    {
      && Rebuilt(i) && canon(next[i].path) == Some(p) && Configured(next[i].git)
      && !Owns(current[matches[i]], (p, true)) && !Owns(current[matches[i]], (p, false))
    }

    /** Row p belongs to an old base that is gone. */
    ghost predicate Forgotten(p: Path)
      requires Valid()
    {
      exists c :: 0 <= c < |current| && c !in matches && RowOf(current[c], p)
    }

    ghost predicate Touched(p: Path)
      requires Valid()
    {
      Forgotten(p) || exists i :: Renames(i, p) || Leaves(i, p) || Arrives(i, p)
    }

    /** The row the first k new bases leave at a touched path: the last of them decides. */
    ghost function After(k: nat, p: Path): Option<Status>
      requires Valid() && k <= |next|
    {
      if k == 0 then None
      else if Renames(k - 1, p) then Some(table[p].(base := next[k - 1].name))
      else if Arrives(k - 1, p) then Some(NeedsReconnectStatus(next[k - 1].name, p))
      else After(k - 1, p)
    }

    ghost function Planned(p: Path): Option<Status>
      requires Valid()
    {
      if Touched(p) then After(|next|, p) else Lookup(table, p)
    }

    ghost predicate Writes(i: int, p: Path)
      requires Valid()
    {
      Renames(i, p) || Arrives(i, p)
    }

    ghost function Written(i: int, p: Path): Status
      requires Valid() && Writes(i, p)
    {
      if Renames(i, p) then table[p].(base := next[i].name) else NeedsReconnectStatus(next[i].name, p)
    }

    /** Names are unique, and matches are one to one and follow the names. */
    ghost predicate Sound() {
      && Valid() && UniqueNames(current) && UniqueNames(next)
      && (forall i, k :: 0 <= i < |next| && 0 <= k < |next| && matches[i] == matches[k] >= 0 ==> i == k)
      && (forall i, c :: 0 <= i < |next| && 0 <= c < |current| && next[i].name == current[c].name ==> matches[i] == c)
    }

    /** No two configured new bases share a directory. */
    ghost predicate DistinctRepositories() {
      forall i, k | 0 <= i < |next| && 0 <= k < |next| && Configured(next[i].git) && Configured(next[k].git) ::
        canon(next[i].path) == canon(next[k].path) ==> i == k
    }

    /** The row of p is left alone and bears the name of the new base i. */
    ghost predicate Bears(i: int, p: Path)
      requires Valid() && 0 <= i < |next|
    {
      !Touched(p) && p in table && table[p].base == next[i].name
    }

    /** The new base i writes its row at p, and none further down the list does. */
    ghost predicate WritesLast(i: int, p: Path)
      requires Valid()
    {
      Writes(i, p) && forall k :: i < k < |next| ==> !Writes(k, p)
    }

    /** Rows under a name that only the new configuration has. */
    ghost predicate NameTakenByOthers(i: int) {
      && 0 <= i < |next| && (forall c :: 0 <= c < |current| ==> current[c].name != next[i].name)
      && exists p :: p in table && table[p].base == next[i].name
    }
  }

  lemma {:induction false} AfterIsLast(r: Replacing, n: nat, p: Path)
    requires r.Valid() && n <= |r.next|
    ensures r.After(n, p).None? <==> forall i :: 0 <= i < n ==> !r.Writes(i, p)
    ensures r.After(n, p).Some? ==>
              exists i :: 0 <= i < n && r.Writes(i, p) && r.After(n, p) == Some(r.Written(i, p))
                          && forall k :: i < k < n ==> !r.Writes(k, p)
  {
    if n > 0 {
      AfterIsLast(r, n - 1, p);
      if r.Writes(n - 1, p) {
        assert r.After(n, p) == Some(r.Written(n - 1, p));
      }
    }
  }

  /** A row that is left alone belongs to a new base or to nobody who was configured. */
  lemma UntouchedRow(r: Replacing, p: Path, c: int)
    requires r.Sound() && 0 <= c < |r.current| && r.RowOf(r.current[c], p) && !r.Touched(p)
    ensures exists i :: 0 <= i < |r.next| && r.matches[i] == c && r.next[i].name == r.current[c].name
  {
    var i :| 0 <= i < |r.matches| && r.matches[i] == c;
    assert !r.Leaves(i, p) && !r.Renames(i, p);
  }

  /** No row is left behind: afterwards every row names a new base, unless it named no configured base before. */
  lemma NoRowIsOrphaned(r: Replacing, p: Path)
    requires r.Sound() && r.Planned(p).Some?
    ensures (exists i :: 0 <= i < |r.next| && r.next[i].name == r.Planned(p).value.base)
            || (r.Planned(p) == Lookup(r.table, p) && forall c :: 0 <= c < |r.current| ==> !r.RowOf(r.current[c], p))
  {
    if r.Touched(p) {
      AfterIsLast(r, |r.next|, p);
    } else if c :| 0 <= c < |r.current| && r.RowOf(r.current[c], p) {
      UntouchedRow(r, p, c);
    }
  }

  ghost predicate HasRow(r: Replacing, i: int, p: Path)
    requires r.Valid() && 0 <= i < |r.next|
  {
    r.Planned(p).Some? && r.Planned(p).value.base == r.next[i].name
  }

  /** A row names the new base i in the end if and only if it did and is left alone, or i writes it last. */
  lemma RowsOf(r: Replacing, i: int, p: Path)
    requires r.Sound() && 0 <= i < |r.next|
    ensures HasRow(r, i, p) <==> r.Bears(i, p) || r.WritesLast(i, p)
  {
    if r.Touched(p) {
      AfterIsLast(r, |r.next|, p);
    } else {
      assert forall k :: 0 <= k < |r.next| ==> !r.Writes(k, p);
    }
  }

  /** A base writes in one place only. */
  lemma WritesOnce(r: Replacing, i: int, p: Path, q: Path)
    requires r.Valid() && r.Writes(i, p) && r.Writes(i, q)
    ensures p == q
  {}

  /** A new base ends up with two rows if and only if a row that is left alone bears its name, and so does another
      one, or the base writes another one last. */
  lemma TwoRowsExactly(r: Replacing, i: int, p: Path, q: Path)
    requires r.Sound() && 0 <= i < |r.next| && p != q
    ensures HasRow(r, i, p) && HasRow(r, i, q)
            <==> (r.Bears(i, p) && (r.Bears(i, q) || r.WritesLast(i, q))) || (r.Bears(i, q) && r.WritesLast(i, p))
  {
    RowsOf(r, i, p);
    RowsOf(r, i, q);
    if r.Writes(i, p) && r.Writes(i, q) {
      WritesOnce(r, i, p, q);
    }
  }

  /** A base that keeps its name writes no row while its old one is left alone. */
  lemma NoRowBesideItsOwn(r: Replacing, i: int, p: Path, q: Path)
    requires r.Sound() && 0 <= i < |r.next| && r.matches[i] >= 0 && r.current[r.matches[i]].name == r.next[i].name
    requires r.Bears(i, p)
    ensures !r.Writes(i, q)
  {
    assert r.RowOf(r.current[r.matches[i]], p) && !r.Leaves(i, p);
  }

  /** So it has one, unless its name is that of a row of nobody configured, or it had two rows and kept its name. */
  lemma OneRowEach(r: Replacing, i: int, p: Path, q: Path)
    requires r.Sound() && 0 <= i < |r.next| && p != q && HasRow(r, i, p) && HasRow(r, i, q)
    ensures r.NameTakenByOthers(i) || (r.matches[i] >= 0 && r.Ambiguous(r.current[r.matches[i]]))
  {
    TwoRowsExactly(r, i, p, q);
    if !r.NameTakenByOthers(i) {
      var c :| 0 <= c < |r.current| && r.current[c].name == r.next[i].name;
      assert r.matches[i] == c;
      if r.Bears(i, p) {
        NoRowBesideItsOwn(r, i, p, q);
      } else {
        NoRowBesideItsOwn(r, i, q, p);
      }
      assert r.RowOf(r.current[c], p) && r.RowOf(r.current[c], q);
    }
  }

  /** A configured base that moved is asked to reconnect, if and only if no base further down the list is
      renamed in the same directory, whose row then takes the place. */
  lemma ReconnectIsAskedFor(r: Replacing, i: int, p: Path)
    requires r.Sound() && r.DistinctRepositories() && r.Arrives(i, p)
    ensures r.Planned(p) == Some(NeedsReconnectStatus(r.next[i].name, p)) <==> forall k :: i < k < |r.next| ==> !r.Renames(k, p)
  {
    AfterIsLast(r, |r.next|, p);
    assert r.Touched(p) && r.Writes(i, p);
    var last :| 0 <= last < |r.next| && r.Writes(last, p) && r.After(|r.next|, p) == Some(r.Written(last, p))
                && forall k :: last < k < |r.next| ==> !r.Writes(k, p);
    assert last > i ==> r.Renames(last, p);
    forall k | i < k < |r.next| && r.Renames(k, p)
      ensures r.Writes(k, p)
    {}
  }

  /** A base that is only renamed keeps its row, up to the name, if and only if no base further down the list
      comes into its directory. */
  lemma RenamedRowIsKept(r: Replacing, i: int, p: Path)
    requires r.Sound() && r.Renames(i, p)
    ensures r.Planned(p) == Some(r.table[p].(base := r.next[i].name)) <==> forall k :: i < k < |r.next| ==> !r.Arrives(k, p)
  {
    AfterIsLast(r, |r.next|, p);
    assert r.Touched(p) && r.Writes(i, p);
    var last :| 0 <= last < |r.next| && r.Writes(last, p) && r.After(|r.next|, p) == Some(r.Written(last, p))
                && forall k :: last < k < |r.next| ==> !r.Writes(k, p);
    forall k | i < k < |r.next| && r.Arrives(k, p)
      ensures r.Writes(k, p)
    {}
    forall k | 0 <= k < |r.next| && r.Renames(k, p)
      ensures k == i
    {
      assert r.current[r.matches[k]].name == r.current[r.matches[i]].name;
    }
  }

  /** What a refusal comes from: a base with two rows, or a directory that cannot be resolved. */
  ghost predicate RefusesMove(r: Replacing, i: int)
    requires r.Valid()
  {
    r.Rebuilt(i) && (r.Ambiguous(r.current[r.matches[i]]) || r.canon(r.next[i].path).None?)
  }

  ghost predicate RefusesForgetting(r: Replacing, c: int)
    requires r.Valid()
  {
    0 <= c < |r.current| && c !in r.matches && r.Ambiguous(r.current[c])
  }

  /** The matching and unique names make a replacement sound. */
  lemma MatchingIsSound(r: Replacing)
    requires Matching(r.current, r.next, r.canon, r.matches) && UniqueNames(r.current) && UniqueNames(r.next)
    ensures r.Sound()
  {
    forall i, k | 0 <= i < |r.next| && 0 <= k < |r.next| && r.matches[i] == r.matches[k] >= 0
      ensures i == k
    {
      ContinuesIsInjective(r.current, r.next, r.canon, i, k, r.matches[i]);
    }
    forall i, c | 0 <= i < |r.next| && 0 <= c < |r.current| && r.next[i].name == r.current[c].name
      ensures r.matches[i] == c
    {
      assert r.current[c] in r.current;
      assert Continues(r.current, r.next, r.canon, i, c);
    }
  }

  ghost predicate Plannable(r: Replacing)
    requires r.Valid()
  {
    (forall i :: !RefusesMove(r, i)) && forall c :: !RefusesForgetting(r, c)
  }

  // ---------------------------------------------------------------- prepareReplaceConfigGitStatuses

  /** The rows of the table as a query lists them. */
  ghost predicate Lists(listed: seq<Path>, table: StatusTable) {
    && (forall i, k :: 0 <= i < |listed| && 0 <= k < |listed| && listed[i] == listed[k] ==> i == k)
    && forall p :: p in listed <==> p in table
  }

  /** existingGitStatusPath */
  method ExistingGitStatusPath(r: Replacing, listed: seq<Path>, base: Base) returns (result: Option<(Path, bool)>)
    requires Lists(listed, r.table)
    ensures result.None? <==> r.Ambiguous(base)
    ensures result.Some? ==> r.Owns(base, result.value)
  {
    var matched, count := "", 0;
    for i := 0 to |listed|
      invariant 0 <= count <= 1
      invariant count == 0 ==> forall k :: 0 <= k < i ==> !r.RowOf(base, listed[k])
      invariant count == 1 ==> r.RowOf(base, matched) && forall k :: 0 <= k < i && r.RowOf(base, listed[k]) ==> listed[k] == matched
      invariant count == 1 ==> matched in listed[..i]
    {
      if r.table[listed[i]].base == base.name {
        if count > 0 {
          assert r.RowOf(base, matched) && r.RowOf(base, listed[i]);
          return None;
        }
        matched, count := listed[i], 1;
      }
    }
    if count == 1 {
      return Some((matched, true));
    }
    result := Some((base.path, base.path in r.table && r.table[base.path].base == base.name));
  }

  /** What is known of one continued base: nothing to do, or from where, whether it has a row there, and where to. */
  datatype Move = Stays | Moves(old_: Path, owned: bool, new_: Path)

  ghost predicate MoveIs(r: Replacing, i: int, move: Move)
    requires r.Valid() && 0 <= i < |r.next|
  {
    if r.Rebuilt(i) then
      && move.Moves? && r.Owns(r.current[r.matches[i]], (move.old_, move.owned)) && r.canon(r.next[i].path) == Some(move.new_)
      && !r.Ambiguous(r.current[r.matches[i]])
    else move == Stays
  }

  method MoveOf(r: Replacing, listed: seq<Path>, i: nat) returns (ok: bool, move: Move, paths: seq<Path>)
    requires r.Valid() && Lists(listed, r.table) && i < |r.next|
    ensures ok <==> !RefusesMove(r, i)
    ensures ok ==> MoveIs(r, i, move)
    ensures ok ==> forall p :: p in paths <==> r.Renames(i, p) || r.Leaves(i, p) || r.Arrives(i, p)
  {
    ok, move, paths := true, Stays, [];
    var match_ := r.matches[i];
    if match_ < 0 || (r.current[match_].name == r.next[i].name && r.current[match_].path == r.next[i].path) {
      return;
    }
    var existing := ExistingGitStatusPath(r, listed, r.current[match_]);
    if existing.None? {
      return false, Stays, [];
    }
    var place := r.canon(r.next[i].path);
    if place.None? {
      return false, Stays, [];
    }
    var (old_, owned) := existing.value;
    move := Moves(old_, owned, place.value);
    if old_ == place.value {
      if owned && r.current[match_].name != r.next[i].name {
        paths := [old_];
      }
      return;
    }
    if owned {
      paths := [old_];
    }
    if Configured(r.next[i].git) {
      paths := paths + [place.value];
    }
  }

  method CollectMoves(r: Replacing, listed: seq<Path>) returns (ok: bool, moves: seq<Move>, paths: seq<Path>)
    requires r.Valid() && Lists(listed, r.table)
    ensures ok <==> forall i :: !RefusesMove(r, i)
    ensures ok ==> |moves| == |r.next| && forall i :: 0 <= i < |r.next| ==> MoveIs(r, i, moves[i])
    ensures ok ==> forall p :: p in paths <==> exists i :: r.Renames(i, p) || r.Leaves(i, p) || r.Arrives(i, p)
  {
    ok, moves, paths := true, [], [];
    for i := 0 to |r.next|
      invariant ok && |moves| == i
      invariant forall k :: 0 <= k < i ==> MoveIs(r, k, moves[k]) && !RefusesMove(r, k)
      invariant forall p :: p in paths <==> exists k :: 0 <= k < i && (r.Renames(k, p) || r.Leaves(k, p) || r.Arrives(k, p))
    {
      var move, more;
      ok, move, more := MoveOf(r, listed, i);
      if !ok {
        return;
      }
      moves, paths := moves + [move], paths + more;
    }
  }

  method CollectForgotten(r: Replacing, listed: seq<Path>) returns (ok: bool, paths: seq<Path>)
    requires r.Valid() && Lists(listed, r.table)
    ensures ok <==> forall c :: !RefusesForgetting(r, c)
    ensures ok ==> forall p :: p in paths <==> r.Forgotten(p)
  {
    ok, paths := true, [];
    for c := 0 to |r.current|
      invariant ok && forall k :: 0 <= k < c ==> !RefusesForgetting(r, k)
      invariant forall p :: p in paths <==> exists k :: 0 <= k < c && k !in r.matches && r.RowOf(r.current[k], p)
    {
      if c !in r.matches {
        var existing := ExistingGitStatusPath(r, listed, r.current[c]);
        if existing.None? {
          assert RefusesForgetting(r, c);
          return false, [];
        }
        if existing.value.1 {
          paths := paths + [existing.value.0];
        }
      }
    }
  }

  ghost predicate DistinctPaths(changes: seq<StatusChange>) {
    forall i, k :: 0 <= i < |changes| && 0 <= k < |changes| && changes[i].path == changes[k].path ==> i == k
  }

  ghost predicate Mentions(changes: seq<StatusChange>, p: Path) {
    exists k :: 0 <= k < |changes| && changes[k].path == p
  }

  /** prepareGitStatusChanges: each path once, with what is stored there, to be deleted. */
  method PrepareGitStatusChanges(table: StatusTable, paths: seq<Path>) returns (changes: seq<StatusChange>)
    ensures DistinctPaths(changes) && ReadFrom(changes, table)
    ensures forall p :: Mentions(changes, p) <==> p in paths
    ensures forall c :: c in changes ==> c.after == None
  {
    changes := [];
    var seen: set<Path> := {};
    for i := 0 to |paths|
      invariant DistinctPaths(changes) && ReadFrom(changes, table)
      invariant forall p :: Mentions(changes, p) <==> p in seen
      invariant forall p :: p in seen <==> p in paths[..i]
      invariant forall c :: c in changes ==> c.after == None
    {
      var path := paths[i];
      if path !in seen {
        ghost var before := changes;
        changes := changes + [StatusChange(path, Lookup(table, path), None)];
        seen := seen + {path};
        forall p | Mentions(before, p)
          ensures Mentions(changes, p)
        {
          var k :| 0 <= k < |before| && before[k].path == p;
          assert changes[k].path == p;
        }
        assert changes[|before|].path == path;
      }
    }
    assert paths[..|paths|] == paths;
  }

  /** gitStatusChangeAt */
  method GitStatusChangeAt(changes: seq<StatusChange>, path: Path) returns (index: nat)
    requires Mentions(changes, path)
    ensures index < |changes| && changes[index].path == path
  {
    index := 0;
    while changes[index].path != path
      invariant index < |changes| && forall k :: 0 <= k < index ==> changes[k].path != path
      decreases |changes| - index
    {
      index := index + 1;
    }
  }

  /** The changes as they are once the first k moves are entered. */
  ghost predicate Entered(r: Replacing, changes: seq<StatusChange>, k: nat)
    requires r.Valid() && k <= |r.next|
  {
    && DistinctPaths(changes) && ReadFrom(changes, r.table)
    && (forall p :: Mentions(changes, p) <==> r.Touched(p))
    && forall c :: c in changes ==> c.after == r.After(k, c.path)
  }

  /** One round of the last loop. */
  method EnterMove(r: Replacing, i: nat, move: Move, changes: seq<StatusChange>) returns (entered: seq<StatusChange>)
    requires r.Valid() && i < |r.next| && MoveIs(r, i, move) && Entered(r, changes, i)
    ensures Entered(r, entered, i + 1)
  {
    entered := changes;
    if move.Stays? {
      return;
    }
    var name := r.next[i].name;
    if move.old_ == move.new_ {
      if !move.owned || r.current[r.matches[i]].name == name {
        return;
      }
      assert r.Renames(i, move.old_);
      var at := GitStatusChangeAt(changes, move.old_);
      assert changes[at] in changes;
      entered := changes[at := changes[at].(after := Some(changes[at].before.value.(base := name)))];
      EnteredAt(r, i, move.old_, changes, at, entered[at].after);
    } else if Configured(r.next[i].git) {
      assert r.Arrives(i, move.new_);
      var at := GitStatusChangeAt(changes, move.new_);
      entered := changes[at := changes[at].(after := Some(NeedsReconnectStatus(name, move.new_)))];
      EnteredAt(r, i, move.new_, changes, at, entered[at].after);
    }
  }

  lemma EnteredAt(r: Replacing, i: nat, p: Path, changes: seq<StatusChange>, at: nat, after: Option<Status>)
    requires r.Valid() && i < |r.next| && Entered(r, changes, i) && at < |changes| && changes[at].path == p
    requires forall q :: r.Writes(i, q) <==> q == p
    requires after == r.After(i + 1, p)
    ensures Entered(r, changes[at := changes[at].(after := after)], i + 1)
  {
    var entered := changes[at := changes[at].(after := after)];
    assert forall k :: 0 <= k < |changes| ==> entered[k].path == changes[k].path && entered[k].before == changes[k].before;
    forall c | c in entered
      ensures c.after == r.After(i + 1, c.path) && c.before == Lookup(r.table, c.path)
    {
      var k :| 0 <= k < |entered| && entered[k] == c;
      assert changes[k] in changes;
      assert r.Writes(i, c.path) <==> k == at;
    }
    forall q
      ensures Mentions(entered, q) <==> Mentions(changes, q)
    {
      assert forall k :: 0 <= k < |changes| ==> (entered[k].path == q <==> changes[k].path == q);
    }
  }

  lemma {:induction false} ChangedAt(table: StatusTable, changes: seq<StatusChange>, p: Path)
    requires DistinctPaths(changes)
    ensures !Mentions(changes, p) ==> Lookup(Changed(table, changes), p) == Lookup(table, p)
    ensures forall k :: 0 <= k < |changes| && changes[k].path == p ==> Lookup(Changed(table, changes), p) == changes[k].after
  {
    if changes != [] {
      var rest, last := changes[..|changes| - 1], changes[|changes| - 1];
      ChangedAt(table, rest, p);
      assert forall k :: 0 <= k < |rest| ==> rest[k] == changes[k];
    }
  }

  /** prepareReplaceConfigGitStatuses: changes that turn the table into the planned one, or a refusal. */
  method PrepareReplaceConfigGitStatuses(r: Replacing, listed: seq<Path>) returns (result: Option<seq<StatusChange>>)
    requires r.Valid() && Lists(listed, r.table)
    ensures result.Some? <==> Plannable(r)
    ensures result.Some? ==> ReadFrom(result.value, r.table)
                             && forall p :: Lookup(Changed(r.table, result.value), p) == r.Planned(p)
  {
    var ok, moves, paths := CollectMoves(r, listed);
    if !ok {
      return None;
    }
    var removed;
    ok, removed := CollectForgotten(r, listed);
    if !ok {
      return None;
    }
    var changes := PrepareGitStatusChanges(r.table, paths + removed);
    for i := 0 to |r.next|
      invariant Entered(r, changes, i)
    {
      changes := EnterMove(r, i, moves[i], changes);
    }
    forall p
      ensures Lookup(Changed(r.table, changes), p) == r.Planned(p)
    {
      ChangedAt(r.table, changes, p);
    }
    result := Some(changes);
  }

  // ---------------------------------------------------------------- the whole replacement

  function CanonicalIn(fs: FileSystem): Canonical {
    p => match fs(p) case None => None case Some(d) => Some(d.canonical)
  }

  /** Where a configured base lies: its canonical path and that directory's identity. */
  function Repository(fs: FileSystem, base: Base): Option<(Path, nat)> {
    if fs(base.path).None? then None
    else
      var path := fs(base.path).value.canonical;
      if fs(path).None? then None else Some((path, fs(path).value.identity))
  }

  ghost predicate SeparateRepositories(fs: FileSystem, bases: seq<Base>) {
    && (forall b :: b in bases && Configured(b.git) ==> Repository(fs, b).Some?)
    && forall i, k | 0 <= i < k < |bases| && Configured(bases[i].git) && Configured(bases[k].git) ::
         var (a, b) := (Repository(fs, bases[i]).value, Repository(fs, bases[k]).value);
         a.0 != b.0 && a.1 != b.1
  }

  lemma SeparateIsDistinct(r: Replacing, fs: FileSystem)
    requires SeparateRepositories(fs, r.next) && forall p :: r.canon(p) == CanonicalIn(fs)(p)
    ensures r.DistinctRepositories()
  {
    forall i, k | 0 <= i < k < |r.next| && Configured(r.next[i].git) && Configured(r.next[k].git)
      ensures r.canon(r.next[i].path) != r.canon(r.next[k].path)
    {
      assert Repository(fs, r.next[i]).value.0 != Repository(fs, r.next[k]).value.0;
    }
  }

  /** The identities found so far are those of the configured bases seen so far. */
  ghost predicate IdentitiesOf(fs: FileSystem, bases: seq<Base>, identities: seq<(Path, nat)>) {
    && (forall b :: b in bases && Configured(b.git) && Repository(fs, b).Some? ==> Repository(fs, b).value in identities)
    && forall e :: e in identities ==> exists b :: b in bases && Configured(b.git) && Repository(fs, b) == Some(e)
  }

  ghost predicate InUse(identities: seq<(Path, nat)>, here: (Path, nat)) {
    exists e :: e in identities && (e.0 == here.0 || e.1 == here.1)
  }

  lemma OneBaseMore(fs: FileSystem, bases: seq<Base>, base: Base, identities: seq<(Path, nat)>)
    requires SeparateRepositories(fs, bases) && IdentitiesOf(fs, bases, identities)
    ensures SeparateRepositories(fs, bases + [base])
            <==> (Configured(base.git) ==> Repository(fs, base).Some? && !InUse(identities, Repository(fs, base).value))
  {
    var more := bases + [base];
    if Configured(base.git) && Repository(fs, base).Some? {
      if InUse(identities, Repository(fs, base).value) {
        var e :| e in identities && (e.0 == Repository(fs, base).value.0 || e.1 == Repository(fs, base).value.1);
        var b :| b in bases && Configured(b.git) && Repository(fs, b) == Some(e);
        var k :| 0 <= k < |bases| && bases[k] == b;
        assert more[k] == bases[k] && more[|bases|] == base;
      }
    } else if Configured(base.git) {
      assert base in more;
    }
  }

  lemma SeparateFromTheStart(fs: FileSystem, bases: seq<Base>, i: nat)
    requires i <= |bases|
    ensures SeparateRepositories(fs, bases) ==> SeparateRepositories(fs, bases[..i])
  {}

  method FindInUse(identities: seq<(Path, nat)>, here: (Path, nat)) returns (used: bool)
    ensures used <==> InUse(identities, here)
  {
    for k := 0 to |identities|
      invariant forall j :: 0 <= j < k ==> identities[j].0 != here.0 && identities[j].1 != here.1
    {
      if identities[k].0 == here.0 || identities[k].1 == here.1 {
        return true;
      }
    }
    used := false;
  }

  /** One round of the loop: the identities with this base's, or None if it is unresolvable or in use. */
  method AddIdentity(fs: FileSystem, base: Base, identities: seq<(Path, nat)>, ghost earlier: seq<Base>)
    returns (result: Option<seq<(Path, nat)>>)
    requires SeparateRepositories(fs, earlier) && IdentitiesOf(fs, earlier, identities)
    ensures result.Some? <==> SeparateRepositories(fs, earlier + [base])
    ensures result.Some? ==> IdentitiesOf(fs, earlier + [base], result.value)
  {
    OneBaseMore(fs, earlier, base, identities);
    if !Configured(base.git) {
      return Some(identities);
    }
    var here := Repository(fs, base);
    if here.None? {
      return None;
    }
    var used := FindInUse(identities, here.value);
    result := if used then None else Some(identities + [here.value]);
  }

  /** validateUniqueGitRepositoryPaths */
  method ValidateUniqueGitRepositoryPaths(bases: seq<Base>, fs: FileSystem) returns (ok: bool)
    ensures ok <==> SeparateRepositories(fs, bases)
  {
    var identities: seq<(Path, nat)> := [];
    for i := 0 to |bases|
      invariant SeparateRepositories(fs, bases[..i]) && IdentitiesOf(fs, bases[..i], identities)
    {
      assert bases[..i + 1] == bases[..i] + [bases[i]];
      var added := AddIdentity(fs, bases[i], identities, bases[..i]);
      if added.None? {
        SeparateFromTheStart(fs, bases, i + 1);
        return false;
      }
      identities := added.value;
    }
    assert bases[..|bases|] == bases;
    ok := true;
  }

  /** The new configuration carries the Git settings, keeps repositories apart, and can be given its status rows. */
  ghost predicate Accepted(table: StatusTable, current: seq<Base>, next: Config, fs: FileSystem) {
    var canon := CanonicalIn(fs);
    && (forall i :: !Unresolvable(current, next.bases, canon, i)) && Carried(current, next.bases, canon)
    && SeparateRepositories(fs, next.bases)
    && forall matches | Matching(current, next.bases, canon, matches) ::
         Plannable(Replacing(table, current, next.bases, matches, canon))
  }

  /** A configured base that moved is asked to reconnect, if and only if no base further down the list is renamed
      in the same directory. */
  ghost predicate ReconnectsAreAskedFor(r: Replacing, after: StatusTable)
    requires r.Valid()
  {
    forall i, p :: r.Arrives(i, p) ==>
                     (Lookup(after, p) == Some(NeedsReconnectStatus(r.next[i].name, p)) <==> forall k :: i < k < |r.next| ==> !r.Renames(k, p))
  }

  /** A base that is only renamed keeps its row, up to the name, if and only if none further down moves in. */
  ghost predicate RenamedRowsAreKept(r: Replacing, after: StatusTable)
    requires r.Valid()
  {
    forall i, p :: r.Renames(i, p) ==>
                     (Lookup(after, p) == Some(r.table[p].(base := r.next[i].name)) <==> forall k :: i < k < |r.next| ==> !r.Arrives(k, p))
  }

  /** A base that had no two rows, and whose name is no stranger's, has no two rows now. */
  ghost predicate RowsAreUnique(r: Replacing, after: StatusTable)
    requires r.Valid()
  {
    forall i, p, q | 0 <= i < |r.next| && !r.NameTakenByOthers(i) && (r.matches[i] >= 0 ==> !r.Ambiguous(r.current[r.matches[i]])) ::
      p in after && q in after && after[p].base == after[q].base == r.next[i].name ==> p == q
  }

  lemma AcceptedIsExact(r: Replacing, fs: FileSystem, after: StatusTable)
    requires r.Sound() && SeparateRepositories(fs, r.next) && (forall p :: r.canon(p) == CanonicalIn(fs)(p))
    requires forall p :: Lookup(after, p) == r.Planned(p)
    ensures ReconnectsAreAskedFor(r, after) && RenamedRowsAreKept(r, after) && RowsAreUnique(r, after)
  {
    SeparateIsDistinct(r, fs);
    forall i, p | r.Arrives(i, p)
      ensures Lookup(after, p) == Some(NeedsReconnectStatus(r.next[i].name, p)) <==> forall k :: i < k < |r.next| ==> !r.Renames(k, p)
    {
      ReconnectIsAskedFor(r, i, p);
    }
    forall i, p | r.Renames(i, p)
      ensures Lookup(after, p) == Some(r.table[p].(base := r.next[i].name)) <==> forall k :: i < k < |r.next| ==> !r.Arrives(k, p)
    {
      RenamedRowIsKept(r, i, p);
    }
    forall i, p, q | 0 <= i < |r.next| && !r.NameTakenByOthers(i) && (r.matches[i] >= 0 ==> !r.Ambiguous(r.current[r.matches[i]]))
                     && p in after && q in after && after[p].base == after[q].base == r.next[i].name
      ensures p == q
    {
      assert Lookup(after, p) == r.Planned(p) && Lookup(after, q) == r.Planned(q);
      if p != q {
        OneRowEach(r, i, p, q);
      }
    }
  }

  /** What an accepted replacement leads to: connections are carried and not copied, and no status row is left behind. */
  lemma AcceptedIsTidy(r: Replacing, after: StatusTable)
    requires Matching(r.current, r.next, r.canon, r.matches) && UniqueNames(r.current) && UniqueNames(r.next)
    requires Carried(r.current, r.next, r.canon) && forall p :: Lookup(after, p) == r.Planned(p)
    ensures Connections(r.next) <= Connections(r.current)
    ensures forall p :: p in after ==>
                          (exists b :: b in r.next && b.name == after[p].base)
                          || (Lookup(r.table, p) == Some(after[p]) && forall b :: b in r.current ==> b.name != after[p].base)
  {
    ConnectionsAreNotCopied(r.current, r.next, r.canon, r.matches);
    MatchingIsSound(r);
    forall p | p in after
      ensures (exists b :: b in r.next && b.name == after[p].base)
              || (Lookup(r.table, p) == Some(after[p]) && forall b :: b in r.current ==> b.name != after[p].base)
    {
      RowHasABase(r, after, p);
    }
  }

  lemma RowHasABase(r: Replacing, after: StatusTable, p: Path)
    requires r.Sound() && p in after && Lookup(after, p) == r.Planned(p)
    ensures (exists b :: b in r.next && b.name == after[p].base)
            || (Lookup(r.table, p) == Some(after[p]) && forall b :: b in r.current ==> b.name != after[p].base)
  {
    NoRowIsOrphaned(r, p);
  }

  /** The checks of ReplaceConfig, and the status changes it prepares; None refuses the configuration. */
  method PlanReplacement(table: StatusTable, current: seq<Base>, next: Config, listed: seq<Path>, fs: FileSystem)
    returns (result: Option<seq<StatusChange>>, matches: seq<int>)
    requires UniqueNames(next.bases) && UniqueNames(current) && Lists(listed, table)
    ensures Accepted(table, current, next, fs) ==> result.Some?
    ensures result.Some? ==>
              && Carried(current, next.bases, CanonicalIn(fs)) && SeparateRepositories(fs, next.bases)
              && Matching(current, next.bases, CanonicalIn(fs), matches)
              && ReadFrom(result.value, table)
              && forall p :: Lookup(Changed(table, result.value), p)
                             == Replacing(table, current, next.bases, matches, CanonicalIn(fs)).Planned(p)
  {
    result, matches := None, [];
    var matching := ProtectReplaceConfigGitFields(current, next.bases, CanonicalIn(fs));
    if matching.None? {
      return;
    }
    matches := matching.value;
    var separate := ValidateUniqueGitRepositoryPaths(next.bases, fs);
    if !separate {
      return;
    }
    result := PrepareReplaceConfigGitStatuses(Replacing(table, current, next.bases, matches, CanonicalIn(fs)), listed);
  }

  /** ReplaceConfig, for a normalized configuration: names are unique and the current base is configured. */
  method ReplaceConfig(service: SettingsService, next: Config, listed: seq<Path>, fs: FileSystem, w: MutationFaults)
    returns (ok: bool, ghost matches: seq<int>)
    requires UniqueNames(next.bases) && UniqueNames(service.config.bases) && BaseIndex(next.bases, next.currentBase) >= 0
    requires Lists(listed, service.statuses) && service.coordinator.Valid()
    modifies service, service.store, service.notes, service.notes.table, service.coordinator
    ensures service.coordinator.Valid() && (!ok ==> service.coordinator.history == old(service.coordinator.history))
    ensures ok ==> KeptStayGated(next.bases, fs, old(Fold(service.coordinator.history)), old(service.coordinator.others), Fold(service.coordinator.history))
    ensures old(service.degraded) ==> !ok && service.Current() == old(service.Current())
    ensures !ok ==> service.degraded || service.Current() == old(service.Current())
    ensures old(Accepted(service.statuses, service.config.bases, next, fs) && !service.degraded
                && service.Applies(next, Some(next.bases[BaseIndex(next.bases, next.currentBase)].path), fs, w)
                && SettingsService.AllWritten(w.writes)) ==>
              ok
    ensures ok ==> Carried(old(service.config.bases), next.bases, CanonicalIn(fs)) && SeparateRepositories(fs, next.bases)
    ensures ok ==> service.config == service.store.disk && StoredAs(service.config, next, service.notes.runtime.conflictPath)
    ensures ok ==> Matching(old(service.config.bases), next.bases, CanonicalIn(fs), matches)
    ensures ok ==> forall p :: Lookup(service.statuses, p)
                            == Replacing(old(service.statuses), old(service.config.bases), next.bases, matches, CanonicalIn(fs)).Planned(p)
    ensures ok ==>
              var r := Replacing(old(service.statuses), old(service.config.bases), next.bases, matches, CanonicalIn(fs));
              ReconnectsAreAskedFor(r, service.statuses) && RenamedRowsAreKept(r, service.statuses) && RowsAreUnique(r, service.statuses)
    ensures ok ==> Connections(next.bases) <= Connections(old(service.config.bases))
    ensures ok ==> forall p :: p in service.statuses ==>
                                 (exists b :: b in next.bases && b.name == service.statuses[p].base)
                                 || (Lookup(old(service.statuses), p) == Some(service.statuses[p])
                                     && forall b :: b in old(service.config.bases) ==> b.name != service.statuses[p].base)
  {
    ok, matches := false, [];
    if service.degraded {
      return;
    }
    var changes, matching := PlanReplacement(service.statuses, service.config.bases, next, listed, fs);
    matches := matching;
    if changes.None? {
      return;
    }
    ghost var r := Replacing(service.statuses, service.config.bases, next.bases, matches, CanonicalIn(fs));
    var target := next.bases[BaseIndex(next.bases, next.currentBase)].path;
    ghost var recorded := RecordedPaths(service.config.bases, changes.value);
    ghost var change := Reconfiguration(service.config.bases, next.bases, recorded, fs);
    ok := service.Mutate(next, Some(target), changes.value, fs, w);
    if ok {
      KeptDirectoriesStayGated(change, old(Fold(service.coordinator.history)), old(service.coordinator.others), Fold(service.coordinator.history));
      AcceptedIsTidy(r, service.statuses);
      MatchingIsSound(r);
      AcceptedIsExact(r, fs, service.statuses);
    }
  }

  // ---------------------------------------------------------------- a name that a stray row has

  /** A base is renamed to the name of a row that belongs to nobody. */
  function StrayRow(): Replacing {
    var row := NeedsReconnectStatus("old", "/a").(state := StatusUnconfigured);
    Replacing(map["/a" := row, "/b" := row.(base := "new", path := "/b")],
              [Base("old", "/a", NO_GIT)], [Base("new", "/a", NO_GIT)], [0], p => Some(p))
  }

  lemma StrayMatching()
    ensures var r := StrayRow(); r.Sound() && Matching(r.current, r.next, r.canon, r.matches)
  {
    var r := StrayRow();
    assert r.current[0].name == "old" && r.next[0].name == "new" && "new"[0] != "old"[0];
    assert BaseIndex(r.current, "new") == -1;
    assert !Reserved(r.current, r.next, 0);
    assert OnlyCandidate(r.current, r.next, r.canon, Some("/a"), 0);
  }

  lemma StrayIsPlannable()
    ensures StrayRow().Valid() && Plannable(StrayRow())
  {
    var r := StrayRow();
    assert "/a"[1] != "/b"[1] && "new"[0] != "old"[0] && r.table["/b"].base == "new";
  }

  lemma StrayRows()
    ensures var r := StrayRow(); r.Valid() && r.Bears(0, "/b") && r.WritesLast(0, "/a")
  {
    var r := StrayRow();
    assert r.next[0].name == "new" && r.current[0].name == "old" && "new"[0] != "old"[0] && "/a"[1] != "/b"[1];
    assert r.Renames(0, "/a");
  }

  /** The base then has two rows, and its row cannot be found again. */
  lemma TwoRowsCanRemain()
    ensures var r := StrayRow();
      r.Sound() && Matching(r.current, r.next, r.canon, r.matches) && Plannable(r) && HasRow(r, 0, "/a") && HasRow(r, 0, "/b")
  {
    StrayMatching();
    StrayIsPlannable();
    StrayRows();
    RowsOf(StrayRow(), 0, "/a");
    RowsOf(StrayRow(), 0, "/b");
  }

  // ---------------------------------------------------------------- a request that is lost

  /** A connected base moves into the directory of one without Git settings, which is renamed at the same time. */
  function CrowdedDirectory(): Replacing {
    Replacing(map["/b" := NeedsReconnectStatus("old", "/b").(state := StatusUnconfigured)],
              [Base("notes", "/a", GitFields("u", "m", false, 0, "")), Base("old", "/b", NO_GIT)],
              [Base("notes", "/b", GitFields("u", "m", false, 0, "")), Base("new", "/b", NO_GIT)],
              [0, 1], CanonicalIn(CrowdedFiles()))
  }

  function CrowdedFiles(): FileSystem {
    p => if p == "/a" then Some(Directory("/a", 1, Some([]))) else if p == "/b" then Some(Directory("/b", 2, Some([]))) else None
  }

  lemma CrowdedMatching()
    ensures var r := CrowdedDirectory(); UniqueNames(r.current) && UniqueNames(r.next) && Matching(r.current, r.next, r.canon, r.matches)
  {
    var r := CrowdedDirectory();
    assert r.current[0].name == "notes" && r.current[1].name == "old" && r.next[0].name == "notes" && r.next[1].name == "new";
    assert |"new"| == |"old"| == 3 && "new"[0] != "old"[0];
    assert BaseIndex(r.current, "notes") == 0 && BaseIndex(r.current, "new") == -1;
    assert r.next[0] in r.next && Reserved(r.current, r.next, 0) && !Reserved(r.current, r.next, 1);
    assert r.canon(r.current[1].path) == Some("/b");
    assert OnlyCandidate(r.current, r.next, r.canon, Some("/b"), 1);
  }

  lemma CrowdedConfiguration()
    ensures var r := CrowdedDirectory(); Configured(r.next[0].git) && !Configured(r.next[1].git)
  {
    var git := CrowdedDirectory().next[0].git;
    assert git.url[0] in git.url && !SpaceCode(git.url[0] as int);
    assert git.branch[0] in git.branch && !SpaceCode(git.branch[0] as int);
  }

  lemma CrowdedMoves()
    ensures var r := CrowdedDirectory(); r.Valid() && r.Renames(1, "/b") && r.Arrives(0, "/b")
  {
    var r := CrowdedDirectory();
    CrowdedConfiguration();
    assert r.current[0].name == "notes" && r.current[1].name == "old" && r.next[1].name == "new";
    assert r.current[0].path[1] == 'a' && r.next[0].path[1] == 'b';
    assert "new"[0] != "old"[0] && |"notes"| != |"old"|;
    assert r.table["/b"].base == "old";
  }

  lemma CrowdedIsReadable()
    ensures var r := CrowdedDirectory(); (forall i :: !Unresolvable(r.current, r.next, r.canon, i)) && Plannable(r)
  {
    var r := CrowdedDirectory();
    assert forall b :: b in r.current || b in r.next ==> r.canon(b.path).Some?;
  }

  lemma CrowdedIsSeparate()
    ensures SeparateRepositories(CrowdedFiles(), CrowdedDirectory().next)
  {
    CrowdedConfiguration();
    assert Repository(CrowdedFiles(), CrowdedDirectory().next[0]) == Some(("/b", 2));
  }

  /** The configuration is one that the service accepts. */
  lemma CrowdedIsAccepted()
    ensures var r := CrowdedDirectory();
      && Carried(r.current, r.next, r.canon) && SeparateRepositories(CrowdedFiles(), r.next)
      && (forall i :: !Unresolvable(r.current, r.next, r.canon, i)) && Plannable(r)
  {
    var r := CrowdedDirectory();
    CrowdedMatching();
    CrowdedIsReadable();
    CrowdedIsSeparate();
    CarriedAlongMatches(r.current, r.next, r.canon, r.matches);
  }

  /** The whole check passes for it. */
  lemma CrowdedIsTaken(next: Config)
    requires next.bases == CrowdedDirectory().next
    ensures var r := CrowdedDirectory(); r.Sound() && Accepted(r.table, r.current, next, CrowdedFiles())
    ensures var r := CrowdedDirectory(); forall matches :: Matching(r.current, r.next, r.canon, matches) ==> matches == r.matches
  {
    var r := CrowdedDirectory();
    CrowdedMatching();
    CrowdedIsAccepted();
    MatchingIsSound(r);
    forall matches | Matching(r.current, r.next, r.canon, matches)
      ensures matches == r.matches
    {
      MatchingIsUnique(r.current, r.next, r.canon, matches, r.matches);
    }
  }

  function CrowdedFaults(): MutationFaults {
    MutationFaults(true, SwitchFaults(true, Preparation(true, true, true, [], true, true), true, Committed, true, true), [], [])
  }

  /** A service with that configuration, in which nothing fails. */
  method CrowdedService() returns (service: SettingsService, next: Config)
    ensures next == Config(CrowdedDirectory().next, "notes", true)
    ensures fresh(service) && fresh(service.store) && fresh(service.notes) && fresh(service.notes.table) && fresh(service.coordinator)
    ensures service.config.bases == CrowdedDirectory().current && service.statuses == CrowdedDirectory().table
    ensures !service.degraded && service.coordinator.Valid()
    ensures service.Applies(next, Some("/b"), CrowdedFiles(), CrowdedFaults())
  {
    next := Config(CrowdedDirectory().next, "notes", true);
    var config := Config(CrowdedDirectory().current, "notes", true);
    var table := new NoteTable(map[]);
    var store := new ConfigStore(config);
    var notes := new NoteService(table, Runtime("/a", "/a", Some(1)));
    var coordinator := new BaseOperationCoordinator();
    service := new SettingsService(store, notes, coordinator, config, CrowdedDirectory().table);
    assert BaseIndex(next.bases, "notes") == 0 && BaseIndex(config.bases, "notes") == 0;
  }

  /** There the request to reconnect is overwritten by the other base's row: the service carries the replacement
      out without an error, and afterwards nothing asks for the reconnection. */
  method ReconnectCanBeLost() returns (service: SettingsService, ok: bool)
    ensures var r := CrowdedDirectory(); r.Sound() && r.Arrives(0, "/b") && r.next[0].name == "notes"
    ensures ok && Lookup(service.statuses, "/b") != Some(NeedsReconnectStatus("notes", "/b"))
  {
    var r := CrowdedDirectory();
    CrowdedMatching();
    CrowdedMoves();
    var next;
    service, next := CrowdedService();
    CrowdedIsTaken(next);
    assert BaseIndex(next.bases, "notes") == 0;
    ghost var matches;
    ok, matches := ReplaceConfig(service, next, ["/b"], CrowdedFiles(), CrowdedFaults());
    assert ReconnectsAreAskedFor(r, service.statuses);
  }
}
