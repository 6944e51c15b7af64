/** Service.ensureBackup: a ref that keeps the local snapshot, journalled before it is created. */
module Backup {
  import opened Basics
  import opened CommitGraph
  import opened Errors
  import opened Journal
  import opened GitSession

  type Refs = map<string, Commit>

  // ---------------------------------------------------------------- names

  function Digit(d: nat): (c: char)
    requires d < 10
    ensures IsDigit(c) && (c == '0' <==> d == 0)
  {
    ('0' as int + d) as char
  }

  function Decimal(n: nat): (s: string)
    ensures s != ""
  {
    if n < 10 then [Digit(n)] else Decimal(n / 10) + [Digit(n % 10)]
  }

  predicate IsDigit(c: char) {
    '0' <= c <= '9'
  }

  function DigitValue(c: char): (d: nat)
    requires IsDigit(c)
    ensures d < 10 && Digit(d) == c
  {
    c as int - '0' as int
  }

  function Value(s: string): nat
    requires forall c :: c in s ==> IsDigit(c)
  {
    if s == "" then 0 else Value(s[..|s| - 1]) * 10 + DigitValue(s[|s| - 1])
  }

  lemma {:induction false} ValueOfDecimal(n: nat)
    ensures forall c :: c in Decimal(n) ==> IsDigit(c)
    ensures Value(Decimal(n)) == n
    ensures n > 0 ==> Decimal(n)[0] != '0'
  {
    if n >= 10 {
      ValueOfDecimal(n / 10);
      var s := Decimal(n);
      assert s[..|s| - 1] == Decimal(n / 10);
    }
  }

  lemma DecimalStep(n: nat, d: nat)
    requires d < 10
    ensures n > 0 ==> Decimal(n * 10 + d) == Decimal(n) + [Digit(d)]
    ensures n == 0 ==> Decimal(n * 10 + d) == [Digit(d)]
  {
    assert (n * 10 + d) / 10 == n && (n * 10 + d) % 10 == d;
  }

  lemma {:induction false} DecimalOfValue(s: string)
    requires s != "" && s[0] != '0' && forall c :: c in s ==> IsDigit(c)
    ensures Value(s) > 0 && Decimal(Value(s)) == s
    decreases |s|
  {
    var init, last := s[..|s| - 1], s[|s| - 1];
    assert last in s;
    var d := DigitValue(last);
    if init == "" {
      DecimalStep(0, d);
      assert s == [last];
    } else {
      assert init[0] == s[0];
      DecimalOfValue(init);
      DecimalStep(Value(init), d);
      assert s == init + [last];
    }
  }

  /** backupRefCandidate */
  function RefName(base: string, collision: nat): string {
    if collision == 0 then base else base + "-" + Decimal(collision)
  }

  /** validBackupRef */
  predicate ValidBackupRef(ref: string, base: string) {
    ref == base
    || (|ref| > |base| + 1 && ref[..|base| + 1] == base + "-" && ref[|base| + 1] != '0'
        && forall c :: c in ref[|base| + 1..] ==> IsDigit(c))
  }

  /** The names accepted from the journal are exactly the names this operation can have given. */
  lemma ValidRefsAreNames(ref: string, base: string)
    ensures ValidBackupRef(ref, base) <==> exists n: nat :: ref == RefName(base, n)
  {
    if ValidBackupRef(ref, base) {
      if ref == base {
        assert ref == RefName(base, 0);
      } else {
        var suffix := ref[|base| + 1..];
        assert suffix[0] == ref[|base| + 1];
        DecimalOfValue(suffix);
        assert ref == base + "-" + suffix;
        assert ref == RefName(base, Value(suffix));
      }
    }
    if exists n: nat :: ref == RefName(base, n) {
      var n: nat :| ref == RefName(base, n);
      if n > 0 {
        ValueOfDecimal(n);
        assert ref[..|base| + 1] == base + "-" && ref[|base| + 1..] == Decimal(n);
        assert ref[|base| + 1] == Decimal(n)[0];
      }
    }
  }

  lemma NamesAreDistinct(base: string, m: nat, n: nat)
    requires RefName(base, m) == RefName(base, n)
    ensures m == n
  {
    ValueOfDecimal(m);
    ValueOfDecimal(n);
    if m > 0 && n > 0 {
      var a, b := RefName(base, m), RefName(base, n);
      assert a[|base| + 1..] == Decimal(m) && b[|base| + 1..] == Decimal(n);
    } else {
      assert |RefName(base, m)| == |RefName(base, n)|;
    }
  }

  /** The refs that hold a name from this collision number on. */
  ghost function Taken(refs: Refs, base: string, from: nat): set<string> {
    set name | name in refs && exists n: nat :: n >= from && name == RefName(base, n)
  }

  lemma NextNameIsFurther(refs: Refs, base: string, collision: nat)
    requires RefName(base, collision) in refs
    ensures Taken(refs, base, collision + 1) < Taken(refs, base, collision)
  {
    var name := RefName(base, collision);
    if name in Taken(refs, base, collision + 1) {
      var n: nat :| n >= collision + 1 && name == RefName(base, n);
      NamesAreDistinct(base, collision, n);
    }
    assert name in Taken(refs, base, collision);
  }

  // ---------------------------------------------------------------- the refs

  /** The backup refs of a repository. Other processes may create refs just before a command of ours. */
  class BackupRefs {
    var refs: Refs
    var races: seq<Refs>
    ghost var created: seq<(string, string)>  // the refs we created, with the name journalled at that time

    /** Nobody's ref is changed or removed. */
    twostate predicate Kept()
      reads this
    {
      forall name :: name in old(refs) ==> name in refs && refs[name] == old(refs)[name]
    }

    constructor (refs: Refs)
      ensures this.refs == refs && races == [] && created == []
    {
      this.refs, races, created := refs, [], [];
    }

    /** Nobody else creates refs, so every new one holds this commit. */
    twostate predicate OnlyHolding(oid: Commit)
      reads this
    {
      old(races) == [] ==> races == [] && forall name :: name in refs ==> name in old(refs) || refs[name] == oid
    }

    /** The name holds this commit, or is free and can be given to it, whoever else creates refs first. */
    predicate CanHold(name: string, oid: Commit)
      reads this
    {
      var there := if name in refs then refs else Raced();
      name in there ==> there[name] == oid
    }

    /** The refs once the next race is over. */
    function Raced(): Refs
      reads this
    {
      if races == [] then refs else races[0] + refs
    }

    /** `git update-ref name oid 000...`: creates the ref, or fails because it exists. */
    method Create(s: Session, name: string, oid: Commit) returns (r: Result<()>)
      modifies this, s`script, s`repo
      ensures SameLocal(old(s.repo), s.repo) && Follows(old(s.script), s.script)
      ensures Kept()
      ensures races == if old(races) == [] then [] else old(races)[1..]
      ensures (refs == old(Raced()) && created == old(created))
              || (name !in old(Raced()) && refs == old(Raced())[name := oid] && created == old(created) + [(name, s.row.backupRef)])
      ensures r.Ok? ==> name !in old(Raced()) && name in refs && refs[name] == oid
      ensures Calm(old(s.script)) ==> s.repo == old(s.repo) && !r.Crashed? && (r.Ok? <==> name !in old(Raced()))
    {
      if races != [] {
        refs := races[0] + refs;
        races := races[1..];
      }
      var t := s.Next();
      if t.fate == CrashBefore {
        return Crashed;
      }
      if t.fate == Refused || name in refs {
        return Err(Safe(t.code));
      }
      refs := refs[name := oid];
      created := created + [(name, s.row.backupRef)];
      r := if t.fate == CrashAfter then Crashed else if t.fate == LostReply then Err(Safe(t.code)) else Ok(());
    }
  }

  /** Every ref this run created was journalled under its name before. */
  ghost predicate JournalledFirst(created: seq<(string, string)>) {
    forall k :: 0 <= k < |created| ==> created[k].0 == created[k].1
  }

  /** Save a checkpoint that names the backup ref. */
  method SaveName(s: Session, name: string) returns (r: Result<()>)
    modifies s`script, s`repo, s`row, s`cp, s`stages
    ensures SameLocal(old(s.repo), s.repo) && Follows(old(s.script), s.script)
    ensures Calm(old(s.script)) ==> s.repo == old(s.repo) && (old(s.row).Active() ==> r.Ok?)
    ensures s.cp == old(s.cp).(backupRef := name, stage := StageBackingUp)
    ensures s.row == old(s.row) || s.row == Checkpointed(old(s.row), s.cp)
    ensures r.Ok? ==> s.row == Checkpointed(old(s.row), s.cp)
  {
    s.cp := s.cp.(backupRef := name);
    r := s.Save(StageBackingUp);
  }

  /** The first loop: the first name nobody has taken. */
  method FirstFreeName(s: Session, b: BackupRefs, base: string) returns (r: Result<nat>)
    modifies s`script, s`repo
    ensures SameLocal(old(s.repo), s.repo) && Follows(old(s.script), s.script)
    ensures Calm(old(s.script)) ==> s.repo == old(s.repo) && r.Ok?
    ensures r.Ok? ==> RefName(base, r.value) !in b.refs && forall n: nat :: n < r.value ==> RefName(base, n) in b.refs
  {
    var collision := 0;
    while true
      invariant SameLocal(old(s.repo), s.repo) && Follows(old(s.script), s.script)
      invariant Calm(old(s.script)) ==> s.repo == old(s.repo)
      invariant forall n: nat :: n < collision ==> RefName(base, n) in b.refs
      decreases Taken(b.refs, base, collision)
    {
      var seen := s.Inspect();
      if seen.IsFailure() {
        return seen.PropagateFailure();
      }
      if RefName(base, collision) !in b.refs {
        return Ok(collision);
      }
      NextNameIsFurther(b.refs, base, collision);
      collision := collision + 1;
    }
  }

  /** Journal the name, then create the ref; a failure is looked into, and is none if the ref exists by now. */
  method CreateBackup(s: Session, b: BackupRefs, candidate: string, snapshot: Commit) returns (r: Result<()>)
    requires JournalledFirst(b.created)
    modifies s`script, s`repo, s`row, s`cp, s`stages, b
    ensures SameLocal(old(s.repo), s.repo) && Follows(old(s.script), s.script)
    ensures Calm(old(s.script)) ==> s.repo == old(s.repo) && (old(s.row).Active() ==> r.Ok?)
    ensures b.Kept() && JournalledFirst(b.created)
    ensures |b.races| < |old(b.races)| || (b.races == old(b.races) && (b.refs == old(b.refs) || b.refs == old(b.refs)[candidate := snapshot]))
    ensures r.Ok? ==> candidate in b.refs
    ensures b.OnlyHolding(snapshot)
    ensures Calm(old(s.script)) && r.Ok? && candidate !in old(b.refs) ==> (b.refs[candidate] == snapshot <==> old(b.CanHold(candidate, snapshot)))
    ensures s.cp == old(s.cp).(backupRef := s.cp.backupRef, stage := s.cp.stage)
    ensures SameOperation(old(s.row), s.row)
  {
    var _ :- SaveName(s, candidate);
    r := b.Create(s, candidate, snapshot);
    if r.Err? {
      var _ :- s.Inspect();
      if candidate in b.refs {
        r := Ok(());
      }
    }
  }

  /** One round of the second loop. False: the name belongs to another commit, so the next one is tried. */
  method TryBackup(s: Session, b: BackupRefs, candidate: string, fixed: bool, snapshot: Commit) returns (r: Result<bool>)
    requires JournalledFirst(b.created)
    modifies s`script, s`repo, s`row, s`cp, s`stages, b
    ensures SameLocal(old(s.repo), s.repo) && Follows(old(s.script), s.script)
    ensures Calm(old(s.script)) ==> s.repo == old(s.repo) && (old(s.row).Active() && !fixed ==> r.Ok?)
    ensures Calm(old(s.script)) && old(s.row).Active() ==> (r == Ok(true) <==> old(b.CanHold(candidate, snapshot)))
    ensures b.OnlyHolding(snapshot)
    ensures b.Kept() && JournalledFirst(b.created)
    ensures |b.races| < |old(b.races)| || (b.races == old(b.races) && (b.refs == old(b.refs) || !(r.Ok? && !r.value)))
    ensures r.Ok? && r.value ==> candidate in b.refs && b.refs[candidate] == snapshot && s.row.backupRef == s.cp.backupRef == candidate
    ensures r.Ok? && !r.value ==> !fixed && candidate in b.refs && b.refs[candidate] != snapshot
    ensures s.cp == old(s.cp).(backupRef := s.cp.backupRef, stage := s.cp.stage)
    ensures SameOperation(old(s.row), s.row)
  {
    var _ :- s.Inspect();
    if candidate !in b.refs {
      var _ :- CreateBackup(s, b, candidate, snapshot);
    }
    if b.refs[candidate] != snapshot {
      return if fixed then Err(Safe(BackupMismatch)) else Ok(false);
    }
    var _ :- SaveName(s, candidate);
    r := Ok(true);
  }

  /** ensureBackup. It ends for every finite set of refs and races, and succeeds if it is undisturbed; what it
      returns is the journalled name of a ref that holds the snapshot; it never changes a ref that exists; and
      it creates no ref whose name is not in the journal yet. */
  method EnsureBackup(s: Session, b: BackupRefs, base: string, journalled: string, snapshot: Commit) returns (r: Result<string>)
    requires JournalledFirst(b.created)
    modifies s`script, s`repo, s`row, s`cp, s`stages, b
    ensures SameLocal(old(s.repo), s.repo) && Follows(old(s.script), s.script)
    ensures Calm(old(s.script)) ==> s.repo == old(s.repo) && (old(s.row).Active() && journalled == "" ==> r.Ok?)
    ensures Calm(old(s.script)) && old(s.row).Active() && journalled != "" ==>
              (r.Ok? <==> ValidBackupRef(journalled, base) && old(b.CanHold(journalled, snapshot)))
    ensures b.Kept() && JournalledFirst(b.created) && b.OnlyHolding(snapshot)
    ensures r.Ok? ==> r.value in b.refs && b.refs[r.value] == snapshot && s.row.backupRef == r.value && s.cp.backupRef == r.value
    ensures r.Ok? ==> ValidBackupRef(r.value, base) && (journalled != "" ==> r.value == journalled)
    ensures s.cp == old(s.cp).(backupRef := s.cp.backupRef, stage := s.cp.stage)
    ensures SameOperation(old(s.row), s.row)
  {
    var collision := 0;
    if journalled != "" {
      if !ValidBackupRef(journalled, base) {
        return Err(Safe(BackupMismatch));
      }
    } else {
      collision :- FirstFreeName(s, b, base);
    }
    var candidate := if journalled != "" then journalled else RefName(base, collision);
    while true
      invariant SameLocal(old(s.repo), s.repo) && b.Kept() && JournalledFirst(b.created)
      invariant candidate == if journalled != "" then journalled else RefName(base, collision)
      invariant s.cp == old(s.cp).(backupRef := s.cp.backupRef, stage := s.cp.stage)
      invariant Follows(old(s.script), s.script) && SameOperation(old(s.row), s.row)
      invariant Calm(old(s.script)) ==> s.repo == old(s.repo)
      invariant b.OnlyHolding(snapshot) && (journalled != "" ==> b.refs == old(b.refs) && b.races == old(b.races) && s.row == old(s.row))
      decreases |b.races|, Taken(b.refs, base, collision)
    {
      ValidRefsAreNames(candidate, base);
      var done :- TryBackup(s, b, candidate, journalled != "", snapshot);
      if done {
        return Ok(candidate);
      }
      NextNameIsFurther(b.refs, base, collision);
      collision := collision + 1;
      candidate := RefName(base, collision);
    }
  }

  // ---------------------------------------------------------------- path lists

  /** In the order of sort.Strings, equal ones side by side. */
  predicate Ascending(values: seq<string>) {
    forall i, j :: 0 <= i < j < |values| ==> !StringLess(values[j], values[i])
  }

  predicate StrictlyAscending(values: seq<string>) {
    forall i, j :: 0 <= i < j < |values| ==> StringLess(values[i], values[j])
  }

  function Inserted(sorted: seq<string>, value: string): seq<string> {
    if sorted == [] then [value]
    else if !StringLess(value, sorted[|sorted| - 1]) then sorted + [value]
    else Inserted(sorted[..|sorted| - 1], value) + [sorted[|sorted| - 1]]
  }

  /** sort.Strings */
  function Sorted(values: seq<string>): seq<string> {
    if values == [] then [] else Inserted(Sorted(values[..|values| - 1]), values[|values| - 1])
  }

  lemma {:induction false} InsertedIsAscending(sorted: seq<string>, value: string)
    requires Ascending(sorted)
    ensures Ascending(Inserted(sorted, value))
    ensures forall x :: x in Inserted(sorted, value) <==> x in sorted || x == value
  {
    if sorted != [] {
      var init, last := sorted[..|sorted| - 1], sorted[|sorted| - 1];
      if StringLess(value, last) {
        InsertedIsAscending(init, value);
        var shorter := Inserted(init, value);
        forall i | 0 <= i < |shorter|
          ensures !StringLess(last, shorter[i])
        {
          assert shorter[i] in shorter;
          StringLessIsOrder(value, last, value);
        }
      } else {
        forall i | 0 <= i < |sorted|
          ensures !StringLess(value, sorted[i])
        {
          StringLessIsOrder(sorted[i], last, value);
          StringLessIsOrder(sorted[i], sorted[i], sorted[i]);
        }
      }
    }
  }

  lemma {:induction false} SortedIsAscending(values: seq<string>)
    ensures Ascending(Sorted(values))
    ensures forall x :: x in Sorted(values) <==> x in values
  {
    if values != [] {
      SortedIsAscending(values[..|values| - 1]);
      InsertedIsAscending(Sorted(values[..|values| - 1]), values[|values| - 1]);
    }
  }

  /** What follows all values so far and is not the last of them comes after each of them. */
  lemma ComesAfter(kept: seq<string>, value: string)
    requires StrictlyAscending(kept) && kept != [] && kept[|kept| - 1] != value
    requires forall x :: x in kept ==> !StringLess(value, x)
    ensures StrictlyAscending(kept + [value])
  {
    forall i | 0 <= i < |kept|
      ensures StringLess(kept[i], value)
    {
      assert kept[i] in kept && kept[|kept| - 1] in kept;
      StringLessIsTotal(kept[i], value);
    }
  }

  /** The loop of sortedUnique: compacting an ascending list in place keeps its elements, each once, in order. */
  method Compact(values: array<string>) returns (kept: nat)
    requires Ascending(values[..])
    modifies values
    ensures kept <= values.Length && StrictlyAscending(values[..kept])
    ensures forall x :: x in values[..kept] <==> x in old(values[..])
  {
    kept := 0;
    ghost var all := values[..];
    for read := 0 to values.Length
      invariant kept <= read
      invariant StrictlyAscending(values[..kept])
      invariant forall i :: read <= i < values.Length ==> values[i] == all[i]
      invariant forall x :: x in values[..kept] <==> x in all[..read]
      invariant kept == 0 ==> read == 0
    {
      var value := values[read];
      ghost var before := values[..kept];
      assert all[..read + 1] == all[..read] + [value];
      if kept == 0 || values[kept - 1] != value {
        if kept > 0 {
          ComesAfter(before, value);
        }
        values[kept] := value;
        kept := kept + 1;
        assert values[..kept] == before + [value];
      } else {
        assert value in before;
      }
    }
    assert all[..values.Length] == all;
  }

  /** sortedUnique: the same elements, each once, in order; so the result depends on nothing else. */
  method SortedUnique(values: seq<string>) returns (result: seq<string>)
    ensures StrictlyAscending(result)
    ensures forall x :: x in result <==> x in values
  {
    SortedIsAscending(values);
    var sorted := Sorted(values);
    var buffer := new string[|sorted|](i requires 0 <= i < |sorted| => sorted[i]);
    assert buffer[..] == sorted;
    var kept := Compact(buffer);
    result := buffer[..kept];
  }

  lemma WithoutTheLast(a: seq<string>)
    requires StrictlyAscending(a) && a != []
    ensures forall z :: z in a[..|a| - 1] <==> z in a && z != a[|a| - 1]
  {
    var init, last := a[..|a| - 1], a[|a| - 1];
    assert a == init + [last];
    StringLessIsOrder(last, last, last);
    assert forall i :: 0 <= i < |init| ==> init[i] == a[i] && StringLess(a[i], last);
  }

  /** Two lists with the same elements have the same sorted form. */
  lemma {:induction false} SortedFormIsUnique(a: seq<string>, b: seq<string>)
    requires StrictlyAscending(a) && StrictlyAscending(b) && forall x :: x in a <==> x in b
    ensures a == b
    decreases |a|
  {
    assert (a != [] ==> a[0] in a) && (b != [] ==> b[0] in b);
    if a != [] && b != [] {
      var x, y := a[|a| - 1], b[|b| - 1];
      assert x in a && y in b;
      assert x == y by {
        var i :| 0 <= i < |b| && b[i] == x;
        var j :| 0 <= j < |a| && a[j] == y;
        StringLessIsOrder(x, y, x);
      }
      WithoutTheLast(a);
      WithoutTheLast(b);
      var one, other := a[..|a| - 1], b[..|b| - 1];
      forall z | z in one
        ensures z in other
      {
        assert z in a && z in b;
      }
      forall z | z in other
        ensures z in one
      {
        assert z in a && z in b;
      }
      SortedFormIsUnique(one, other);
    }
  }
}
