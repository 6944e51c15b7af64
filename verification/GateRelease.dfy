/** Which conflict gates a new configuration releases. */
module GateRelease {
  import opened Basics
  import opened Configuration
  import opened Coordinator
  import opened Journal

  /** conflictPathResolution */
  datatype Resolution = Resolution(path: Path, info: FileIdentity, stable: bool, preferred: bool)

  /** resolveConflictPathIdentity */
  function Resolve(fs: FileSystem, path: Path): Resolution {
    match fs(path)
    case None => Resolution(path, None, false, false)
    case Some(d) => Resolution(d.canonical, Some(d.identity), true, false)
  }

  /** The place a status row recorded, whether or not it is there. */
  function Recorded(fs: FileSystem, path: Path): Resolution {
    Resolve(fs, path).(path := path, stable := true, preferred := true)
  }

  /** sameConflictIdentity */
  predicate SameConflict(left: Resolution, right: Resolution) {
    if left.info.Some? && right.info.Some? then left.info == right.info
    else left.stable && right.stable && left.path == right.path
  }

  /** A canonical path leads to itself. */
  ghost predicate Consistent(fs: FileSystem) {
    forall p :: fs(p).Some? ==>
                  var canonical := fs(p).value.canonical;
                  canonical != "" && fs(canonical).Some? && fs(canonical).value.identity == fs(p).value.identity
  }

  /** The call of clearConflictForIdentity for this resolution removes the gate of a path with this entry. */
  predicate Clears(c: Resolution, path: Path, entry: FileIdentity) {
    c.path != "" && Matches(path, entry, Update.ClearIdentity(c.path, c.info))
  }

  // ---------------------------------------------------------------- what is to be released

  /** A change of configuration; `recorded` holds the repository paths of the status rows by base name. */
  datatype Reconfiguration = Reconfiguration(current: seq<Base>, next: seq<Base>, recorded: map<string, Path>, fs: FileSystem) {
    predicate Vouched(base: Base) {
      base.name in recorded && recorded[base.name] != "" && base.path != "" && Configured(base.git)
    }

    /** Where a configured path leads: the place on record for the last connected base there, or what it resolves to. */
    function IdentityAmong(bases: seq<Base>, path: Path): (c: Resolution)
      ensures c == Resolve(fs, path) || (c == Recorded(fs, c.path) && c.path != "")
      ensures (forall b :: b in bases && Vouched(b) ==> b.path != path) ==> c == Resolve(fs, path)
      decreases |bases|
    {
      if bases == [] then Resolve(fs, path)
      else
        var last := bases[|bases| - 1];
        if Vouched(last) && last.path == path then Recorded(fs, recorded[last.name])
        else IdentityAmong(bases[..|bases| - 1], path)
    }

    function Identity(path: Path): Resolution {
      IdentityAmong(current, path)
    }

    /** A kept path that cannot be placed, or leads elsewhere, may stand for any directory. */
    predicate Known(base: Base) {
      base.path != "" ==> Identity(base.path).stable && Identity(base.path).path == base.path
    }

    predicate Retained(bases: seq<Base>, c: Resolution) {
      exists b :: b in bases && b.path != "" && SameConflict(Identity(b.path), c)
    }

    /** The base lies in a directory that no new base lies in. */
    predicate Removed(base: Base) {
      base.path != "" && Identity(base.path).stable && !Retained(next, Identity(base.path))
    }

    /** The places of these bases. */
    function Places(bases: seq<Base>): seq<Resolution>
      decreases |bases|
    {
      if bases == [] then []
      else
        var last := bases[|bases| - 1];
        Places(bases[..|bases| - 1]) + if last.path == "" then [] else [Identity(last.path)]
    }

    /** The places of those of these bases that are removed. */
    function RemovedPlaces(bases: seq<Base>): seq<Resolution>
      decreases |bases|
    {
      if bases == [] then []
      else
        var last := bases[|bases| - 1];
        RemovedPlaces(bases[..|bases| - 1]) + if Removed(last) then [Identity(last.path)] else []
    }

    predicate Releases(path: Path, entry: FileIdentity) {
      (forall b :: b in next ==> Known(b)) && exists b :: b in current && Removed(b) && Clears(Identity(b.path), path, entry)
    }
  }

  /** A base with a Git connection whose status row says where its repository is. */
  ghost predicate OnRecord(r: Reconfiguration, i: int, path: Path) {
    && 0 <= i < |r.current| && path != "" && r.current[i].path == path && Configured(r.current[i].git)
    && r.current[i].name in r.recorded && r.recorded[r.current[i].name] != ""
  }

  /** A configured path leads to the place on record, which need not exist, of the last such base there. */
  lemma RecordedIdentity(r: Reconfiguration, path: Path, i: nat)
    requires OnRecord(r, i, path) && forall j :: i < j ==> !OnRecord(r, j, path)
    ensures var place := r.recorded[r.current[i].name];
            r.Identity(path) == Resolution(place, if r.fs(place).Some? then Some(r.fs(place).value.identity) else None, true, true)
  {
    LastOnRecord(r, path, i, |r.current|);
    assert r.current[..|r.current|] == r.current;
  }

  /** Without one it leads to what it resolves to, and if that is nothing, nowhere for certain. */
  lemma ResolvedIdentity(r: Reconfiguration, path: Path)
    requires forall i :: !OnRecord(r, i, path)
    ensures r.Identity(path) == if r.fs(path).Some? then Resolution(r.fs(path).value.canonical, Some(r.fs(path).value.identity), true, false)
                                else Resolution(path, None, false, false)
  {
    forall b | b in r.current && r.Vouched(b)
      ensures b.path != path
    {
      var k :| 0 <= k < |r.current| && r.current[k] == b;
      assert !OnRecord(r, k, path);
    }
  }

  lemma {:induction false} LastOnRecord(r: Reconfiguration, path: Path, i: nat, n: nat)
    requires i < n <= |r.current| && OnRecord(r, i, path) && forall j :: i < j ==> !OnRecord(r, j, path)
    ensures r.IdentityAmong(r.current[..n], path) == Recorded(r.fs, r.recorded[r.current[i].name])
    decreases n
  {
    assert r.current[..n][..n - 1] == r.current[..n - 1];
    if i < n - 1 {
      LastOnRecord(r, path, i, n - 1);
      assert !OnRecord(r, n - 1, path);
    }
  }

  /** No gate on a directory that a new base lies in is released, nor one on its path whose directory was unknown. */
  lemma KeptDirectoryStaysGated(r: Reconfiguration, base: Base, path: Path, entry: FileIdentity)
    requires base in r.next && base.path != ""
    requires if entry.Some? then r.fs(base.path).Some? && entry.value == r.fs(base.path).value.identity else path == base.path
    ensures !r.Releases(path, entry)
  {
    if forall b :: b in r.next ==> r.Known(b) {
      forall b | b in r.current && b.path != "" && r.Identity(b.path).stable && Clears(r.Identity(b.path), path, entry)
        ensures r.Retained(r.next, r.Identity(b.path))
      {
        assert r.Known(base);
        assert SameConflict(r.Identity(base.path), r.Identity(b.path));
      }
    }
  }

  /** In terms of the file system alone, where no status row is involved: nothing is released while a kept path is
      broken or an alias; otherwise exactly the gates on directories that a base lay in and none lies in now. */
  lemma ReleaseIsExact(r: Reconfiguration, path: Path, entry: FileIdentity)
    requires r.recorded == map[] && Consistent(r.fs)
    ensures r.Releases(path, entry)
            <==> && (forall n :: n in r.next && n.path != "" ==> r.fs(n.path).Some? && r.fs(n.path).value.canonical == n.path)
                 && (exists b :: b in r.current && b.path != "" && r.fs(b.path).Some? && entry == Some(r.fs(b.path).value.identity))
                 && forall n :: n in r.next && n.path != "" ==> entry != Some(r.fs(n.path).value.identity)
  {
    assert forall p :: r.Identity(p) == Resolve(r.fs, p);
    if forall b :: b in r.next ==> r.Known(b) {
      forall b | b in r.current && b.path != "" && r.fs(b.path).Some? && entry == Some(r.fs(b.path).value.identity)
        ensures r.Retained(r.next, r.Identity(b.path))
                <==> exists n :: n in r.next && n.path != "" && entry == Some(r.fs(n.path).value.identity)
      {
        assert forall n :: n in r.next && n.path != "" ==>
            (SameConflict(r.Identity(n.path), r.Identity(b.path)) <==> entry == Some(r.fs(n.path).value.identity));
      }
    }
  }

  /** Both clear the same gates. */
  predicate SameGates(a: Resolution, b: Resolution) {
    a.path != "" && b.path != "" && a.info == b.info && (a.info.None? ==> a.path == b.path)
  }

  /** In a consistent file system the path of a place decides its identity, so equal places clear the same gates. */
  lemma SamePlacesClearTheSame(r: Reconfiguration, a: Path, b: Path)
    requires Consistent(r.fs) && r.Identity(a).stable && r.Identity(b).stable
    requires SameConflict(r.Identity(a), r.Identity(b))
    ensures SameGates(r.Identity(a), r.Identity(b))
  {
    var x, y := r.Identity(a), r.Identity(b);
    assert x.info == Resolve(r.fs, x.path).info && y.info == Resolve(r.fs, y.path).info;
  }

  // ---------------------------------------------------------------- captureConflictReconciliationSnapshot

  /** The identities found so far. */
  ghost predicate Memo(r: Reconfiguration, bases: seq<Base>, identities: map<Path, Resolution>) {
    && (forall p :: p in identities ==> identities[p] == r.IdentityAmong(bases, p))
    && forall b :: b in bases && r.Vouched(b) ==> b.path in identities
  }

  /** The identities found so far, one base further on. */
  function OneMore(r: Reconfiguration, base: Base, identities: map<Path, Resolution>): map<Path, Resolution> {
    if r.Vouched(base) then identities[base.path := Recorded(r.fs, r.recorded[base.name])] else identities
  }

  lemma OneMoreIsKnown(r: Reconfiguration, bases: seq<Base>, base: Base, identities: map<Path, Resolution>)
    requires Memo(r, bases, identities)
    ensures Memo(r, bases + [base], OneMore(r, base, identities))
  {
    var after := OneMore(r, base, identities);
    assert (bases + [base])[..|bases|] == bases;
    forall p | p in after
      ensures after[p] == r.IdentityAmong(bases + [base], p)
    {
      if !(r.Vouched(base) && base.path == p) {
        assert p in identities;
      }
    }
  }

  method RecordedIdentities(r: Reconfiguration) returns (identities: map<Path, Resolution>)
    ensures Memo(r, r.current, identities)
  {
    identities := map[];
    for k := 0 to |r.current|
      invariant Memo(r, r.current[..k], identities)
    {
      var base := r.current[k];
      OneMoreIsKnown(r, r.current[..k], base, identities);
      assert r.current[..k + 1] == r.current[..k] + [base];
      if r.Vouched(base) {
        identities := identities[base.path := Recorded(r.fs, r.recorded[base.name])];
      }
    }
    assert r.current[..|r.current|] == r.current;
  }

  method ResolveIdentity(r: Reconfiguration, path: Path, identities: map<Path, Resolution>)
    returns (c: Resolution, after: map<Path, Resolution>)
    requires Memo(r, r.current, identities)
    ensures c == r.Identity(path) && Memo(r, r.current, after)
  {
    if path in identities {
      return identities[path], identities;
    }
    c := Resolve(r.fs, path);
    after := identities[path := c];
  }

  /** conflictIdentityIndex: the first entry for the same directory. */
  method IdentityIndex(entries: seq<Resolution>, target: Resolution) returns (index: int)
    ensures -1 <= index < |entries| && (index >= 0 ==> SameConflict(entries[index], target))
    ensures forall i :: 0 <= i < (if index >= 0 then index else |entries|) ==> !SameConflict(entries[i], target)
  {
    for i := 0 to |entries|
      invariant forall k :: 0 <= k < i ==> !SameConflict(entries[k], target)
    {
      if SameConflict(entries[i], target) {
        return i;
      }
    }
    index := -1;
  }

  lemma {:induction false} PlacesAreIdentities(r: Reconfiguration, bases: seq<Base>, c: Resolution)
    ensures c in r.Places(bases) <==> exists b :: b in bases && b.path != "" && c == r.Identity(b.path)
    decreases |bases|
  {
    if bases != [] {
      var rest, last := bases[..|bases| - 1], bases[|bases| - 1];
      PlacesAreIdentities(r, rest, c);
      assert bases == rest + [last];
    }
  }

  /** The places of the new bases, and whether one of them is uncertain. */
  method RetainedPlaces(r: Reconfiguration, identities: map<Path, Resolution>)
    returns (retained: seq<Resolution>, unknown: bool, after: map<Path, Resolution>)
    requires Memo(r, r.current, identities)
    ensures Memo(r, r.current, after) && retained == r.Places(r.next)
    ensures !unknown <==> forall b :: b in r.next ==> r.Known(b)
  {
    retained, unknown, after := [], false, identities;
    for k := 0 to |r.next|
      invariant Memo(r, r.current, after) && retained == r.Places(r.next[..k])
      invariant !unknown <==> forall i :: 0 <= i < k ==> r.Known(r.next[i])
    {
      var base := r.next[k];
      assert r.next[..k + 1][..k] == r.next[..k];
      if base.path != "" {
        var c;
        c, after := ResolveIdentity(r, base.path, after);
        retained := retained + [c];
        unknown := unknown || !c.stable || base.path != c.path;
      }
    }
    assert r.next[..|r.next|] == r.next;
  }

  /** The place of a kept base, by the index search of the source. */
  method IsRetained(r: Reconfiguration, retained: seq<Resolution>, c: Resolution) returns (kept: bool)
    requires retained == r.Places(r.next)
    ensures kept == r.Retained(r.next, c)
  {
    var index := IdentityIndex(retained, c);
    kept := index >= 0;
    forall x | x in retained
      ensures exists b :: b in r.next && b.path != "" && x == r.Identity(b.path)
    {
      PlacesAreIdentities(r, r.next, x);
    }
    forall b | b in r.next && b.path != ""
      ensures r.Identity(b.path) in retained
    {
      PlacesAreIdentities(r, r.next, r.Identity(b.path));
    }
    if kept {
      assert retained[index] in retained;
    }
  }

  /** Some entry clears the gate. */
  ghost predicate ClearedBy(entries: seq<Resolution>, path: Path, entry: FileIdentity) {
    exists c :: c in entries && Clears(c, path, entry)
  }

  lemma {:induction false} RemovedPlacesAreIdentities(r: Reconfiguration, bases: seq<Base>, c: Resolution)
    ensures c in r.RemovedPlaces(bases) <==> exists b :: b in bases && r.Removed(b) && c == r.Identity(b.path)
    decreases |bases|
  {
    if bases != [] {
      var rest, last := bases[..|bases| - 1], bases[|bases| - 1];
      RemovedPlacesAreIdentities(r, rest, c);
      assert bases == rest + [last];
    }
  }

  lemma ReleasesMeansClears(r: Reconfiguration, path: Path, entry: FileIdentity)
    requires forall b :: b in r.next ==> r.Known(b)
    ensures r.Releases(path, entry) <==> ClearedBy(r.RemovedPlaces(r.current), path, entry)
  {
    if r.Releases(path, entry) {
      var b :| b in r.current && r.Removed(b) && Clears(r.Identity(b.path), path, entry);
      RemovedPlacesAreIdentities(r, r.current, r.Identity(b.path));
    }
    if ClearedBy(r.RemovedPlaces(r.current), path, entry) {
      var c :| c in r.RemovedPlaces(r.current) && Clears(c, path, entry);
      RemovedPlacesAreIdentities(r, r.current, c);
    }
  }

  /** Equal places clear the same gates. */
  ghost predicate Coherent(places: seq<Resolution>) {
    forall a, b :: a in places && b in places && SameConflict(a, b) ==> SameGates(a, b)
  }

  lemma ConsistentIsCoherent(r: Reconfiguration)
    requires Consistent(r.fs)
    ensures Coherent(r.RemovedPlaces(r.current))
  {
    var places := r.RemovedPlaces(r.current);
    forall a, b | a in places && b in places && SameConflict(a, b)
      ensures SameGates(a, b)
    {
      RemovedPlacesAreIdentities(r, r.current, a);
      RemovedPlacesAreIdentities(r, r.current, b);
      var x :| x in r.current && r.Removed(x) && a == r.Identity(x.path);
      var y :| y in r.current && r.Removed(y) && b == r.Identity(y.path);
      SamePlacesClearTheSame(r, x.path, y.path);
    }
  }

  ghost predicate Covered(entries: seq<Resolution>, x: Resolution) {
    exists c :: c in entries && SameGates(c, x)
  }

  /** The entries are some of the places, and clear what all of them do. */
  ghost predicate StandFor(entries: seq<Resolution>, places: seq<Resolution>, coherent: bool) {
    && (forall c :: c in entries ==> c in places)
    && (coherent ==> forall x {:trigger Covered(entries, x)} :: x in places ==> Covered(entries, x))
  }

  lemma StaysCovered(entries: seq<Resolution>, after: seq<Resolution>, c: Resolution, places: seq<Resolution>, x: Resolution)
    requires StandFor(entries, places, true) && Coherent(places + [c]) && c.stable && x in places + [c]
    requires if exists e :: e in entries && SameConflict(e, c)
             then exists d :: 0 <= d < |entries| == |after| && SameConflict(entries[d], c) && (after == entries || after == entries[d := c])
             else after == entries + [c]
    ensures Covered(after, x)
  {
    assert c in places + [c] && SameConflict(c, c);
    if after == entries + [c] {
      if x in places {
        assert Covered(entries, x);
        var e :| e in entries && SameGates(e, x);
        assert e in after;
      } else {
        assert c in after;
      }
    } else {
      var d :| 0 <= d < |entries| && SameConflict(entries[d], c) && (after == entries || after == entries[d := c]);
      var listed := entries[d];
      assert listed in entries && listed in places + [c] && SameGates(listed, c);
      assert after[d] in after && (after[d] == c || after[d] == listed);
      if x in places {
        assert Covered(entries, x);
        var e :| e in entries && SameGates(e, x);
        var i :| 0 <= i < |entries| && entries[i] == e;
        assert after[i] in after;
        assert after[i] == e || (after[i] == c && e == listed);
      }
    }
  }

  /** One more removed base: its place is new, or the one already listed, which gives way to a recorded one. */
  method AddEntry(c: Resolution, entries: seq<Resolution>, ghost places: seq<Resolution>, ghost coherent: bool)
    returns (after: seq<Resolution>)
    requires StandFor(entries, places, coherent) && (coherent ==> Coherent(places + [c])) && c.stable
    ensures StandFor(after, places + [c], coherent)
    ensures c.preferred ==> exists e :: e in after && e.preferred && SameConflict(e, c)
  {
    var duplicate := IdentityIndex(entries, c);
    assert c in places + [c] && SameConflict(c, c);
    after := entries;
    if duplicate < 0 {
      after := entries + [c];
    } else {
      ghost var listed := entries[duplicate];
      if c.preferred && !entries[duplicate].preferred {
        after := entries[duplicate := c];
      }
      assert after[duplicate] in after && listed in entries;
      assert forall i :: 0 <= i < |entries| && i != duplicate ==> after[i] == entries[i];
    }
    if coherent {
      forall x | x in places + [c]
        ensures Covered(after, x)
      {
        StaysCovered(entries, after, c, places, x);
      }
    }
  }

  /** The entries clear only gates that are to be released, and in a consistent file system all of them. */
  ghost predicate CapturedBy(r: Reconfiguration, entries: seq<Resolution>) {
    && (forall p, e :: ClearedBy(entries, p, e) ==> r.Releases(p, e))
    && (Consistent(r.fs) ==> forall p, e :: r.Releases(p, e) ==> ClearedBy(entries, p, e))
  }

  /** One base of the old configuration. */
  method Consider(r: Reconfiguration, k: nat, retained: seq<Resolution>, identities: map<Path, Resolution>, entries: seq<Resolution>,
                  ghost coherent: bool)
    returns (after: seq<Resolution>, found: map<Path, Resolution>)
    requires k < |r.current| && retained == r.Places(r.next) && Memo(r, r.current, identities)
    requires coherent ==> Coherent(r.RemovedPlaces(r.current))
    requires StandFor(entries, r.RemovedPlaces(r.current[..k]), coherent)
    ensures StandFor(after, r.RemovedPlaces(r.current[..k + 1]), coherent) && Memo(r, r.current, found)
  {
    after, found := entries, identities;
    var base := r.current[k];
    assert r.current[..k + 1][..k] == r.current[..k];
    if base.path == "" {
      return;
    }
    var c;
    c, found := ResolveIdentity(r, base.path, identities);
    var kept := IsRetained(r, retained, c);
    if c.stable && !kept {
      RemovedSoFar(r, k + 1);
      after := AddEntry(c, entries, r.RemovedPlaces(r.current[..k]), coherent);
    }
  }

  /** captureConflictReconciliationSnapshot */
  method Capture(r: Reconfiguration) returns (entries: seq<Resolution>)
    ensures CapturedBy(r, entries)
  {
    var identities := RecordedIdentities(r);
    var retained, unknown;
    retained, unknown, identities := RetainedPlaces(r, identities);
    entries := [];
    if unknown {
      return;
    }
    ghost var coherent := Coherent(r.RemovedPlaces(r.current));
    for k := 0 to |r.current|
      invariant Memo(r, r.current, identities)
      invariant StandFor(entries, r.RemovedPlaces(r.current[..k]), coherent)
    {
      entries, identities := Consider(r, k, retained, identities, entries, coherent);
    }
    assert r.current[..|r.current|] == r.current;
    EntriesDecide(r, entries);
  }

  lemma {:induction false} RemovedSoFar(r: Reconfiguration, k: nat)
    requires k <= |r.current|
    ensures forall c :: c in r.RemovedPlaces(r.current[..k]) ==> c in r.RemovedPlaces(r.current)
    decreases |r.current| - k
  {
    if k == |r.current| {
      assert r.current[..k] == r.current;
    } else {
      RemovedSoFar(r, k + 1);
      assert r.current[..k + 1][..k] == r.current[..k];
    }
  }

  lemma EntriesDecide(r: Reconfiguration, entries: seq<Resolution>)
    requires forall b :: b in r.next ==> r.Known(b)
    requires StandFor(entries, r.RemovedPlaces(r.current), Coherent(r.RemovedPlaces(r.current)))
    ensures CapturedBy(r, entries)
  {
    if Consistent(r.fs) {
      ConsistentIsCoherent(r);
    }
    forall p, e
      ensures ClearedBy(entries, p, e) ==> r.Releases(p, e)
      ensures Consistent(r.fs) && r.Releases(p, e) ==> ClearedBy(entries, p, e)
    {
      ReleasesMeansClears(r, p, e);
      EntriesClear(entries, r.RemovedPlaces(r.current), Consistent(r.fs), p, e);
    }
  }

  lemma EntriesClear(entries: seq<Resolution>, places: seq<Resolution>, coherent: bool, path: Path, entry: FileIdentity)
    requires StandFor(entries, places, coherent)
    ensures ClearedBy(entries, path, entry) ==> ClearedBy(places, path, entry)
    ensures coherent && ClearedBy(places, path, entry) ==> ClearedBy(entries, path, entry)
  {
    if coherent && ClearedBy(places, path, entry) {
      var x :| x in places && Clears(x, path, entry);
      assert Covered(entries, x);
      var c :| c in entries && SameGates(c, x);
      assert Clears(c, path, entry);
    }
  }

  // ---------------------------------------------------------------- publishing the configuration

  /** The update changes the gate of this path. */
  predicate Touches(u: Update, path: Path, entry: FileIdentity) {
    match u
    case Pend(p, _) => p == path
    case Clear(p) => p == path
    case ClearIdentity(_, _) => Matches(path, entry, u)
  }

  function UpdatedBy(s: ConflictPathSet, updates: seq<Update>): ConflictPathSet
    decreases |updates|
  {
    if updates == [] then s else Updated(UpdatedBy(s, updates[..|updates| - 1]), updates[|updates| - 1])
  }

  lemma {:induction false} FoldOnwards(history: seq<Update>, updates: seq<Update>)
    ensures Fold(history + updates) == UpdatedBy(Fold(history), updates)
    decreases |updates|
  {
    if updates == [] {
      assert history + updates == history;
    } else {
      var all := history + updates;
      assert all[..|all| - 1] == history + updates[..|updates| - 1];
      FoldOnwards(history, updates[..|updates| - 1]);
    }
  }

  lemma {:induction false} UntouchedStays(s: ConflictPathSet, updates: seq<Update>, path: Path)
    requires path in s && forall u :: u in updates ==> !Touches(u, path, s[path])
    ensures path in UpdatedBy(s, updates) && UpdatedBy(s, updates)[path] == s[path]
    decreases |updates|
  {
    if updates != [] {
      UntouchedStays(s, updates[..|updates| - 1], path);
      assert updates[|updates| - 1] in updates;
    }
  }

  /** A gate that is not set again is as it was or gone. */
  lemma {:induction false} ClearedStaysAway(s: ConflictPathSet, updates: seq<Update>, path: Path)
    requires path in s && forall u :: u in updates ==> !(u.Pend? && u.path == path)
    ensures path in UpdatedBy(s, updates) ==> UpdatedBy(s, updates)[path] == s[path]
    ensures (exists u :: u in updates && Touches(u, path, s[path])) ==> path !in UpdatedBy(s, updates)
    decreases |updates|
  {
    if updates != [] {
      ClearedStaysAway(s, updates[..|updates| - 1], path);
      assert updates == updates[..|updates| - 1] + [updates[|updates| - 1]];
      assert updates[|updates| - 1] in updates;
    }
  }

  /** The updates in the order of their swaps: 0 made those that release gates, others made the rest. */
  ghost predicate Carries(trace: seq<(nat, Update)>, entries: seq<Resolution>) {
    && (forall t :: t in trace && t.0 == 0 ==> exists c :: c in entries && c.path != "" && t.1 == Update.ClearIdentity(c.path, c.info))
    && forall c :: c in entries && c.path != "" ==> (0, Update.ClearIdentity(c.path, c.info)) in trace
  }

  /** Whatever others do meanwhile: a gate that the new configuration does not release, and that they leave alone,
      stays; one that it releases, and that they do not set again, is gone. */
  ghost predicate GatesFollow(r: Reconfiguration, before: ConflictPathSet, others: seq<seq<Update>>, after: ConflictPathSet) {
    && (forall p :: p in before && !r.Releases(p, before[p]) && (forall u :: Offered(others, u) ==> !Touches(u, p, before[p])) ==>
          p in after && after[p] == before[p])
    && (Consistent(r.fs) ==>
          forall p :: p in before && r.Releases(p, before[p]) && (forall u :: Offered(others, u) ==> !(u.Pend? && u.path == p)) ==>
            p !in after)
  }

  ghost predicate OthersOffered(trace: seq<(nat, Update)>, others: seq<seq<Update>>) {
    forall t :: t in trace && t.0 != 0 ==> Offered(others, t.1)
  }

  lemma UpdatesAreMade(trace: seq<(nat, Update)>, u: Update)
    ensures u in Updates(trace) <==> exists t :: t in trace && t.1 == u
  {
    if u in Updates(trace) {
      var i :| 0 <= i < |trace| && Updates(trace)[i] == u;
      assert trace[i] in trace;
    }
    if t :| t in trace && t.1 == u {
      var i :| 0 <= i < |trace| && trace[i] == t;
      assert Updates(trace)[i] == u;
    }
  }

  lemma UnreleasedStays(s: ConflictPathSet, trace: seq<(nat, Update)>, entries: seq<Resolution>, path: Path)
    requires Carries(trace, entries) && path in s && !ClearedBy(entries, path, s[path])
    requires forall t :: t in trace && t.0 != 0 ==> !Touches(t.1, path, s[path])
    ensures path in UpdatedBy(s, Updates(trace)) && UpdatedBy(s, Updates(trace))[path] == s[path]
  {
    forall u | u in Updates(trace)
      ensures !Touches(u, path, s[path])
    {
      UpdatesAreMade(trace, u);
      var t :| t in trace && t.1 == u;
      if t.0 == 0 {
        var c :| c in entries && c.path != "" && u == Update.ClearIdentity(c.path, c.info);
        assert !Clears(c, path, s[path]);
      }
    }
    UntouchedStays(s, Updates(trace), path);
  }

  lemma ReleasedGoes(s: ConflictPathSet, trace: seq<(nat, Update)>, entries: seq<Resolution>, path: Path)
    requires Carries(trace, entries) && path in s && ClearedBy(entries, path, s[path])
    requires forall t :: t in trace && t.0 != 0 ==> !(t.1.Pend? && t.1.path == path)
    ensures path !in UpdatedBy(s, Updates(trace))
  {
    forall u | u in Updates(trace)
      ensures !(u.Pend? && u.path == path)
    {
      UpdatesAreMade(trace, u);
    }
    var c :| c in entries && Clears(c, path, s[path]);
    var u := Update.ClearIdentity(c.path, c.info);
    assert (0, u).1 == u;
    UpdatesAreMade(trace, u);
    ClearedStaysAway(s, Updates(trace), path);
  }

  lemma GatesAreReleased(r: Reconfiguration, before: ConflictPathSet, trace: seq<(nat, Update)>, others: seq<seq<Update>>,
                         entries: seq<Resolution>)
    requires CapturedBy(r, entries) && Carries(trace, entries) && OthersOffered(trace, others)
    ensures GatesFollow(r, before, others, UpdatedBy(before, Updates(trace)))
  {
    forall p | p in before && !r.Releases(p, before[p]) && (forall u :: Offered(others, u) ==> !Touches(u, p, before[p]))
      ensures p in UpdatedBy(before, Updates(trace)) && UpdatedBy(before, Updates(trace))[p] == before[p]
    {
      assert !ClearedBy(entries, p, before[p]);
      UnreleasedStays(before, trace, entries, p);
    }
    forall p | Consistent(r.fs) && p in before && r.Releases(p, before[p])
               && (forall u :: Offered(others, u) ==> !(u.Pend? && u.path == p))
      ensures p !in UpdatedBy(before, Updates(trace))
    {
      assert ClearedBy(entries, p, before[p]);
      ReleasedGoes(before, trace, entries, p);
    }
  }

  /** No directory that a new base lies in loses its gate to the new configuration. */
  ghost predicate KeptStayGated(bases: seq<Base>, fs: FileSystem, before: ConflictPathSet, others: seq<seq<Update>>, after: ConflictPathSet) {
    forall b, p ::
      && b in bases && b.path != "" && p in before
      && (if before[p].Some? then fs(b.path).Some? && before[p].value == fs(b.path).value.identity else p == b.path)
      && (forall u :: Offered(others, u) ==> !Touches(u, p, before[p]))
      ==> p in after && after[p] == before[p]
  }

  lemma KeptDirectoriesStayGated(r: Reconfiguration, before: ConflictPathSet, others: seq<seq<Update>>, after: ConflictPathSet)
    requires GatesFollow(r, before, others, after)
    ensures KeptStayGated(r.next, r.fs, before, others, after)
  {
    forall b, p |
      && b in r.next && b.path != "" && p in before
      && (if before[p].Some? then r.fs(b.path).Some? && before[p].value == r.fs(b.path).value.identity else p == b.path)
      ensures !r.Releases(p, before[p])
    {
      KeptDirectoryStaysGated(r, b, p, before[p]);
    }
  }

  function ByOthers(updates: seq<Update>): seq<(nat, Update)> {
    seq(|updates|, i requires 0 <= i < |updates| => (1, updates[i]))
  }

  /** What the release of one gate makes of the history. */
  ghost predicate MadeFor(made: seq<(nat, Update)>, c: Resolution) {
    && (forall t :: t in made && t.0 == 0 ==> c.path != "" && t.1 == Update.ClearIdentity(c.path, c.info))
    && (c.path != "" ==> (0, Update.ClearIdentity(c.path, c.info)) in made)
  }

  lemma OneMoreEntry(trace: seq<(nat, Update)>, entries: seq<Resolution>, c: Resolution, made: seq<(nat, Update)>)
    requires Carries(trace, entries) && MadeFor(made, c)
    ensures Carries(trace + made, entries + [c])
  {
    assert c in entries + [c];
    assert forall x :: x in entries ==> x in entries + [c];
  }

  lemma UpdatesOfBoth(a: seq<(nat, Update)>, b: seq<(nat, Update)>)
    ensures Updates(a + b) == Updates(a) + Updates(b)
  {}

  method ReleaseGate(coordinator: BaseOperationCoordinator, c: Resolution) returns (ghost made: seq<(nat, Update)>)
    requires coordinator.Valid()
    modifies coordinator
    ensures coordinator.Valid() && MadeFor(made, c) && OthersOffered(made, old(coordinator.others))
    ensures coordinator.history == old(coordinator.history) + Updates(made)
    ensures forall s :: s in coordinator.others ==> s in old(coordinator.others)
  {
    ghost var during := coordinator.ClearConflictForIdentity(c.path, c.info);
    made := [];
    if c.path != "" {
      var t := (0, Update.ClearIdentity(c.path, c.info));
      made := ByOthers(during) + [t];
      assert t in made;
      assert Updates(made) == during + [t.1];
    }
  }

  lemma StillOffered(made: seq<(nat, Update)>, fewer: seq<seq<Update>>, others: seq<seq<Update>>)
    requires OthersOffered(made, fewer) && forall s :: s in fewer ==> s in others
    ensures OthersOffered(made, others)
  {}

  /** The loop of publishConfigLocked. */
  method ReleaseGates(coordinator: BaseOperationCoordinator, entries: seq<Resolution>, ghost r: Reconfiguration)
    requires coordinator.Valid() && CapturedBy(r, entries)
    modifies coordinator
    ensures coordinator.Valid()
    ensures GatesFollow(r, old(Fold(coordinator.history)), old(coordinator.others), Fold(coordinator.history))
  {
    ghost var trace: seq<(nat, Update)> := [];
    for k := 0 to |entries|
      invariant coordinator.Valid() && Carries(trace, entries[..k]) && OthersOffered(trace, old(coordinator.others))
      invariant coordinator.history == old(coordinator.history) + Updates(trace)
      invariant forall s :: s in coordinator.others ==> s in old(coordinator.others)
    {
      ghost var fewer := coordinator.others;
      ghost var made := ReleaseGate(coordinator, entries[k]);
      StillOffered(made, fewer, old(coordinator.others));
      OneMoreEntry(trace, entries[..k], entries[k], made);
      UpdatesOfBoth(trace, made);
      assert entries[..k + 1] == entries[..k] + [entries[k]];
      trace := trace + made;
    }
    assert entries[..|entries|] == entries;
    FoldOnwards(old(coordinator.history), Updates(trace));
    GatesAreReleased(r, old(Fold(coordinator.history)), trace, old(coordinator.others), entries);
  }
}
