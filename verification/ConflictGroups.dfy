/** Cross-checking what three Git commands say about the unmerged paths, and classifying each of them. */
module ConflictGroups {
  import opened Basics
  import opened ConflictParser
  import opened IndexParser
  import P = PorcelainParser

  /** "160000", the mode of a submodule */
  const SUBMODULE: Text := [0x31, 0x36, 0x30, 0x30, 0x30, 0x30]

  type Stages = map<int, IndexStage>
  type Groups = map<Text, Stages>

  datatype Refusal = Unsupported | Ambiguous
  datatype Checked<+T> = Accepted(value: T) | Refused(reason: Refusal)

  /** The unmerged stages by path and stage number. */
  function GroupsOf(unmerged: seq<IndexStage>): Groups {
    if unmerged == [] then map[]
    else
      var init, last := GroupsOf(unmerged[..|unmerged| - 1]), unmerged[|unmerged| - 1];
      init[last.path := (if last.path in init then init[last.path] else map[])[last.stage := last]]
  }

  lemma {:induction false} GroupsHold(unmerged: seq<IndexStage>)
    ensures var g := GroupsOf(unmerged);
            && (forall s :: s in unmerged ==> s.path in g && s.stage in g[s.path])
            && (forall path, n :: path in g && n in g[path] ==>
                                    g[path][n] in unmerged && g[path][n].path == path && g[path][n].stage == n)
            && (forall path :: path in g ==> exists n :: n in g[path])
  {
    if unmerged != [] {
      var init, last := unmerged[..|unmerged| - 1], unmerged[|unmerged| - 1];
      assert unmerged == init + [last];
      GroupsHold(init);
      var g, h := GroupsOf(unmerged), GroupsOf(init);
      forall path | path in g
        ensures exists n :: n in g[path]
      {
        if path == last.path {
          assert last.stage in g[path];
        } else {
          assert g[path] == h[path];
        }
      }
    }
  }

  /** The groups partition the unmerged stages: each stage is in the group of its path under its own
      number, no group is empty, and nothing else is in any group. */
  lemma GroupsPartition(unmerged: seq<IndexStage>)
    requires DistinctStages(unmerged)
    ensures var g := GroupsOf(unmerged);
            && (forall s :: s in unmerged <==> s.path in g && s.stage in g[s.path] && g[s.path][s.stage] == s)
            && (forall path :: path in g ==> exists n :: n in g[path])
            && (forall path, n :: path in g && n in g[path] ==> g[path][n].path == path && g[path][n].stage == n)
  {
    GroupsHold(unmerged);
    var g := GroupsOf(unmerged);
    forall s | s in unmerged
      ensures g[s.path][s.stage] == s
    {
      var t := g[s.path][s.stage];
      var i :| 0 <= i < |unmerged| && unmerged[i] == s;
      var j :| 0 <= j < |unmerged| && unmerged[j] == t;
    }
  }

  /** "UU", "AA", "UD" or "DU"; empty when the stages are none of these. */
  function ConflictXY(stages: Stages): Text {
    var base, local, remote := 1 in stages, 2 in stages, 3 in stages;
    if local && remote then (if base then [0x55, 0x55] else [0x41, 0x41])
    else if base && local then [0x55, 0x44]
    else if base && remote then [0x44, 0x55]
    else []
  }

  /** The porcelain entries of unmerged paths. */
  predicate Unmerged(e: P.Entry) {
    e.recordType == P.UNMERGED
  }

  ghost function UnmergedPaths(porcelain: seq<P.Entry>): set<Text> {
    set e | e in porcelain && Unmerged(e) :: e.path
  }

  predicate Supported(s: IndexStage, utf8: Text -> bool) {
    s.stage != 0 && utf8(s.path)
  }

  /** The full index holds the groups and nothing else under their paths. */
  ghost predicate IndexAgrees(groups: Groups, all: seq<IndexStage>) {
    && (forall s :: s in all && s.path in groups ==> s.stage in groups[s.path] && groups[s.path][s.stage] == s)
    && (forall path, n :: path in groups && n in groups[path] ==> groups[path][n] in all)
  }

  /** The status entries of unmerged paths can be read, and none repeats. */
  ghost predicate ReadableStatus(porcelain: seq<P.Entry>, utf8: Text -> bool) {
    && (forall e :: e in porcelain && Unmerged(e) ==> utf8(e.path))
    && (forall i, j :: 0 <= i < j < |porcelain| && Unmerged(porcelain[i]) && Unmerged(porcelain[j]) ==>
                         porcelain[i].path != porcelain[j].path)
  }

  ghost predicate StatusAgrees(groups: Groups, porcelain: seq<P.Entry>) {
    && UnmergedPaths(porcelain) == groups.Keys
    && (forall e :: e in porcelain && Unmerged(e) && e.path in groups ==> e.xy == ConflictXY(groups[e.path]))
  }

  /** The three commands describe the same conflicts. */
  ghost predicate Agree(unmerged: seq<IndexStage>, all: seq<IndexStage>, porcelain: seq<P.Entry>, utf8: Text -> bool) {
    && (forall s :: s in unmerged ==> s.stage != 0 && utf8(s.path) && s.mode != SUBMODULE)
    && IndexAgrees(GroupsOf(unmerged), all)
    && ReadableStatus(porcelain, utf8) && StatusAgrees(GroupsOf(unmerged), porcelain)
  }

  lemma SubsetOfSameSize<T>(a: set<T>, b: set<T>)
    requires a <= b && |a| == |b|
    ensures a == b
  {
    assert b == a + (b - a);
    assert |b| == |a| + |b - a|;
  }

  /** conflictStageGroups succeeds exactly when the three descriptions agree. */
  method ConflictStageGroups(unmerged: seq<IndexStage>, all: seq<IndexStage>, porcelain: seq<P.Entry>, utf8: Text -> bool)
    returns (r: Checked<Groups>)
    ensures r.Accepted? <==> Agree(unmerged, all, porcelain, utf8)
    ensures r.Accepted? ==> r.value == GroupsOf(unmerged)
    ensures r == Refused(Unsupported) ==>
              (exists s :: s in unmerged && !(s.stage != 0 && utf8(s.path))) || exists e :: e in porcelain && Unmerged(e) && !utf8(e.path)
  {
    var grouped := GroupUnmerged(unmerged, utf8);
    if grouped.Refused? {
      return grouped;
    }
    GroupsHold(unmerged);
    var matched := MatchIndex(grouped.value, all);
    if !matched {
      return Refused(Ambiguous);
    }
    var status := CollectStatus(porcelain, utf8);
    if status.Refused? {
      return Refused(status.reason);
    }
    var same := CompareStatus(grouped.value, status.value, porcelain);
    r := if same then grouped else Refused(Ambiguous);
  }

  method GroupUnmerged(unmerged: seq<IndexStage>, utf8: Text -> bool) returns (r: Checked<Groups>)
    ensures r.Accepted? <==> forall s :: s in unmerged ==> s.stage != 0 && utf8(s.path) && s.mode != SUBMODULE
    ensures r.Accepted? ==> r.value == GroupsOf(unmerged)
    ensures r == Refused(Unsupported) ==> exists s :: s in unmerged && !(s.stage != 0 && utf8(s.path))
  {
    var groups: Groups := map[];
    for k := 0 to |unmerged|
      invariant forall s :: s in unmerged[..k] ==> s.stage != 0 && utf8(s.path) && s.mode != SUBMODULE
      invariant groups == GroupsOf(unmerged[..k])
    {
      var s := unmerged[k];
      assert unmerged[..k + 1][..k] == unmerged[..k];
      if !Supported(s, utf8) {
        return Refused(Unsupported);
      }
      if s.mode == SUBMODULE {
        return Refused(Ambiguous);
      }
      if s.path !in groups {
        groups := groups[s.path := map[]];
      }
      groups := groups[s.path := groups[s.path][s.stage := s]];
    }
    assert unmerged[..|unmerged|] == unmerged;
    r := Accepted(groups);
  }

  /** The stage numbers of a path that the index entries read so far have confirmed. */
  ghost function Confirmed(groups: Groups, path: Text, seen: seq<IndexStage>): set<int>
    requires path in groups
  {
    set n | n in groups[path] && groups[path][n] in seen
  }

  ghost predicate Matches(matched: map<Text, set<int>>, groups: Groups, seen: seq<IndexStage>) {
    && matched.Keys <= groups.Keys
    && (forall s :: s in seen && s.path in groups ==> s.stage in groups[s.path] && groups[s.path][s.stage] == s)
    && (forall path :: path in groups ==>
                         (if path in matched then matched[path] else {}) == Confirmed(groups, path, seen))
  }

  /** Reading one more index entry. */
  lemma ConfirmOne(groups: Groups, path: Text, seen: seq<IndexStage>, s: IndexStage)
    requires path in groups
    requires forall n :: n in groups[path] ==> groups[path][n].path == path && groups[path][n].stage == n
    ensures Confirmed(groups, path, seen + [s])
         == Confirmed(groups, path, seen)
            + if s.path == path && s.stage in groups[path] && groups[path][s.stage] == s then {s.stage} else {}
  {
    forall n | n in groups[path]
      ensures groups[path][n] in seen + [s] <==> groups[path][n] in seen || (groups[path][n] == s && n == s.stage)
    {}
  }

  ghost predicate Keyed(groups: Groups) {
    forall path, n :: path in groups && n in groups[path] ==>
                        n != 0 && groups[path][n].path == path && groups[path][n].stage == n
  }

  lemma MatchOne(matched: map<Text, set<int>>, groups: Groups, seen: seq<IndexStage>, s: IndexStage)
    requires Keyed(groups) && Matches(matched, groups, seen)
    requires s.path in groups ==> s.stage in groups[s.path] && groups[s.path][s.stage] == s
    ensures s.path !in groups ==> Matches(matched, groups, seen + [s])
    ensures s.path in groups ==>
              Matches(matched[s.path := (if s.path in matched then matched[s.path] else {}) + {s.stage}], groups, seen + [s])
  {
    forall path | path in groups
      ensures Confirmed(groups, path, seen + [s]) == Confirmed(groups, path, seen) + if s.path == path then {s.stage} else {}
    {
      ConfirmOne(groups, path, seen, s);
    }
  }

  /** The loop over the full index. */
  method MatchIndex(groups: Groups, all: seq<IndexStage>) returns (agrees: bool)
    requires Keyed(groups)
    ensures agrees <==> IndexAgrees(groups, all)
  {
    var matched: map<Text, set<int>> := map[];
    for k := 0 to |all|
      invariant Matches(matched, groups, all[..k])
    {
      var s := all[k];
      assert all[..k + 1] == all[..k] + [s];
      if s.path in groups {
        if s.stage == 0 || s.stage !in groups[s.path] || groups[s.path][s.stage] != s {
          assert s in all;
          return false;
        }
        MatchOne(matched, groups, all[..k], s);
        matched := matched[s.path := (if s.path in matched then matched[s.path] else {}) + {s.stage}];
      } else {
        MatchOne(matched, groups, all[..k], s);
      }
    }
    assert all[..|all|] == all;
    agrees := CountMatches(groups, matched, all);
  }

  ghost predicate Complete(groups: Groups, path: Text, all: seq<IndexStage>)
    requires path in groups
  {
    Confirmed(groups, path, all) == groups[path].Keys
  }

  lemma AgreesWhenComplete(matched: map<Text, set<int>>, groups: Groups, all: seq<IndexStage>)
    requires Matches(matched, groups, all)
    ensures IndexAgrees(groups, all) <==> forall path :: path in groups ==> Complete(groups, path, all)
  {
    if IndexAgrees(groups, all) {
      forall path | path in groups
        ensures Complete(groups, path, all)
      {
        assert forall n :: n in groups[path] ==> n in Confirmed(groups, path, all);
      }
    }
    if forall path :: path in groups ==> Complete(groups, path, all) {
      forall path, n | path in groups && n in groups[path]
        ensures groups[path][n] in all
      {
        assert Complete(groups, path, all);
        assert n in Confirmed(groups, path, all);
      }
    }
  }

  /** The loop over the groups: every stage was confirmed. */
  method CountMatches(groups: Groups, matched: map<Text, set<int>>, ghost all: seq<IndexStage>) returns (complete: bool)
    requires Matches(matched, groups, all)
    ensures complete <==> IndexAgrees(groups, all)
  {
    AgreesWhenComplete(matched, groups, all);
    var remaining := groups.Keys;
    while remaining != {}
      invariant remaining <= groups.Keys
      invariant forall path :: path in groups && path !in remaining ==> Complete(groups, path, all)
      decreases |remaining|
    {
      var path :| path in remaining;
      var confirmed := if path in matched then matched[path] else {};
      assert confirmed == Confirmed(groups, path, all);
      if |confirmed| != |groups[path].Keys| {
        assert !Complete(groups, path, all);
        return false;
      }
      SubsetOfSameSize(confirmed, groups[path].Keys);
      remaining := remaining - {path};
    }
    complete := true;
  }

  /** The unmerged porcelain entries by path. */
  ghost predicate StatusOf(status: map<Text, P.Entry>, porcelain: seq<P.Entry>) {
    && (forall path :: path in status ==> status[path] in porcelain && Unmerged(status[path]) && status[path].path == path)
    && (forall e :: e in porcelain && Unmerged(e) ==> e.path in status && status[e.path] == e)
  }

  method CollectStatus(porcelain: seq<P.Entry>, utf8: Text -> bool) returns (r: Checked<map<Text, P.Entry>>)
    ensures r.Accepted? <==> ReadableStatus(porcelain, utf8)
    ensures r.Accepted? ==> StatusOf(r.value, porcelain)
    ensures r == Refused(Unsupported) ==> exists e :: e in porcelain && Unmerged(e) && !utf8(e.path)
  {
    var status: map<Text, P.Entry> := map[];
    for k := 0 to |porcelain|
      invariant ReadableStatus(porcelain[..k], utf8) && StatusOf(status, porcelain[..k])
    {
      var e := porcelain[k];
      assert porcelain[..k + 1] == porcelain[..k] + [e];
      if Unmerged(e) {
        if !utf8(e.path) {
          return Refused(Unsupported);
        }
        if e.path in status {
          ghost var i :| 0 <= i < k && porcelain[i] == status[e.path];
          return Refused(Ambiguous);
        }
        StatusOne(status, porcelain[..k], e, utf8);
        status := status[e.path := e];
      }
    }
    assert porcelain[..|porcelain|] == porcelain;
    r := Accepted(status);
  }

  lemma StatusOne(status: map<Text, P.Entry>, seen: seq<P.Entry>, e: P.Entry, utf8: Text -> bool)
    requires ReadableStatus(seen, utf8) && StatusOf(status, seen)
    requires Unmerged(e) && utf8(e.path) && e.path !in status
    ensures ReadableStatus(seen + [e], utf8) && StatusOf(status[e.path := e], seen + [e])
  {
    forall i | 0 <= i < |seen| && Unmerged(seen[i])
      ensures seen[i].path != e.path
    {
      assert seen[i] in seen;
    }
  }

  /** The last loop: the status has the same paths as the groups, and the codes agree. */
  method CompareStatus(groups: Groups, status: map<Text, P.Entry>, ghost porcelain: seq<P.Entry>) returns (same: bool)
    requires StatusOf(status, porcelain)
    ensures same <==> StatusAgrees(groups, porcelain)
  {
    assert UnmergedPaths(porcelain) == status.Keys by {
      assert forall path :: path in status ==> status[path].path == path;
    }
    if |status.Keys| != |groups.Keys| {
      return false;
    }
    var remaining := groups.Keys;
    while remaining != {}
      invariant remaining <= groups.Keys && groups.Keys - remaining <= status.Keys
      invariant forall path :: path in groups && path !in remaining ==> status[path].xy == ConflictXY(groups[path])
      decreases |remaining|
    {
      var path :| path in remaining;
      if path !in status || ConflictXY(groups[path]) != status[path].xy {
        return false;
      }
      remaining := remaining - {path};
    }
    SubsetOfSameSize(groups.Keys, status.Keys);
    same := true;
  }

  // ---------------------------------------------------------------- modify/delete and rename/delete evidence

  function Modification(path: Text): NameStatus { NameStatus(MODIFIED, 0, [], path) }

  function Deletion(path: Text): NameStatus { NameStatus(DELETED, 0, [], path) }

  /** The only thing the retaining side did to the path is this one change. */
  ghost predicate OnlyChange(path: Text, retained: multiset<NameStatus>, e: NameStatus) {
    e.path == path && retained[e] == 1 && forall x :: x in retained && x.path == path ==> x == e
  }

  ghost predicate NoCopyTo(path: Text, deleted: multiset<NameStatus>) {
    forall x :: x in deleted && x.path == path ==> x.status != COPIED
  }

  /** One side modified the path and changed nothing else about it, the other deleted it once. */
  ghost predicate ModifyDelete(path: Text, retained: multiset<NameStatus>, deleted: multiset<NameStatus>) {
    OnlyChange(path, retained, Modification(path)) && NoCopyTo(path, deleted) && deleted[Deletion(path)] == 1
  }

  /** One side renamed `e.oldPath` to the path, the other deleted the old path once and the new one never. */
  ghost predicate RenameDelete(path: Text, retained: multiset<NameStatus>, deleted: multiset<NameStatus>, e: NameStatus, utf8: Text -> bool) {
    && e.status == RENAMED && utf8(e.oldPath) && OnlyChange(path, retained, e)
    && NoCopyTo(path, deleted) && deleted[Deletion(e.oldPath)] == 1 && deleted[Deletion(path)] == 0
  }

  /** The old path of a rename/delete, or None for a modify/delete. */
  type Evidence = Option<Text>

  /** The evidence as a statement about the two change lists as multisets: their order cannot matter. */
  ghost predicate Proves(path: Text, retained: multiset<NameStatus>, deleted: multiset<NameStatus>, utf8: Text -> bool, e: Evidence) {
    if e.None? then ModifyDelete(path, retained, deleted)
    else exists change :: RenameDelete(path, retained, deleted, change, utf8) && change.oldPath == e.value
  }

  /** The evidence is unique. */
  lemma EvidenceIsUnique(path: Text, retained: multiset<NameStatus>, deleted: multiset<NameStatus>, utf8: Text -> bool, a: Evidence, b: Evidence)
    requires Proves(path, retained, deleted, utf8, a) && Proves(path, retained, deleted, utf8, b)
    ensures a == b
  {
    if a.Some? && b.Some? {
      var x :| RenameDelete(path, retained, deleted, x, utf8) && x.oldPath == a.value;
      var y :| RenameDelete(path, retained, deleted, y, utf8) && y.oldPath == b.value;
      assert x in retained && y in retained;
    }
  }

  /** What the first loop knows: the rename seen, if any, and the number of modifications. */
  ghost predicate RetainedSoFar(path: Text, seen: seq<NameStatus>, rename: Option<NameStatus>, modified: nat, utf8: Text -> bool) {
    && (forall x :: x in seen && x.path == path ==> Some(x) == rename || x == Modification(path))
    && modified == multiset(seen)[Modification(path)]
    && (rename.Some? ==> modified == 0 && rename.value.path == path && rename.value.status == RENAMED
                         && utf8(rename.value.oldPath) && multiset(seen)[rename.value] == 1)
  }

  /** The loop over the retaining side. The source keeps only the old path, and the empty path for none. */
  method ReadRetained(path: Text, retained: seq<NameStatus>, utf8: Text -> bool)
    returns (r: Checked<(Text, nat)>, ghost rename: Option<NameStatus>)
    requires ValidNames(retained)
    ensures r.Accepted? ==> RetainedSoFar(path, retained, rename, r.value.1, utf8)
                            && r.value.0 == if rename.Some? then rename.value.oldPath else []
    ensures r.Accepted? && rename.Some? ==> r.value.0 != []
    ensures r.Refused? ==> forall e :: !OnlyChange(path, multiset(retained), e)
                                       || (e.status == RENAMED && !utf8(e.oldPath)) || e.status == COPIED || e.status == DELETED
    ensures r == Refused(Unsupported) ==> exists e :: e in retained && e.status == RENAMED && !utf8(e.oldPath)
  {
    var source: Text, modified := [], 0;
    rename := None;
    for k := 0 to |retained|
      invariant RetainedSoFar(path, retained[..k], rename, modified, utf8)
      invariant source == if rename.Some? then rename.value.oldPath else []
      invariant rename.Some? ==> source != []
    {
      var change := retained[k];
      assert change in retained;
      assert retained[..k + 1] == retained[..k] + [change];
      assert retained == retained[..k] + [change] + retained[k + 1..];
      if change.path == path {
        if change.status == RENAMED {
          if source != [] || modified != 0 {
            TwoChanges(path, retained, k, if rename.Some? then rename.value else Modification(path));
            return Refused(Ambiguous), rename;
          }
          if !utf8(change.oldPath) {
            SingleChange(path, retained, change);
            return Refused(Unsupported), rename;
          }
          source, rename := change.oldPath, Some(change);
        } else if change.status == MODIFIED {
          if source != [] {
            TwoChanges(path, retained, k, rename.value);
            return Refused(Ambiguous), rename;
          }
          modified := modified + 1;
        } else {
          SingleChange(path, retained, change);
          return Refused(Ambiguous), rename;
        }
      }
    }
    assert retained[..|retained|] == retained;
    r := Accepted((source, modified));
  }

  lemma SingleChange(path: Text, retained: seq<NameStatus>, change: NameStatus)
    requires change in retained && change.path == path
    ensures forall e :: OnlyChange(path, multiset(retained), e) ==> e == change
  {
    assert change in multiset(retained);
  }

  lemma TwoChanges(path: Text, retained: seq<NameStatus>, k: nat, earlier: NameStatus)
    requires k < |retained| && earlier in retained[..k] && earlier.path == path && retained[k].path == path
    ensures forall e :: !OnlyChange(path, multiset(retained), e)
  {
    var change := retained[k];
    assert retained == retained[..k] + [change] + retained[k + 1..];
    assert multiset(retained) == multiset(retained[..k]) + multiset{change} + multiset(retained[k + 1..]);
    assert earlier in multiset(retained[..k]);
    assert change in multiset(retained) && earlier in multiset(retained);
    forall e
      ensures !OnlyChange(path, multiset(retained), e)
    {
      if earlier == change {
        assert multiset(retained)[change] >= 2;
      }
    }
  }

  /** The loop over the deleting side. */
  method ReadDeleted(path: Text, deleted: seq<NameStatus>, source: Text) returns (copied: bool, deletedPath: nat, deletedOld: nat)
    requires ValidNames(deleted)
    ensures copied <==> !NoCopyTo(path, multiset(deleted))
    ensures !copied ==> deletedPath == multiset(deleted)[Deletion(path)]
    ensures !copied && source != [] ==> deletedOld == multiset(deleted)[Deletion(source)]
  {
    deletedPath, deletedOld := 0, 0;
    for k := 0 to |deleted|
      invariant NoCopyTo(path, multiset(deleted[..k]))
      invariant deletedPath == multiset(deleted[..k])[Deletion(path)]
      invariant source != [] ==> deletedOld == multiset(deleted[..k])[Deletion(source)]
    {
      var change := deleted[k];
      assert change in deleted;
      assert deleted[..k + 1] == deleted[..k] + [change];
      if change.status == COPIED && change.path == path {
        assert change in multiset(deleted);
        return true, 0, 0;
      }
      if change.status == DELETED {
        if change.path == path {
          deletedPath := deletedPath + 1;
        }
        if source != [] && change.path == source {
          deletedOld := deletedOld + 1;
        }
      }
    }
    assert deleted[..|deleted|] == deleted;
    copied := false;
  }

  /** renameDeleteEvidence accepts exactly the evidence there is, so its answer does not depend on the order
      of either list. Both lists are parsed name-status output. */
  method RenameDeleteEvidence(path: Text, retained: seq<NameStatus>, deleted: seq<NameStatus>, utf8: Text -> bool)
    returns (r: Checked<Evidence>)
    requires ValidNames(retained) && ValidNames(deleted)
    ensures forall e :: r == Accepted(e) <==> Proves(path, multiset(retained), multiset(deleted), utf8, e)
    ensures r == Refused(Unsupported) ==> exists e :: e in retained && e.status == RENAMED && !utf8(e.oldPath)
  {
    var read, rename := ReadRetained(path, retained, utf8);
    if read.Refused? {
      return Refused(read.reason);
    }
    var (source, modified) := read.value;
    var copied, deletedPath, deletedOld := ReadDeleted(path, deleted, source);
    if copied {
      return Refused(Ambiguous);
    }
    if source != [] {
      r := if deletedOld != 1 || deletedPath != 0 then Refused(Ambiguous) else Accepted(Some(source));
    } else {
      r := if modified != 1 || deletedPath != 1 then Refused(Ambiguous) else Accepted(None);
    }
  }

  // ---------------------------------------------------------------- classification

  datatype ConflictKind = ContentConflict | AddAddConflict | ModifyDeleteConflict | RenameDeleteConflict(original: Text)

  const BOTH_MODIFIED: Text := [0x55, 0x55]
  const BOTH_ADDED: Text := [0x41, 0x41]
  const DELETED_BY_THEM: Text := [0x55, 0x44]
  const DELETED_BY_US: Text := [0x44, 0x55]

  /** The kind of a conflict, by its porcelain code, the number of merge bases and the two change lists. */
  ghost predicate Classified(path: Text, xy: Text, bases: nat, local: multiset<NameStatus>, remote: multiset<NameStatus>,
                             utf8: Text -> bool, kind: ConflictKind)
  {
    match kind
    case ContentConflict => xy == BOTH_MODIFIED && bases > 0
    case AddAddConflict => xy == BOTH_ADDED
    case ModifyDeleteConflict =>
      bases == 1 && ((xy == DELETED_BY_THEM && Proves(path, local, remote, utf8, None))
                     || (xy == DELETED_BY_US && Proves(path, remote, local, utf8, None)))
    case RenameDeleteConflict(original) =>
      bases == 1 && ((xy == DELETED_BY_THEM && Proves(path, local, remote, utf8, Some(original)))
                     || (xy == DELETED_BY_US && Proves(path, remote, local, utf8, Some(original))))
  }

  /** classifyConflict */
  method ClassifyConflict(path: Text, stages: Stages, bases: nat, local: seq<NameStatus>, remote: seq<NameStatus>, utf8: Text -> bool)
    returns (r: Checked<ConflictKind>)
    requires ValidNames(local) && ValidNames(remote)
    ensures forall kind :: r == Accepted(kind)
                           <==> Classified(path, ConflictXY(stages), bases, multiset(local), multiset(remote), utf8, kind)
  {
    var hasBase, hasLocal, hasRemote := 1 in stages, 2 in stages, 3 in stages;
    if hasBase && hasLocal && hasRemote {
      r := if bases == 0 then Refused(Ambiguous) else Accepted(ContentConflict);
    } else if !hasBase && hasLocal && hasRemote {
      r := Accepted(AddAddConflict);
    } else if hasBase && hasLocal != hasRemote {
      if bases != 1 {
        return Refused(Ambiguous);
      }
      var retained, deleted := if hasLocal then local else remote, if hasLocal then remote else local;
      var evidence := RenameDeleteEvidence(path, retained, deleted, utf8);
      if evidence.Refused? {
        return Refused(evidence.reason);
      }
      r := Accepted(if evidence.value.Some? then RenameDeleteConflict(evidence.value.value) else ModifyDeleteConflict);
    } else {
      r := Refused(Ambiguous);
    }
  }

  /** Past the cross-check of parsed output, no group falls through the classification: its stages are one
      of the four combinations. Parsed porcelain entries have a two-letter code. */
  lemma CheckedGroupsHaveACode(unmerged: seq<IndexStage>, all: seq<IndexStage>, porcelain: seq<P.Entry>, utf8: Text -> bool, path: Text)
    requires Agree(unmerged, all, porcelain, utf8)
    requires forall e :: e in porcelain ==> |e.xy| == 2
    requires path in GroupsOf(unmerged)
    ensures ConflictXY(GroupsOf(unmerged)[path]) in {BOTH_MODIFIED, BOTH_ADDED, DELETED_BY_THEM, DELETED_BY_US}
  {
    assert path in UnmergedPaths(porcelain);
    var e :| e in porcelain && Unmerged(e) && e.path == path;
  }
}
