/** Resolving one conflict: the plan, and the three phases that carry it out on the worktree. */
module Resolution {
  import opened Basics

  /** Slash-separated, relative to the repository; empty for none. */
  type Path = string

  datatype Mode = Regular | Executable | Symlink | OtherMode

  /** A worktree entry; for a symbolic link the content is its target. */
  datatype Entry = Entry(mode: Mode, content: Text)
  type Files = map<Path, Entry>

  datatype Stage = Stage(oid: string, mode: Mode)
  datatype Action = UseLocal | UseRemote | Manual | KeepBoth | Delete

  datatype Conflict = Conflict(
    id: string,
    path: Path,
    original: Path,
    local: Option<Stage>,
    remote: Option<Stage>,
    actions: set<Action>)

  datatype Request = Request(
    conflictId: string,
    path: Path,
    action: Action,
    resultPath: Path,
    content: Option<Text>,
    localPath: Path,
    remotePath: Path,
    localOid: string,
    remoteOid: string)

  /** Stage 0 means content supplied by the request. */
  datatype Write = Write(path: Path, stage: nat, oid: string, mode: Mode, data: Text)

  /** The source keeps the path lists of a plan sorted and free of duplicates: they are sets. */
  datatype Plan = Plan(removePaths: set<Path>, writes: seq<Write>, stagePaths: set<Path>)

  // ---------------------------------------------------------------- validation

  /** cleanConflictPath, over an abstract check of the components. */
  predicate Clean(path: Path, wellFormed: Path -> bool) {
    path != "" && wellFormed(path)
  }

  /** validateResolution */
  predicate ValidResolution(c: Conflict, r: Request, wellFormed: Path -> bool) {
    && r.conflictId == c.id && r.path == c.path && r.action in c.actions
    && match r.action
       case UseLocal =>
         && Clean(r.resultPath, wellFormed) && c.local.Some? && r.localOid == c.local.value.oid && r.localOid != ""
         && r.content.None? && r.localPath == "" && r.remotePath == "" && r.remoteOid == ""
       case UseRemote =>
         && Clean(r.resultPath, wellFormed) && c.remote.Some? && r.remoteOid == c.remote.value.oid && r.remoteOid != ""
         && r.content.None? && r.localPath == "" && r.remotePath == "" && r.localOid == ""
       case Manual =>
         && Clean(r.resultPath, wellFormed) && r.content.Some?
         && r.localPath == "" && r.remotePath == "" && r.localOid == "" && r.remoteOid == ""
       case KeepBoth =>
         && Clean(r.localPath, wellFormed) && Clean(r.remotePath, wellFormed) && r.localPath != r.remotePath
         && c.local.Some? && c.remote.Some?
         && r.localOid == c.local.value.oid && r.localOid != "" && r.remoteOid == c.remote.value.oid && r.remoteOid != ""
         && r.resultPath == "" && r.content.None?
       case Delete =>
         && r.resultPath == "" && r.content.None? && r.localPath == "" && r.remotePath == ""
         && r.localOid == "" && r.remoteOid == ""
  }

  // ---------------------------------------------------------------- the plan

  /** resolutionSources: the paths the conflict owns. */
  function Sources(c: Conflict, wellFormed: Path -> bool): (r: Option<seq<Path>>)
    ensures r.Some? ==> 1 <= |r.value| <= 2 && r.value[0] == c.path && (|r.value| == 2 ==> r.value[1] != c.path)
  {
    if !Clean(c.path, wellFormed) then None
    else if c.original == "" then Some([c.path])
    else if !Clean(c.original, wellFormed) then None
    else if c.original != c.path then Some([c.path, c.original])
    else Some([c.path])
  }

  /** resolutionStageWrite */
  function StageWrite(output: Path, stage: nat, source: Option<Stage>): Option<Write> {
    if source.None? || source.value.oid == "" || source.value.mode == OtherMode then None
    else Some(Write(output, stage, source.value.oid, source.value.mode, []))
  }

  /** resolutionManualMode */
  function ManualMode(c: Conflict): Option<Mode> {
    var mode := if c.local.Some? then c.local.value.mode else if c.remote.Some? then c.remote.value.mode else Regular;
    if mode == OtherMode then None else Some(mode)
  }

  /** Content of the request, or one side of the conflict: stage 2 is the local one, stage 3 the remote one. */
  predicate FromSide(w: Write, c: Conflict) {
    || (w.stage == 0 && w.oid == "")
    || (w.stage == 2 && c.local == Some(Stage(w.oid, w.mode)) && w.data == [])
    || (w.stage == 3 && c.remote == Some(Stage(w.oid, w.mode)) && w.data == [])
  }

  /** What the chosen action writes. */
  function Writes(c: Conflict, r: Request): (writes: Option<seq<Write>>)
    ensures writes.Some? ==> |writes.value| <= 2 && forall w :: w in writes.value ==> w.mode != OtherMode && FromSide(w, c)
  {
    match r.action
    case UseLocal =>
      var w := StageWrite(r.resultPath, 2, c.local);
      if w.None? then None else Some([w.value])
    case UseRemote =>
      var w := StageWrite(r.resultPath, 3, c.remote);
      if w.None? then None else Some([w.value])
    case Manual =>
      var mode := ManualMode(c);
      if mode.None? || r.content.None? then None else Some([Write(r.resultPath, 0, "", mode.value, r.content.value)])
    case KeepBoth =>
      var local, remote := StageWrite(r.localPath, 2, c.local), StageWrite(r.remotePath, 3, c.remote);
      if local.None? || remote.None? then None else Some([local.value, remote.value])
    case Delete => Some([])
  }

  function Outputs(writes: seq<Write>): set<Path> {
    set w | w in writes :: w.path
  }

  /** The order a plan keeps its writes in; there are at most two, on different paths. */
  function SortWrites(writes: seq<Write>): seq<Write>
    requires |writes| <= 2
  {
    if |writes| == 2 && StringLess(writes[1].path, writes[0].path) then [writes[1], writes[0]] else writes
  }

  predicate SameConflict(a: Conflict, b: Conflict) {
    a.id == b.id && a.path == b.path && a.original == b.original
  }

  /** The paths of a conflict that are named at all. */
  function PathsOf(c: Conflict): set<Path> {
    {c.path, c.original} - {""}
  }

  /** rejectResolutionCollision: the paths belong to no other unresolved conflict. */
  method RejectResolutionCollision(selected: Conflict, conflicts: seq<Conflict>, requested: set<Path>) returns (clear: bool)
    ensures clear <==> ClearOfOthers(requested, selected, conflicts)
  {
    for k := 0 to |conflicts|
      invariant ClearOfOthers(requested, selected, conflicts[..k])
    {
      var other := conflicts[k];
      assert conflicts[..k + 1] == conflicts[..k] + [other];
      if !SameConflict(other, selected) {
        if (other.path != "" && other.path in requested) || (other.original != "" && other.original in requested) {
          assert other in conflicts;
          return false;
        }
      }
    }
    assert conflicts[..|conflicts|] == conflicts;
    clear := true;
  }

  function AsSet(paths: seq<Path>): set<Path> {
    set p | p in paths
  }

  /** What a plan promises: it removes exactly the sources it does not rewrite, it writes what the action
      chose, in path order, and it stages exactly the conflict's path and the outputs. */
  ghost predicate Carries(plan: Plan, sources: seq<Path>, written: seq<Write>)
    requires sources != []
  {
    && plan.removePaths == AsSet(sources) - Outputs(written)
    && |written| <= 2 && plan.writes == SortWrites(written) && multiset(plan.writes) == multiset(written)
    && (forall w :: w in written ==> w.mode != OtherMode)
    && (forall i, j :: 0 <= i < j < |plan.writes| ==> StringLess(plan.writes[i].path, plan.writes[j].path))
    && plan.stagePaths == {sources[0]} + Outputs(written)
  }

  /** No other unresolved conflict names one of these paths. */
  ghost predicate ClearOfOthers(paths: set<Path>, c: Conflict, conflicts: seq<Conflict>) {
    forall other :: other in conflicts && Another(other, c) ==> PathsOf(other) !! paths
  }

  /** It differs in its id or in one of its paths. */
  ghost predicate Another(other: Conflict, c: Conflict) {
    other.id != c.id || other.path != c.path || other.original != c.original
  }

  lemma SortedWrites(writes: seq<Write>)
    requires |writes| <= 2 && (|writes| == 2 ==> writes[0].path != writes[1].path)
    ensures multiset(SortWrites(writes)) == multiset(writes)
    ensures forall i, j :: 0 <= i < j < |writes| ==> StringLess(SortWrites(writes)[i].path, SortWrites(writes)[j].path)
  {
    if |writes| == 2 {
      StringLessIsTotal(writes[0].path, writes[1].path);
      assert writes == [writes[0], writes[1]];
    }
  }

  /** The removals and the staged paths of a plan, and its order. */
  method ArrangePlan(sources: seq<Path>, written: seq<Write>) returns (plan: Plan)
    requires 1 <= |sources| <= 2 && |written| <= 2
    requires |sources| == 2 ==> sources[0] != sources[1]
    requires |written| == 2 ==> written[0].path != written[1].path
    requires forall w :: w in written ==> w.mode != OtherMode
    ensures Carries(plan, sources, written)
  {
    var outputs := Outputs(written);
    var removePaths: set<Path> := {};
    for k := 0 to |sources|
      invariant removePaths == AsSet(sources[..k]) - outputs
    {
      assert sources[..k + 1] == sources[..k] + [sources[k]];
      if sources[k] !in outputs {
        removePaths := removePaths + {sources[k]};
      }
    }
    assert sources[..|sources|] == sources;
    var staged := if |sources| > 1 then removePaths - {sources[1]} else removePaths;
    assert sources == if |sources| == 1 then [sources[0]] else [sources[0], sources[1]];
    SortedWrites(written);
    plan := Plan(removePaths, SortWrites(written), staged + outputs);
  }

  /** The conditions under which a request has a plan. */
  ghost predicate Plannable(c: Conflict, conflicts: seq<Conflict>, r: Request, wellFormed: Path -> bool) {
    var sources, written := Sources(c, wellFormed), Writes(c, r);
    && ValidResolution(c, r, wellFormed) && sources.Some? && written.Some?
    && ClearOfOthers(AsSet(sources.value) + Outputs(written.value), c, conflicts)
  }

  /** buildResolutionPlan and sortResolutionPlan */
  method BuildResolutionPlan(c: Conflict, conflicts: seq<Conflict>, r: Request, wellFormed: Path -> bool) returns (plan: Option<Plan>)
    ensures plan.Some? <==> Plannable(c, conflicts, r, wellFormed)
    ensures plan.Some? ==> Carries(plan.value, Sources(c, wellFormed).value, Writes(c, r).value)
  {
    if !ValidResolution(c, r, wellFormed) {
      return None;
    }
    var sources := Sources(c, wellFormed);
    if sources.None? {
      return None;
    }
    var written := Writes(c, r);
    if written.None? {
      return None;
    }
    var clear := RejectResolutionCollision(c, conflicts, AsSet(sources.value) + Outputs(written.value));
    if !clear {
      return None;
    }
    var arranged := ArrangePlan(sources.value, written.value);
    plan := Some(arranged);
  }

  // ---------------------------------------------------------------- the worktree

  /** A materialized write: the path and the entry that is to stand there. */
  datatype Output = Output(path: Path, entry: Entry)

  /** materializeResolutionWrites. `blob` is the object database: the content an object id names. */
  function Materialize(writes: seq<Write>, blob: string -> Text): (outs: seq<Output>)
    ensures |outs| == |writes|
    ensures forall k :: 0 <= k < |outs| ==> outs[k].path == writes[k].path && outs[k].entry.mode == writes[k].mode
  {
    seq(|writes|, k requires 0 <= k < |writes| =>
      Output(writes[k].path, Entry(writes[k].mode, if writes[k].stage == 0 then writes[k].data else blob(writes[k].oid))))
  }

  function PathsOut(outs: seq<Output>): set<Path> {
    set w | w in outs :: w.path
  }

  /** An existing entry that a write may adopt: the executable bit of a file does not matter. */
  predicate Matches(e: Entry, want: Entry) {
    if want.mode == Symlink then e == want
    else (e.mode == Regular || e.mode == Executable) && e.content == want.content
  }

  predicate Writable(outs: seq<Output>) {
    && (forall i, j :: 0 <= i < j < |outs| ==> outs[i].path != outs[j].path)
    && forall i :: 0 <= i < |outs| ==> outs[i].entry.mode != OtherMode
  }

  lemma MaterializedPlan(plan: Plan, sources: seq<Path>, written: seq<Write>, blob: string -> Text)
    requires sources != [] && Carries(plan, sources, written)
    ensures var outs := Materialize(plan.writes, blob);
            Writable(outs) && PathsOut(outs) == Outputs(written) && plan.removePaths == AsSet(sources) - PathsOut(outs)
  {
    var outs := Materialize(plan.writes, blob);
    forall i, j | 0 <= i < j < |outs|
      ensures outs[i].path != outs[j].path
    {
      StringLessIsOrder(outs[i].path, outs[i].path, outs[i].path);
    }
    SortedOutputs(written);
    MaterializedPaths(plan.writes, blob);
    assert forall k :: 0 <= k < |outs| ==> plan.writes[k] in plan.writes;
  }

  lemma SortedOutputs(written: seq<Write>)
    requires |written| <= 2
    ensures Outputs(SortWrites(written)) == Outputs(written)
    ensures forall w :: w in SortWrites(written) ==> w in written
  {
    assert |written| == 2 ==> written == [written[0], written[1]];
  }

  lemma MaterializedPaths(writes: seq<Write>, blob: string -> Text)
    ensures PathsOut(Materialize(writes, blob)) == Outputs(writes)
  {
    var outs := Materialize(writes, blob);
    forall k | 0 <= k < |writes|
      ensures outs[k] in outs && writes[k] in writes
    {}
  }

  /** Every output that is not a source is free, or already there. */
  ghost predicate Ready(files: Files, sources: set<Path>, outs: seq<Output>) {
    forall i :: 0 <= i < |outs| && outs[i].path !in sources && outs[i].path in files ==> Matches(files[outs[i].path], outs[i].entry)
  }

  /** verifyResolutionDestinations: such an output is also not a tracked file of its own. */
  ghost predicate Verified(files: Files, sources: set<Path>, outs: seq<Output>, tracked: set<Path>) {
    Ready(files, sources, outs) && forall i :: 0 <= i < |outs| && outs[i].path !in sources ==> outs[i].path !in tracked
  }

  /** Nothing but files and links stands where the conflict's own paths are. */
  ghost predicate Removable(files: Files, sources: set<Path>) {
    forall p :: p in sources && p in files ==> files[p].mode != OtherMode
  }

  ghost predicate SameAt(before: Files, after: Files, p: Path) {
    (p in before <==> p in after) && (p in before ==> after[p] == before[p])
  }

  ghost predicate SameOutside(before: Files, after: Files, touched: set<Path>) {
    forall p :: p !in touched ==> (p in before <==> p in after) && (p in before ==> after[p] == before[p])
  }

  /** Outside these paths nothing that was there is gone, or holds anything else; a file may have become executable
      or ceased to be. */
  ghost predicate NothingLost(before: Files, after: Files, own: set<Path>) {
    forall p :: p in before && p !in own ==> p in after && SameThing(before[p], after[p])
  }

  ghost predicate SameThing(a: Entry, b: Entry) {
    a.content == b.content && (a.mode == b.mode || {a.mode, b.mode} == {Regular, Executable})
  }

  /** What is written over an entry that it matches is the same thing. */
  lemma MatchingIsNoLoss(before: Files, after: Files, sources: set<Path>, outs: seq<Output>)
    requires Ready(before, sources, outs) && Ready(after, sources, outs)
    requires SameOutside(before, after, sources + PathsOut(outs)) && before.Keys - sources <= after.Keys
    ensures NothingLost(before, after, sources)
  {
    forall p | p in before && p !in sources
      ensures p in after && SameThing(before[p], after[p])
    {
      assert p in before.Keys - sources;
      if p in PathsOut(outs) {
        var i :| 0 <= i < |outs| && outs[i].path == p;
        assert Matches(before[p], outs[i].entry) && Matches(after[p], outs[i].entry);
      }
    }
  }

  ghost predicate InPlace(files: Files, w: Output) {
    w.path in files && files[w.path] == w.entry
  }

  /** The file map a resolution is to produce: the sources gone, the outputs in place, all else as it was. */
  ghost function Target(before: Files, sources: set<Path>, outs: seq<Output>): Files
    requires Writable(outs)
  {
    (before - sources) + map i | 0 <= i < |outs| :: outs[i].path := outs[i].entry
  }

  /** The target, path by path. */
  lemma TargetAt(before: Files, sources: set<Path>, outs: seq<Output>, p: Path)
    requires Writable(outs)
    ensures var target := Target(before, sources, outs);
            && (forall i :: 0 <= i < |outs| && outs[i].path == p ==> p in target && target[p] == outs[i].entry)
            && (p !in PathsOut(outs) ==> (p in target <==> p in before && p !in sources) && (p in target ==> target[p] == before[p]))
  {}

  lemma TargetReached(before: Files, after: Files, sources: set<Path>, outs: seq<Output>)
    requires Writable(outs)
    requires SameOutside(before, after, sources + PathsOut(outs))
    requires forall i :: 0 <= i < |outs| ==> InPlace(after, outs[i])
    requires forall p :: p in sources && p !in PathsOut(outs) ==> p !in after
    ensures after == Target(before, sources, outs)
  {
    forall p
      ensures SameAt(Target(before, sources, outs), after, p)
    {
      TargetAt(before, sources, outs, p);
      if p in PathsOut(outs) {
        var i :| 0 <= i < |outs| && outs[i].path == p;
        assert InPlace(after, outs[i]);
      }
    }
    SameEverywhere(Target(before, sources, outs), after);
  }

  lemma SameEverywhere(a: Files, b: Files)
    requires forall p :: SameAt(a, b, p)
    ensures a == b
  {
    forall p
      ensures p in a <==> p in b
      ensures p in a ==> a[p] == b[p]
    {
      assert SameAt(a, b, p);
    }
  }

  /** The target depends only on what the run may not touch. */
  lemma TargetIsStable(a: Files, b: Files, sources: set<Path>, outs: seq<Output>)
    requires Writable(outs) && SameOutside(a, b, sources + PathsOut(outs))
    ensures Target(a, sources, outs) == Target(b, sources, outs)
  {
    forall p
      ensures SameAt(Target(a, sources, outs), Target(b, sources, outs), p)
    {
      TargetAt(a, sources, outs, p);
      TargetAt(b, sources, outs, p);
      if p in PathsOut(outs) {
        var i :| 0 <= i < |outs| && outs[i].path == p;
      }
    }
    SameEverywhere(Target(a, sources, outs), Target(b, sources, outs));
  }

  // ---------------------------------------------------------------- what a request comes to

  /** The path the conflict is shown at, and the one it was renamed from. */
  function OwnPaths(c: Conflict): set<Path> {
    if c.original == "" then {c.path} else {c.path, c.original}
  }

  /** The paths a request names for what it keeps. */
  function NamedPaths(r: Request): set<Path> {
    {r.resultPath, r.localPath, r.remotePath} - {""}
  }

  /** The side is there, and Git can say what it is. */
  predicate Presentable(side: Option<Stage>) {
    side.Some? && side.value.oid != "" && side.value.mode != OtherMode
  }

  /** A manual result is as executable as the local side, or else as the remote one. */
  function SideMode(c: Conflict): Mode {
    if c.local.Some? then c.local.value.mode
    else if c.remote.Some? then c.remote.value.mode
    else Regular
  }

  /** Named, and nothing that leads out of the worktree. */
  ghost predicate Usable(path: Path, wellFormed: Path -> bool) {
    path != "" && wellFormed(path)
  }

  /** The request answers this conflict with an action it offers, names the sides it was shown, and says no more
      than its action needs. */
  ghost predicate Answers(c: Conflict, r: Request, wellFormed: Path -> bool) {
    && r.action in c.actions
    && var blank := Request(c.id, c.path, r.action, "", None, "", "", "", "");
       match r.action
       case UseLocal =>
         && Presentable(c.local) && Usable(r.resultPath, wellFormed)
         && r == blank.(resultPath := r.resultPath, localOid := c.local.value.oid)
       case UseRemote =>
         && Presentable(c.remote) && Usable(r.resultPath, wellFormed)
         && r == blank.(resultPath := r.resultPath, remoteOid := c.remote.value.oid)
       case Manual =>
         && r.content.Some? && SideMode(c) != OtherMode && Usable(r.resultPath, wellFormed)
         && r == blank.(resultPath := r.resultPath, content := r.content)
       case KeepBoth =>
         && Presentable(c.local) && Presentable(c.remote)
         && Usable(r.localPath, wellFormed) && Usable(r.remotePath, wellFormed) && r.localPath != r.remotePath
         && r == blank.(localPath := r.localPath, remotePath := r.remotePath, localOid := c.local.value.oid, remoteOid := c.remote.value.oid)
       case Delete => r == blank
  }

  /** A request has a plan exactly if it answers the conflict and none of the paths involved is another conflict's. */
  lemma PlannableExactly(c: Conflict, conflicts: seq<Conflict>, r: Request, wellFormed: Path -> bool)
    ensures Plannable(c, conflicts, r, wellFormed)
            <==> Answers(c, r, wellFormed) && (forall p :: p in OwnPaths(c) ==> Usable(p, wellFormed))
                 && ClearOfOthers(OwnPaths(c) + NamedPaths(r), c, conflicts)
    ensures Plannable(c, conflicts, r, wellFormed) ==>
              AsSet(Sources(c, wellFormed).value) == OwnPaths(c) && Outputs(Writes(c, r).value) == NamedPaths(r)
  {
    var sources, written := Sources(c, wellFormed), Writes(c, r);
    if sources.Some? {
      OwnPathsAreSources(c, wellFormed);
    } else {
      assert c.path in OwnPaths(c);
      assert c.original != "" ==> c.original in OwnPaths(c);
    }
    if ValidResolution(c, r, wellFormed) && written.Some? {
      OutputsAreNamed(c, r, wellFormed);
    }
  }

  lemma OwnPathsAreSources(c: Conflict, wellFormed: Path -> bool)
    requires Sources(c, wellFormed).Some?
    ensures AsSet(Sources(c, wellFormed).value) == OwnPaths(c)
  {
    var sources := Sources(c, wellFormed).value;
    assert c.path in sources && (c.original == "" || c.original in sources);
  }

  lemma OutputsAreNamed(c: Conflict, r: Request, wellFormed: Path -> bool)
    requires ValidResolution(c, r, wellFormed) && Writes(c, r).Some?
    ensures Outputs(Writes(c, r).value) == NamedPaths(r)
  {
    var written := Writes(c, r).value;
    match r.action
    case UseLocal => assert written[0] in written;
    case UseRemote => assert written[0] in written;
    case Manual => assert written[0] in written;
    case KeepBoth => assert written[0] in written && written[1] in written;
    case Delete =>
  }

  ghost predicate Holds(files: Files, path: Path, mode: Mode, content: Text) {
    path in files && files[path] == Entry(mode, content)
  }

  /** The sides a request keeps, each at the path it names for that side. */
  ghost predicate Kept(after: Files, c: Conflict, r: Request, blob: string -> Text) {
    match r.action
    case UseLocal => c.local.Some? && Holds(after, r.resultPath, c.local.value.mode, blob(c.local.value.oid))
    case UseRemote => c.remote.Some? && Holds(after, r.resultPath, c.remote.value.mode, blob(c.remote.value.oid))
    case Manual => r.content.Some? && Holds(after, r.resultPath, SideMode(c), r.content.value)
    case KeepBoth =>
      && c.local.Some? && Holds(after, r.localPath, c.local.value.mode, blob(c.local.value.oid))
      && c.remote.Some? && Holds(after, r.remotePath, c.remote.value.mode, blob(c.remote.value.oid))
    case Delete => true
  }

  /** What stands at each path once the request is carried out: every side it keeps at the path it names for that
      side, the other paths of the conflict gone, and all else as it was. */
  ghost predicate Resolved(before: Files, after: Files, c: Conflict, r: Request, blob: string -> Text) {
    && Kept(after, c, r, blob)
    && (forall p :: p in OwnPaths(c) && p !in NamedPaths(r) ==> p !in after)
    && (forall p :: p !in OwnPaths(c) && p !in NamedPaths(r) ==> SameAt(before, after, p))
  }

  /** An output that was planned is in the target. */
  lemma WrittenIsThere(before: Files, sources: set<Path>, written: seq<Write>, blob: string -> Text, w: Write)
    requires |written| <= 2 && w in written && Writable(Materialize(SortWrites(written), blob))
    ensures Holds(Target(before, sources, Materialize(SortWrites(written), blob)), w.path, w.mode, if w.stage == 0 then w.data else blob(w.oid))
  {
    var sorted := SortWrites(written);
    assert written == if |written| == 1 then [written[0]] else [written[0], written[1]];
    var k :| 0 <= k < |sorted| && sorted[k] == w;
    var outs := Materialize(sorted, blob);
    TargetAt(before, sources, outs, w.path);
    assert outs[k].path == w.path;
  }

  /** The target away from the outputs. */
  lemma RestOfTarget(before: Files, own: set<Path>, named: set<Path>, outs: seq<Output>)
    requires Writable(outs) && PathsOut(outs) == named
    ensures var target := Target(before, own, outs);
            && (forall p :: p in own && p !in named ==> p !in target)
            && (forall p :: p !in own && p !in named ==> SameAt(before, target, p))
  {
    forall p | p !in named
      ensures p in own ==> p !in Target(before, own, outs)
      ensures p !in own ==> SameAt(before, Target(before, own, outs), p)
    {
      TargetAt(before, own, outs, p);
    }
  }

  lemma KeptWhenWritten(after: Files, c: Conflict, r: Request, blob: string -> Text)
    requires Writes(c, r).Some?
    requires forall w :: w in Writes(c, r).value ==> Holds(after, w.path, w.mode, if w.stage == 0 then w.data else blob(w.oid))
    ensures Kept(after, c, r, blob)
  {
    var written := Writes(c, r).value;
    if r.action != Delete {
      assert written[0] in written;
    }
    if r.action == KeepBoth {
      assert written[1] in written;
    }
  }

  /** The target of a plan is what the request asks for. */
  lemma TargetIsResolved(before: Files, c: Conflict, conflicts: seq<Conflict>, r: Request, wellFormed: Path -> bool, blob: string -> Text)
    requires Plannable(c, conflicts, r, wellFormed)
    requires Writable(Materialize(SortWrites(Writes(c, r).value), blob))
    ensures Resolved(before, Target(before, AsSet(Sources(c, wellFormed).value), Materialize(SortWrites(Writes(c, r).value), blob)), c, r, blob)
  {
    PlannableExactly(c, conflicts, r, wellFormed);
    var written := Writes(c, r).value;
    var outs := Materialize(SortWrites(written), blob);
    SortedOutputs(written);
    MaterializedPaths(SortWrites(written), blob);
    RestOfTarget(before, OwnPaths(c), NamedPaths(r), outs);
    forall w | w in written
      ensures Holds(Target(before, OwnPaths(c), outs), w.path, w.mode, if w.stage == 0 then w.data else blob(w.oid))
    {
      WrittenIsThere(before, OwnPaths(c), written, blob, w);
    }
    KeptWhenWritten(Target(before, OwnPaths(c), outs), c, r, blob);
  }

  datatype Outcome = Done | Stale | Broken | NotFound | Invalid

  /** The repository's worktree. Each change of it may fail, or the process stop before it: the script says which. */
  class Worktree {
    var files: Files
    var script: seq<bool>
    ghost var failed: bool  // some change, or the staging, has failed

    ghost predicate Reliable()
      reads this
    {
      forall k :: 0 <= k < |script| ==> script[k]
    }

    method Try() returns (ok: bool)
      modifies this`script, this`failed
      ensures ok == (old(script) == [] || old(script)[0]) && script == if old(script) == [] then [] else old(script)[1..]
      ensures failed == (old(failed) || !ok)
      ensures old(Reliable()) ==> ok && Reliable()
    {
      ok := script == [] || script[0];
      script := if script == [] then [] else script[1..];
      failed := failed || !ok;
    }

    /** writeConflictEntry: create, or adopt an entry that already matches. */
    method WriteEntry(w: Output) returns (r: Outcome)
      requires w.entry.mode != OtherMode
      modifies this
      ensures files == old(files) || files == old(files)[w.path := w.entry]
      ensures r == Done ==> files == old(files)[w.path := w.entry]
      ensures r == Done ==> failed == old(failed)
      ensures r == Stale <==> w.path in old(files) && !Matches(old(files)[w.path], w.entry)
      ensures r == Stale ==> files == old(files)
      ensures r.Done? || r.Stale? || r.Broken?
      ensures old(Reliable()) ==> Reliable() && r != Broken
    {
      if w.path in files && !Matches(files[w.path], w.entry) {
        return Stale;
      }
      if w.path in files && w.entry.mode == Symlink {
        return Done;
      }
      var ok := Try();
      if !ok {
        return Broken;
      }
      files := files[w.path := w.entry];
      r := Done;
    }

    /** Removing one entry that has to be a file or a link. */
    method RemoveEntry(path: Path) returns (r: Outcome)
      modifies this
      ensures files == old(files) || files == old(files) - {path}
      ensures r == Done ==> files == old(files) - {path}
      ensures r == Done ==> failed == old(failed)
      ensures r != Stale
      ensures old(Reliable()) ==> Reliable() && (r == Done <==> (path in old(files) ==> old(files)[path].mode != OtherMode))
    {
      if path !in files {
        return Done;
      }
      if files[path].mode == OtherMode {
        return Broken;
      }
      var ok := Try();
      if !ok {
        return Broken;
      }
      files := files - {path};
      r := Done;
    }

    /** One output that is no source of the conflict. */
    method WriteOutput(outs: seq<Output>, k: nat, ghost sources: set<Path>) returns (r: Outcome)
      requires Writable(outs) && k < |outs| && outs[k].path !in sources
      modifies this
      ensures SameOutside(old(files), files, {outs[k].path}) && old(files).Keys <= files.Keys
      ensures old(Ready(files, sources, outs)) ==> Ready(files, sources, outs)
      ensures r == Done ==> InPlace(files, outs[k])
      ensures r == Done ==> failed == old(failed)
      ensures old(Reliable()) ==> Reliable() && (old(Ready(files, sources, outs)) ==> r == Done)
    {
      r := WriteEntry(outs[k]);
    }

    /** writeNonSourceResolutionOutputs */
    method WriteNonSourceOutputs(sources: set<Path>, outs: seq<Output>) returns (r: Outcome)
      requires Writable(outs)
      modifies this
      ensures SameOutside(old(files), files, PathsOut(outs) - sources) && old(files).Keys <= files.Keys
      ensures old(Ready(files, sources, outs)) ==> Ready(files, sources, outs)
      ensures r == Done ==> forall i :: 0 <= i < |outs| && outs[i].path !in sources ==> InPlace(files, outs[i])
      ensures r == Done ==> failed == old(failed)
      ensures old(Reliable()) && old(Ready(files, sources, outs)) ==> Reliable() && r == Done
    {
      ghost var ready, reliable := Ready(files, sources, outs), Reliable();
      for k := 0 to |outs|
        invariant SameOutside(old(files), files, PathsOut(outs) - sources) && old(files).Keys <= files.Keys
        invariant ready ==> Ready(files, sources, outs)
        invariant forall i :: 0 <= i < k && outs[i].path !in sources ==> InPlace(files, outs[i])
        invariant reliable ==> Reliable()
        invariant failed == old(failed)
      {
        if outs[k].path !in sources {
          ghost var before := files;
          var written := WriteOutput(outs, k, sources);
          assert outs[k].path in PathsOut(outs);
          if written != Done {
            return written;
          }
          forall i | 0 <= i < k && outs[i].path !in sources
            ensures InPlace(files, outs[i])
          {
            assert InPlace(before, outs[i]) && outs[i].path != outs[k].path;
          }
        }
      }
      r := Done;
    }

    /** removeResolutionSources */
    method RemoveSources(removePaths: set<Path>) returns (r: Outcome)
      modifies this
      ensures SameOutside(old(files), files, removePaths)
      ensures r == Done ==> forall p :: p in removePaths ==> p !in files
      ensures r == Done ==> failed == old(failed)
      ensures r != Stale
      ensures forall p :: p in files ==> p in old(files) && files[p] == old(files)[p]
      ensures old(Reliable()) && old(Removable(files, removePaths)) ==> Reliable() && r == Done
    {
      var remaining := removePaths;
      while remaining != {}
        invariant remaining <= removePaths
        invariant SameOutside(old(files), files, removePaths - remaining)
        invariant forall p :: p in removePaths && p !in remaining ==> p !in files
        invariant forall p :: p in files ==> p in old(files) && files[p] == old(files)[p]
        invariant old(Reliable()) ==> Reliable()
        invariant failed == old(failed)
        decreases |remaining|
      {
        var name :| name in remaining;
        assert SameAt(old(files), files, name);
        var removed := RemoveEntry(name);
        if removed != Done {
          return removed;
        }
        remaining := remaining - {name};
      }
      r := Done;
    }

    /** writeSourceResolutionOutputs: an output on a path of the conflict itself replaces what is there. */
    method WriteSourceOutputs(sources: set<Path>, outs: seq<Output>) returns (r: Outcome)
      requires Writable(outs)
      modifies this
      ensures SameOutside(old(files), files, PathsOut(outs) * sources)
      ensures r == Done ==> forall i :: 0 <= i < |outs| && outs[i].path in sources ==> InPlace(files, outs[i])
      ensures r == Done ==> failed == old(failed)
      ensures r != Stale
      ensures old(Removable(files, sources)) ==> Removable(files, sources)
      ensures old(Reliable()) && old(Removable(files, sources)) ==> Reliable() && r == Done
    {
      for k := 0 to |outs|
        invariant SameOutside(old(files), files, PathsOut(outs) * sources)
        invariant forall i :: 0 <= i < k && outs[i].path in sources ==> InPlace(files, outs[i])
        invariant old(Removable(files, sources)) ==> Removable(files, sources)
        invariant old(Reliable()) ==> Reliable()
        invariant failed == old(failed)
      {
        assert outs[k].path in PathsOut(outs);
        if outs[k].path in sources {
          var replaced := ReplaceEntry(outs[k], sources);
          if replaced != Done {
            return replaced;
          }
        }
      }
      r := Done;
    }

    /** removeMismatchedSourceResolutionOutput, then the write. */
    method ReplaceEntry(w: Output, ghost sources: set<Path>) returns (r: Outcome)
      requires w.entry.mode != OtherMode && w.path in sources
      modifies this
      ensures SameOutside(old(files), files, {w.path})
      ensures old(Removable(files, sources)) ==> Removable(files, sources)
      ensures r == Done ==> InPlace(files, w)
      ensures r == Done ==> failed == old(failed)
      ensures r != Stale
      ensures old(Reliable()) ==> Reliable() && (old(Removable(files, sources)) ==> r == Done)
    {
      if w.path in files && !Matches(files[w.path], w.entry) {
        var removed := RemoveEntry(w.path);
        if removed != Done {
          return removed;
        }
      }
      r := WriteEntry(w);
    }

    /** verifyResolutionDestinations */
    method VerifyDestinations(sources: set<Path>, outs: seq<Output>, tracked: set<Path>) returns (ok: bool)
      ensures ok <==> Verified(files, sources, outs, tracked)
    {
      for k := 0 to |outs|
        invariant forall i :: 0 <= i < k && outs[i].path !in sources ==>
                                outs[i].path !in tracked && (outs[i].path in files ==> Matches(files[outs[i].path], outs[i].entry))
      {
        var w := outs[k];
        if w.path !in sources && (w.path in tracked || (w.path in files && !Matches(files[w.path], w.entry))) {
          return false;
        }
      }
      ok := true;
    }

    /** The three phases. */
    method Rewrite(plan: Plan, sources: set<Path>, outs: seq<Output>, ghost tracked: set<Path>) returns (r: Outcome)
      requires Writable(outs) && plan.removePaths == sources - PathsOut(outs) && Verified(files, sources, outs, tracked)
      modifies this
      ensures SameOutside(old(files), files, sources + PathsOut(outs)) && old(files).Keys - sources <= files.Keys
      ensures Verified(files, sources, outs, tracked)
      ensures old(Removable(files, sources)) ==> Removable(files, sources)
      ensures r == Done ==> files == Target(old(files), sources, outs) && failed == old(failed)
      ensures old(Reliable()) && old(Removable(files, sources)) ==> Reliable() && r == Done
    {
      assert PathsOut(outs) - sources <= sources + PathsOut(outs);
      r := WriteNonSourceOutputs(sources, outs);
      if r != Done {
        return;
      }
      assert forall p :: p in sources ==> SameAt(old(files), files, p);
      r := RemoveSources(plan.removePaths);
      if r != Done {
        return;
      }
      r := WriteSourceOutputs(sources, outs);
      if r != Done {
        return;
      }
      TargetReached(old(files), files, sources, outs);
    }

    /** The worktree part of ResolveConflict: verify, then the three phases, then stage. Wherever it stops,
        only the conflict's own paths and the outputs have changed and the run can be repeated. */
    method CarryOut(plan: Plan, sources: set<Path>, outs: seq<Output>, tracked: set<Path>) returns (r: Outcome)
      requires Writable(outs) && plan.removePaths == sources - PathsOut(outs)
      modifies this
      ensures SameOutside(old(files), files, sources + PathsOut(outs)) && NothingLost(old(files), files, sources)
      ensures old(Verified(files, sources, outs, tracked)) ==> Verified(files, sources, outs, tracked)
      ensures old(Removable(files, sources)) ==> Removable(files, sources)
      ensures !old(Verified(files, sources, outs, tracked)) ==> r == Stale && files == old(files)
      ensures r == Done ==> files == Target(old(files), sources, outs) && failed == old(failed)
      ensures old(Reliable()) && old(Removable(files, sources)) && old(Verified(files, sources, outs, tracked)) ==> r == Done
    {
      var verified := VerifyDestinations(sources, outs, tracked);
      if !verified {
        return Stale;
      }
      r := Rewrite(plan, sources, outs, tracked);
      MatchingIsNoLoss(old(files), files, sources, outs);
      if r != Done {
        return;
      }
      var staged := Try();
      r := if staged then Done else Broken;
    }

    /** Stopping after any change of the worktree and resolving again gives the same files as an undisturbed run. */
    method StopAndRunAgain(plan: Plan, sources: set<Path>, outs: seq<Output>, tracked: set<Path>, later: seq<bool>) returns (r: Outcome)
      requires Writable(outs) && plan.removePaths == sources - PathsOut(outs)
      modifies this
      ensures r == Done ==> files == Target(old(files), sources, outs)
      ensures old(Verified(files, sources, outs, tracked)) && old(Removable(files, sources)) && (forall k :: 0 <= k < |later| ==> later[k]) ==>
                r == Done
    {
      r := CarryOut(plan, sources, outs, tracked);
      if r == Done {
        return;
      }
      TargetIsStable(old(files), files, sources, outs);
      script := later;
      assert (forall k :: 0 <= k < |later| ==> later[k]) ==> Reliable();
      r := CarryOut(plan, sources, outs, tracked);
    }

    static ghost predicate Known(conflicts: seq<Conflict>, r: Request) {
      exists c :: c in conflicts && (c.id == r.conflictId || c.path == r.path)
    }

    static function FirstMatch(conflicts: seq<Conflict>, r: Request): Option<Conflict> {
      if conflicts == [] then None
      else if conflicts[0].id == r.conflictId && conflicts[0].path == r.path then Some(conflicts[0])
      else FirstMatch(conflicts[1..], r)
    }

    /** Planning finds the conflict and a plan, in both inspections alike, and nothing stands in the way of it. */
    ghost predicate Feasible(snapshot: seq<Conflict>, inside: seq<Conflict>, r: Request, wellFormed: Path -> bool,
                             tracked: set<Path>, blob: string -> Text)
      reads this
    {
      var c := FirstMatch(snapshot, r);
      && c.Some? && FirstMatch(inside, r) == c
      && Plannable(c.value, snapshot, r, wellFormed) && Plannable(c.value, inside, r, wellFormed)
      && var sources := AsSet(Sources(c.value, wellFormed).value);
         Removable(files, sources)
         && Verified(files, sources, Materialize(SortWrites(Writes(c.value, r).value), blob), tracked)
    }

    /** conflictForResolution: the first conflict with the requested id and path; `known` when only one of them fits. */
    static method ConflictForResolution(conflicts: seq<Conflict>, r: Request) returns (found: Option<Conflict>, known: bool)
      ensures found == FirstMatch(conflicts, r)
      ensures found.Some? <==> exists c :: c in conflicts && c.id == r.conflictId && c.path == r.path
      ensures found.Some? ==> found.value in conflicts && found.value.id == r.conflictId && found.value.path == r.path
      ensures known <==> Known(conflicts, r)
    {
      known := false;
      for k := 0 to |conflicts|
        invariant forall i :: 0 <= i < k ==> conflicts[i].id != r.conflictId || conflicts[i].path != r.path
        invariant FirstMatch(conflicts, r) == FirstMatch(conflicts[k..], r)
        invariant known <==> exists i :: 0 <= i < k && (conflicts[i].id == r.conflictId || conflicts[i].path == r.path)
      {
        var c := conflicts[k];
        if c.id == r.conflictId && c.path == r.path {
          return Some(c), true;
        }
        known := known || c.id == r.conflictId || c.path == r.path;
      }
      found := None;
    }

    /** ResolveConflict: plan on one inspection, plan again inside the worktree, and carry the plan out.
        `inside` is what the second inspection finds; paths of its other conflicts keep what they hold. */
    method ResolveConflict(snapshot: seq<Conflict>, inside: seq<Conflict>, request: Request, wellFormed: Path -> bool,
                           tracked: set<Path>, blob: string -> Text)
      returns (r: Outcome, ghost selected: Option<Conflict>)
      modifies this
      ensures selected.None? ==> files == old(files) && r != Done
      ensures FirstMatch(snapshot, request).None? ==> r == if Known(snapshot, request) then Stale else NotFound
      ensures FirstMatch(snapshot, request).Some? && !Plannable(FirstMatch(snapshot, request).value, snapshot, request, wellFormed) ==> r == Invalid
      ensures old(Reliable()) && old(Feasible(snapshot, inside, request, wellFormed, tracked, blob)) ==> r == Done
      ensures r == Done ==> failed == old(failed)
      ensures selected.Some? ==> selected.value in inside && Plannable(selected.value, inside, request, wellFormed)
      ensures selected.Some? ==>
                var sources, outputs := AsSet(Sources(selected.value, wellFormed).value), Outputs(Writes(selected.value, request).value);
                && SameOutside(old(files), files, sources + outputs) && NothingLost(old(files), files, OwnPaths(selected.value))
                && (forall other, p :: other in inside && Another(other, selected.value) && p in PathsOf(other) ==>
                                         SameAt(old(files), files, p))
      ensures r == Done ==>
                selected.Some?
                && var outs := Materialize(SortWrites(Writes(selected.value, request).value), blob);
                   Writable(outs) && files == Target(old(files), AsSet(Sources(selected.value, wellFormed).value), outs)
      ensures r == Done ==> Answers(selected.value, request, wellFormed) && Resolved(old(files), files, selected.value, request, blob)
    {
      selected := None;
      var found, known := ConflictForResolution(snapshot, request);
      if found.None? {
        return if known then Stale else NotFound, None;
      }
      var plan := BuildResolutionPlan(found.value, snapshot, request, wellFormed);
      if plan.None? {
        return Invalid, None;
      }
      var entered := Try();
      if !entered {
        return Broken, None;
      }
      var current, _ := ConflictForResolution(inside, request);
      if current.None? {
        return Stale, None;
      }
      var currentPlan := BuildResolutionPlan(current.value, inside, request, wellFormed);
      if currentPlan.None? {
        return Invalid, None;
      }
      if plan != currentPlan {
        return Stale, None;
      }
      selected := current;
      var sources := AsSet(Sources(current.value, wellFormed).value);
      var outs := Materialize(currentPlan.value.writes, blob);
      MaterializedPlan(currentPlan.value, Sources(current.value, wellFormed).value, Writes(current.value, request).value, blob);
      r := CarryOut(currentPlan.value, sources, outs, tracked);
      TargetIsResolved(old(files), current.value, inside, request, wellFormed, blob);
      PlannableExactly(current.value, inside, request, wellFormed);
    }
  }
}
