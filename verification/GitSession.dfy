/** One Git operation at work: the local repository, the remote branch, the operation's journal row,
    and the commands that move them.

    Each command is one step.  What the outside does around a step - another client moving the remote,
    a process crash just before or just after the command, a command that fails, a command that is
    applied but reported as failed - is read from a script, so a statement about every script is a
    statement about every run, every crash point and every interleaving with the remote. */
module GitSession {
  import opened Basics
  import opened CommitGraph
  import opened Errors
  import opened Journal

  /** `Conflicted` is the source's ConflictError; `interrupted` says that an ambiguous-merge error is joined to it. */
  datatype Failure = Safe(code: ErrorCode) | Conflicted(paths: set<Path>, interrupted: bool)

  /** How a call ends.  `Crashed` is the process dying: nothing after it runs. */
  datatype Result<+T> = Ok(value: T) | Err(failure: Failure) | Crashed {
    predicate IsFailure() { !Ok? }

    function PropagateFailure<U>(): Result<U>
      requires IsFailure()
    {
      match this
      case Err(f) => Result<U>.Err(f)
      case Crashed => Result<U>.Crashed
    }

    function Extract(): T
      requires !IsFailure()
    {
      value
    }
  }

  /** The refs the protocol reads and writes. `fetched` is the operation's private fetch ref, `managed`
      the trusted remote ref, `remote` the branch on the server. */
  datatype Repository = Repository(
    head: Oid,
    mergeHead: Oid,
    unmerged: set<Path>,
    fetched: Oid,
    managed: Oid,
    remote: Oid)

  datatype Fate = Done | Refused | LostReply | CrashBefore | CrashAfter

  datatype MergeFate = MergeClean | MergeConflict(paths: set<Path>) | MergeStuck | MergeRefused

  /** What surrounds one step. */
  datatype Tick = Tick(
    fate: Fate,
    remoteMoves: bool, remote: Oid,
    content: nat,
    dirty: bool,
    merge: MergeFate,
    paths: set<Path>,
    code: ErrorCode)

  const QUIET := Tick(Done, false, None, 0, false, MergeClean, {}, CommandFailed)

  /** The next step's surroundings. */
  function Head(script: seq<Tick>): Tick {
    if script == [] then QUIET else script[0]
  }

  function Rest(script: seq<Tick>): seq<Tick> {
    if script == [] then [] else script[1..]
  }

  /** The surroundings of the n-th step from here. */
  function Ahead(script: seq<Tick>, n: nat): Tick {
    if n < |script| then script[n] else QUIET
  }

  /** From here on every command works and nobody else moves the remote branch. */
  ghost predicate Calm(script: seq<Tick>) {
    forall t :: t in script ==> t.fate == Done && !t.remoteMoves
  }

  /** From here on every merge that Git accepts is clean. */
  ghost predicate Clean(script: seq<Tick>) {
    forall t :: t in script ==> t.merge == MergeClean
  }

  /** From here on every command works, whoever moves the remote branch. */
  ghost predicate Steady(script: seq<Tick>) {
    forall t :: t in script ==> t.fate == Done
  }

  /** No command that fails for a reason of its own says that a push was rejected. */
  ghost predicate Honest(script: seq<Tick>) {
    forall t :: t in script ==> t.fate == Done || t.code != PushRejected
  }

  /** A later part of the same script. */
  ghost predicate Follows(before: seq<Tick>, after: seq<Tick>) {
    forall t :: t in after ==> t in before
  }

  /** From here on every command works, and other clients move the remote branch to this commit at most. */
  ghost predicate Settles(script: seq<Tick>, oid: Commit) {
    forall t :: t in script ==> t.fate == Done && (t.remoteMoves ==> t.remote == Some(oid))
  }

  /** The remote branch is where it was, or where another client moves it. */
  ghost predicate MovedBy(script: seq<Tick>, remote: Oid, now: Oid) {
    now == remote || exists t :: t in script && t.remoteMoves && t.remote == now
  }

  /** The steps that publish a commit or extend trust, with the refs and the row they were issued under;
      `seen` is the remote commit that was read last. */
  datatype Effect =
    | Push(oid: Commit, accepted: bool, seen: Oid, head: Oid, managed: Oid, row: Operation)
    | Trust(oid: Commit, head: Oid, managed: Oid, fetched: Oid, row: Operation)

  function Pushes(effects: seq<Effect>): nat {
    if effects == [] then 0
    else Pushes(effects[..|effects| - 1]) + if effects[|effects| - 1].Push? then 1 else 0
  }

  /** The repository of a session after the environment may have moved the remote branch. */
  predicate SameLocal(a: Repository, b: Repository) {
    a.(remote := b.remote) == b
  }

  /** No merge is in progress and no path is unmerged. */
  predicate NoMerge(repo: Repository) {
    repo.mergeHead.None? && repo.unmerged == {}
  }

  /** A non-forced push is taken only if the branch is absent or an ancestor of what is pushed. */
  predicate FastForwards(remote: Oid, pushed: Commit) {
    remote.None? || IsAncestor(remote.value, pushed)
  }

  class Session {
    var repo: Repository
    var row: Operation
    var cp: Checkpoint
    var script: seq<Tick>
    ghost var effects: seq<Effect>
    ghost var seen: Oid
    ghost var stages: seq<Stage>  // the stages whose checkpoint reached the row, in order

    constructor (repo: Repository, row: Operation, script: seq<Tick>)
      ensures this.repo == repo && this.row == row && this.script == script
      ensures cp == CheckpointOf(row) && effects == []
    {
      this.repo := repo;
      this.row := row;
      this.script := script;
      cp := CheckpointOf(row);
      effects := [];
      seen := None;
      stages := [];
    }

    /** The next step's surroundings; the other clients act on the remote first. */
    method Next() returns (t: Tick)
      modifies this`script, this`repo
      ensures t == Head(old(script)) && script == Rest(old(script)) && Follows(old(script), script)
      ensures repo == if t.remoteMoves then old(repo).(remote := t.remote) else old(repo)
      ensures MovedBy(old(script), old(repo).remote, repo.remote)
      ensures (Steady(old(script)) ==> t.fate == Done) && (Honest(old(script)) ==> t.fate == Done || t.code != PushRejected)
      ensures Calm(old(script)) ==> t.fate == Done && !t.remoteMoves
      ensures Clean(old(script)) ==> t.merge == MergeClean
    {
      t := QUIET;
      if script != [] {
        t := script[0];
        script := script[1..];
      }
      if t.remoteMoves {
        repo := repo.(remote := t.remote);
      }
    }

    /** A read-only command or inspection. */
    method Inspect() returns (r: Result<Tick>)
      modifies this`script, this`repo
      ensures SameLocal(old(repo), repo) && Follows(old(script), script)
      ensures Calm(old(script)) ==> r.Ok? && repo == old(repo)
      ensures MovedBy(old(script), old(repo).remote, repo.remote) && (Steady(old(script)) ==> r.Ok?)
      ensures r.Ok? ==> r.value == Head(old(script)) && script == Rest(old(script))
      ensures r.Ok? <==> Head(old(script)).fate == Done
      ensures r.Err? ==> r.failure.Safe?
    {
      var t := Next();
      match t.fate
      case Done => r := Ok(t);
      case Refused => r := Err(Safe(t.code));
      case LostReply => r := Err(Safe(t.code));
      case CrashBefore => r := Crashed;
      case CrashAfter => r := Crashed;
    }

    /** `git ls-remote` of the selected branch. */
    method ReadRemote() returns (r: Result<Commit>)
      modifies this`script, this`repo, this`seen
      ensures SameLocal(old(repo), repo) && Follows(old(script), script)
      ensures Calm(old(script)) ==> repo == old(repo) && (r.Ok? <==> repo.remote.Some?)
      ensures MovedBy(old(script), old(repo).remote, repo.remote) && (Steady(old(script)) ==> !r.Crashed? && (r.Ok? <==> repo.remote.Some?))
      ensures r.Ok? ==> repo.remote == Some(r.value) == seen
    {
      var _ :- Inspect();
      if repo.remote.None? {
        return Err(Safe(BranchDeleted));
      }
      seen := repo.remote;
      r := Ok(repo.remote.value);
    }

    /** checkpoint.save: the in-memory value becomes the row, unless the write fails. A failure after
        the write (the status row could not be published) is reported although the row has changed. */
    method Save(stage: Stage) returns (r: Result<()>)
      modifies this`script, this`repo, this`row, this`cp, this`stages
      ensures SameLocal(old(repo), repo) && Follows(old(script), script)
      ensures Calm(old(script)) ==> repo == old(repo) && !r.Crashed? && (r.Ok? <==> old(row).Active())
      ensures MovedBy(old(script), old(repo).remote, repo.remote)
      ensures Steady(old(script)) ==> !r.Crashed? && (r.Ok? <==> old(row).Active())
      ensures r.Err? ==> r.failure.Safe?
      ensures cp == old(cp).(stage := stage)
      ensures (row == old(row) && stages == old(stages))
              || (old(row).Active() && row == Checkpointed(old(row), cp) && stages == old(stages) + [stage])
      ensures r.Ok? ==> old(row).Active() && row == Checkpointed(old(row), cp) && stages == old(stages) + [stage] && script == Rest(old(script))
    {
      cp := cp.(stage := stage);
      var t := Next();
      if t.fate == CrashBefore {
        return Crashed;
      }
      if t.fate == Refused || !row.Active() {
        return Err(Safe(CommandFailed));
      }
      row := Checkpointed(row, cp);
      stages := stages + [stage];
      if t.fate == CrashAfter {
        return Crashed;
      }
      if t.fate == LostReply {
        return Err(Safe(CommandFailed));
      }
      r := Ok(());
    }

    /** `git fetch` of the branch into the private ref, forced. */
    method Fetch() returns (r: Result<()>)
      modifies this`script, this`repo
      ensures repo.(fetched := old(repo).fetched, remote := old(repo).remote) == old(repo) && Follows(old(script), script)
      ensures Calm(old(script)) ==> repo.remote == old(repo).remote && (r.Ok? <==> repo.remote.Some?)
      ensures MovedBy(old(script), old(repo).remote, repo.remote) && (Steady(old(script)) ==> (r.Ok? <==> repo.remote.Some?))
      ensures repo.fetched == old(repo).fetched || repo.fetched == repo.remote
      ensures r.Ok? ==> repo.fetched == repo.remote && repo.fetched.Some?
    {
      var t := Next();
      if t.fate == CrashBefore {
        return Crashed;
      }
      if t.fate == Refused || repo.remote.None? {
        return Err(Safe(t.code));
      }
      repo := repo.(fetched := repo.remote);
      r := if t.fate == CrashAfter then Crashed else if t.fate == LostReply then Err(Safe(t.code)) else Ok(());
    }

    /** `git update-ref managed to expected`: compare and swap, `expected` None meaning absent. */
    method UpdateTrust(to: Commit, expected: Oid) returns (r: Result<()>)
      modifies this`script, this`repo, this`effects
      ensures script == Rest(old(script)) && Follows(old(script), script)
      ensures Calm(old(script)) ==> repo.remote == old(repo).remote && !r.Crashed? && (r.Ok? <==> old(repo).managed == expected)
      ensures MovedBy(old(script), old(repo).remote, repo.remote)
      ensures Steady(old(script)) ==> !r.Crashed? && (r.Ok? <==> old(repo).managed == expected)
      ensures Head(old(script)).fate == LostReply && old(repo).managed == expected ==> r.Err? && repo.managed == Some(to)
      ensures Pushes(effects) == Pushes(old(effects))
      ensures repo.(managed := old(repo).managed, remote := old(repo).remote) == old(repo)
      ensures (repo.managed == old(repo).managed && effects == old(effects))
              || (old(repo).managed == expected && repo.managed == Some(to)
                  && effects == old(effects) + [Trust(to, old(repo).head, expected, old(repo).fetched, row)])
      ensures r.Ok? ==> old(repo).managed == expected && repo.managed == Some(to)
                        && effects == old(effects) + [Trust(to, old(repo).head, expected, old(repo).fetched, row)]
    {
      var t := Next();
      if t.fate == CrashBefore {
        return Crashed;
      }
      if t.fate == Refused || repo.managed != expected {
        return Err(Safe(t.code));
      }
      effects := effects + [Trust(to, repo.head, repo.managed, repo.fetched, row)];
      assert effects[..|effects| - 1] == old(effects);
      repo := repo.(managed := Some(to));
      r := if t.fate == CrashAfter then Crashed else if t.fate == LostReply then Err(Safe(t.code)) else Ok(());
    }

    /** A compare and swap whose failure is looked into: if the ref holds the value after all, it counts as done. */
    method SwapTrust(to: Commit, expected: Oid) returns (r: Result<()>)
      modifies this`script, this`repo, this`effects
      ensures Follows(old(script), script)
      ensures Calm(old(script)) ==>
                repo.remote == old(repo).remote && !r.Crashed? && (r.Ok? <==> old(repo).managed == expected || old(repo).managed == Some(to))
      ensures MovedBy(old(script), old(repo).remote, repo.remote)
      ensures Steady(old(script)) ==> !r.Crashed? && (r.Ok? <==> old(repo).managed == expected || old(repo).managed == Some(to))
      ensures Head(old(script)).fate == LostReply && old(repo).managed == expected && Head(Rest(old(script))).fate == Done ==> r.Ok?
      ensures Pushes(effects) == Pushes(old(effects))
      ensures repo.(managed := old(repo).managed, remote := old(repo).remote) == old(repo)
      ensures (repo.managed == old(repo).managed && effects == old(effects))
              || (old(repo).managed == expected && repo.managed == Some(to)
                  && effects == old(effects) + [Trust(to, old(repo).head, expected, old(repo).fetched, row)])
      ensures r.Ok? ==> repo.managed == Some(to)
    {
      r := UpdateTrust(to, expected);
      if r.Err? {
        var _ :- Inspect();
        if repo.managed == Some(to) {
          r := Ok(());
        }
      }
    }

    /** `git push origin oid:branch`, without force. The server may refuse what would fast-forward. */
    method PushBranch(oid: Commit) returns (r: Result<()>)
      modifies this`script, this`repo, this`effects
      ensures Pushes(effects) <= Pushes(old(effects)) + 1
      ensures SameLocal(old(repo), repo) && Follows(old(script), script)
      ensures Calm(old(script)) ==> !r.Crashed? && (r.Ok? <==> FastForwards(old(repo).remote, oid))
      ensures Steady(old(script)) ==> !r.Crashed? && (r.Err? ==> r.failure == Safe(PushRejected))
      ensures !r.Ok? && Steady(old(script)) ==> MovedBy(old(script), old(repo).remote, repo.remote) && !FastForwards(repo.remote, oid)
      ensures r == Err(Safe(PushRejected)) && Honest(old(script)) ==>
                !FastForwards(repo.remote, oid) && effects == old(effects) + [Push(oid, false, seen, old(repo).head, old(repo).managed, row)]
      ensures effects == old(effects)
              || effects == old(effects) + [Push(oid, true, seen, old(repo).head, old(repo).managed, row)]
              || effects == old(effects) + [Push(oid, false, seen, old(repo).head, old(repo).managed, row)]
      ensures r.Ok? ==> repo.remote == Some(oid)
      ensures r.Ok? ==> effects == old(effects) + [Push(oid, true, seen, old(repo).head, old(repo).managed, row)]
    {
      var t := Next();
      if t.fate == CrashBefore {
        return Crashed;
      }
      var accepted := t.fate != Refused && FastForwards(repo.remote, oid);
      effects := effects + [Push(oid, accepted, seen, repo.head, repo.managed, row)];
      assert effects[..|effects| - 1] == old(effects);
      if !accepted {
        return Err(Safe(if t.fate == Refused then t.code else PushRejected));
      }
      repo := repo.(remote := Some(oid));
      r := if t.fate == CrashAfter then Crashed else if t.fate == LostReply then Err(Safe(t.code)) else Ok(());
    }

    /** `git commit` of whatever is staged onto HEAD. */
    method CommitStaged() returns (r: Result<()>)
      modifies this`script, this`repo
      ensures repo.(head := old(repo).head, remote := old(repo).remote) == old(repo)
      ensures Follows(old(script), script) && (Calm(old(script)) ==> r.Ok? && repo.remote == old(repo).remote)
      ensures MovedBy(old(script), old(repo).remote, repo.remote) && (Steady(old(script)) ==> r.Ok?)
      ensures r.Err? ==> r.failure.Safe?
      ensures KeepsHistory(old(repo).head, repo.head)
      ensures repo.head == old(repo).head || repo.head == Some(CommitOn(Head(old(script)).content, old(repo).head))
      ensures r.Ok? ==> repo.head == Some(CommitOn(Head(old(script)).content, old(repo).head))
    {
      var t := Next();
      if t.fate == CrashBefore {
        return Crashed;
      }
      if t.fate == Refused {
        return Err(Safe(t.code));
      }
      repo := repo.(head := Some(CommitOn(t.content, repo.head)));
      r := if t.fate == CrashAfter then Crashed else if t.fate == LostReply then Err(Safe(t.code)) else Ok(());
    }

    /** `git commit` concluding a merge: the parents are HEAD and MERGE_HEAD, in that order. */
    method CommitMerge(head: Commit, other: Commit) returns (r: Result<()>)
      requires repo.head == Some(head) && repo.mergeHead == Some(other) && repo.unmerged == {}
      modifies this`script, this`repo
      ensures SameLocal(old(repo), repo)
              || exists content :: SameLocal(old(repo).(head := Some(Commit(content, [head, other])), mergeHead := None), repo)
      ensures r.Ok? ==> repo.mergeHead.None?
      ensures Follows(old(script), script) && (Calm(old(script)) ==> r.Ok? && repo.remote == old(repo).remote)
    {
      var t := Next();
      if t.fate == CrashBefore {
        return Crashed;
      }
      if t.fate == Refused {
        return Err(Safe(t.code));
      }
      repo := repo.(head := Some(Commit(t.content, [head, other])), mergeHead := None);
      r := if t.fate == CrashAfter then Crashed else if t.fate == LostReply then Err(Safe(t.code)) else Ok(());
    }

    /** `git merge --abort`: index and worktree go back to HEAD. */
    method AbortMerge() returns (r: Result<()>)
      requires repo.mergeHead.Some?
      modifies this`script, this`repo
      ensures SameLocal(old(repo), repo) || SameLocal(old(repo).(mergeHead := None, unmerged := {}), repo)
      ensures r.Ok? ==> repo.mergeHead.None?
      ensures Follows(old(script), script) && (Calm(old(script)) ==> r.Ok? && repo.remote == old(repo).remote)
    {
      var t := Next();
      if t.fate == CrashBefore {
        return Crashed;
      }
      if t.fate == Refused {
        return Err(Safe(t.code));
      }
      repo := repo.(mergeHead := None, unmerged := {});
      r := if t.fate == CrashAfter then Crashed else if t.fate == LostReply then Err(Safe(t.code)) else Ok(());
    }

    /** `git merge other`. A conflict or an interrupted merge leaves HEAD in place and records
        MERGE_HEAD; a refused merge changes nothing. */
    method Merge(head: Commit, other: Commit) returns (r: Result<()>)
      requires repo.head == Some(head) && repo.mergeHead.None? && repo.unmerged == {}
      modifies this`script, this`repo
      ensures repo.(head := old(repo).head, mergeHead := None, unmerged := {}, remote := old(repo).remote) == old(repo)
      ensures KeepsHistory(old(repo).head, repo.head)
      ensures AddsOnly(repo.head, old(repo).head, Some(other))
      ensures r.Ok? ==> repo.head.Some? && IsAncestor(other, repo.head.value)
      ensures repo.mergeHead.None? ==> repo.unmerged == {}
      ensures repo.mergeHead.Some? ==> repo.head == old(repo).head && repo.mergeHead == Some(other)
      ensures r.Ok? ==> repo.mergeHead.None?
      ensures Follows(old(script), script) && (Calm(old(script)) ==> !r.Crashed? && repo.remote == old(repo).remote)
      ensures MovedBy(old(script), old(repo).remote, repo.remote)
      ensures Steady(old(script)) ==> !r.Crashed?
      ensures Steady(old(script)) && Clean(old(script)) ==> r.Ok?
      ensures r.Err? ==> r.failure.Safe?
      ensures Calm(old(script)) && Head(old(script)).merge == MergeStuck ==> repo.mergeHead == Some(other)
      ensures Calm(old(script)) && Head(old(script)).merge.MergeConflict? ==>
                repo.mergeHead == Some(other) && repo.unmerged == Head(old(script)).merge.paths
    {
      var t := Next();
      if t.fate == CrashBefore {
        return Crashed;
      }
      if t.fate == Refused || t.merge == MergeRefused {
        return Err(Safe(t.code));
      }
      match t.merge
      case MergeClean =>
        repo := repo.(head := Some(MergeOn(t.content, head, other)));
        r := if t.fate == CrashAfter then Crashed else if t.fate == LostReply then Err(Safe(t.code)) else Ok(());
      case MergeConflict(paths) =>
        repo := repo.(mergeHead := Some(other), unmerged := paths);
        r := if t.fate == CrashAfter then Crashed else Err(Safe(t.code));
      case MergeStuck =>
        repo := repo.(mergeHead := Some(other));
        r := if t.fate == CrashAfter then Crashed else Err(Safe(t.code));
      case MergeRefused =>
    }
  }
}
