/** What a restart reads off the repository and the journal row of an interrupted operation. */
module Recovery {
  import opened Basics
  import opened CommitGraph
  import opened Errors
  import opened Journal
  import opened GitSession

  datatype ConflictState =
    | NoState | InConflict | CanComplete | NeedsReindex | PushPending | PushUnknown | Pushed
    | Aborted | Ambiguous | Locked

  datatype RecoveredTrust = Trusted(oid: Oid) | AmbiguousTrust(code: ErrorCode)

  /** recoveryRemoteOID: which object id the trusted remote may be taken to be. */
  function RecoveredRemote(operation: Option<Operation>, repo: Repository): RecoveredTrust {
    if operation.None? then Trusted(repo.managed)
    else
      var op := operation.value;
      if op.remote.Some? && repo.managed == op.remote then Trusted(op.remote)
      else if op.push.Some? && repo.managed == op.push && repo.head == op.push then Trusted(op.push)
      else if ProvenCandidate(op, repo) then Trusted(op.candidate)
      else if op.remote.Some? || op.candidate.Some? then AmbiguousTrust(NeedsReconnect)
      else Trusted(repo.managed)
  }

  /** The fetch ref proves that this operation moved the managed ref to its candidate. */
  predicate ProvenCandidate(op: Operation, repo: Repository) {
    op.candidate.Some? && repo.managed == op.candidate && repo.fetched == op.candidate
  }

  /** Recovery names exactly the managed ref. */
  ghost predicate Recoverable(row: Operation, repo: Repository) {
    RecoveredRemote(Some(row), repo) == Trusted(repo.managed)
  }

  /** recoveryPushOID: the merge commit a completion has durably recorded, if any. */
  function RecoveredPush(operation: Option<Operation>): Oid {
    if operation.None? || operation.value.kind != ConflictComplete then None
    else match operation.value.stage
      case StageConflictCommitted => operation.value.push
      case StageConflictReindexed => operation.value.push
      case StageConflictPushing => operation.value.push
      case StageCompleted => operation.value.push
      case _ => None
  }

  /** recoveryConflictState, consulted only when no merge is in progress. */
  function LabelWithoutMerge(operation: Option<Operation>, repo: Repository): ConflictState {
    if operation.None? then NoState
    else
      var op := operation.value;
      if op.kind == ConflictAbort then
        if op.Active() && repo.head == op.local then Aborted else Ambiguous
      else if op.kind == ConflictComplete then
        if RecoveredPush(operation).None? || repo.head != op.push then Ambiguous
        else match op.stage
          case StageConflictCommitted => NeedsReindex
          case StageConflictReindexed => PushPending
          case _ => if repo.managed == op.push then Pushed else PushUnknown
      else if op.state == Conflict then Ambiguous
      else NoState
  }

  /** What the inspections before and between the decisions find. */
  datatype LockFile = Unlocked | LockPresent | LockUnreadable
  datatype Inspection = Inspection(
    refused: Option<ErrorCode>,
    lock: LockFile,
    refsReadable: bool,
    privateRefReadable: bool,
    mergeReadable: bool,
    mergePending: bool,
    otherPending: bool)

  /** Everything readable, nothing locked, and the pending-merge marker agreeing with MERGE_HEAD. */
  function HealthyInspection(repo: Repository): Inspection {
    Inspection(None, Unlocked, true, true, true, repo.mergeHead.Some?, false)
  }

  datatype RecoveryResult = RecoveryResult(
    head: Oid,
    mergeHead: Oid,
    remote: Oid,
    push: Oid,
    conflictPaths: set<Path>,
    blocking: bool,
    state: ConflictState)

  datatype Recovered = Recovered(result: RecoveryResult, failure: Option<Failure>)

  const NOTHING := RecoveryResult(None, None, None, None, {}, true, NoState)

  /** Service.RecoverLocal: the merge state outranks the journal, the journal outranks trust. */
  function RecoverLocal(operation: Option<Operation>, repo: Repository, seen: Inspection): Recovered {
    if seen.refused.Some? then
      Recovered(NOTHING, Some(Safe(seen.refused.value)))
    else if seen.lock == LockUnreadable then
      Recovered(NOTHING.(state := Ambiguous), Some(Safe(CommandFailed)))
    else if seen.lock == LockPresent then
      Recovered(NOTHING.(state := Locked), Some(Safe(RepositoryLocked)))
    else if !seen.refsReadable then
      Recovered(NOTHING, Some(Safe(CommandFailed)))
    else
      var trust := if seen.privateRefReadable then RecoveredRemote(operation, repo) else ReadWithoutPrivateRef(operation, repo);
      var remote := if trust.Trusted? then trust.oid else None;
      var result := RecoveryResult(repo.head, repo.mergeHead, remote, RecoveredPush(operation), repo.unmerged, false, NoState);
      if !seen.mergeReadable then
        Recovered(result.(blocking := true, state := Ambiguous), Some(Conflicted(repo.unmerged, true)))
      else if seen.otherPending then
        Recovered(result.(blocking := true, state := Ambiguous), Some(Safe(Interrupted)))
      else if repo.unmerged != {} then
        Recovered(result.(blocking := true, state := InConflict), Some(Conflicted(repo.unmerged, repo.mergeHead.None?)))
      else if seen.mergePending || repo.mergeHead.Some? then
        Recovered(result.(blocking := true, state := CanComplete), Some(Safe(Interrupted)))
      else
        var named := LabelWithoutMerge(operation, repo);
        var progress := named in {Aborted, NeedsReindex, PushPending, PushUnknown, Pushed};
        if progress && (trust.Trusted? || named != Pushed) then
          Recovered(result.(state := named), None)
        else if trust.AmbiguousTrust? || named == Ambiguous then
          Recovered(result.(blocking := true, state := Ambiguous),
                    Some(Safe(if trust.AmbiguousTrust? then trust.code else RecoveryRequired)))
        else
          Recovered(result, None)
  }

  /** When the private ref cannot be read, the candidate rule reports an error instead of an answer. */
  function ReadWithoutPrivateRef(operation: Option<Operation>, repo: Repository): RecoveredTrust {
    if operation.Some? && operation.value.candidate.Some? && repo.managed == operation.value.candidate
       && !(operation.value.remote.Some? && repo.managed == operation.value.remote)
       && !(operation.value.push.Some? && repo.managed == operation.value.push && repo.head == operation.value.push)
    then AmbiguousTrust(CommandFailed)
    else RecoveredRemote(operation, repo)
  }

  /** Between journalling a candidate and moving the managed ref to it, recovery names the managed ref if and
      only if the operation started from a trusted remote. A Sync is never admitted without one. */
  lemma CandidateGapNeedsTrust(row: Operation, repo: Repository)
    requires row.candidate.Some? && repo.managed != row.candidate && repo.managed == row.remote
    requires row.push.None? || repo.managed != row.push
    ensures Recoverable(row, repo) <==> row.remote.Some?
    ensures row.remote.None? ==> RecoveredRemote(Some(row), repo).AmbiguousTrust?
  {}

  // ---------------------------------------------------------------- what the answer says

  /** The refs bear out what the row says of its remote: the managed ref is the trusted remote, or the pushed commit
      that HEAD is at, or the candidate that was fetched. A row that says nothing leaves nothing to bear out. */
  ghost predicate BorneOut(operation: Option<Operation>, repo: Repository) {
    operation.Some? && (operation.value.remote.Some? || operation.value.candidate.Some?) ==>
      var op := operation.value;
      repo.managed.Some?
      && (repo.managed == op.remote || repo.managed == op.push == repo.head || repo.managed == op.candidate == repo.fetched)
  }

  /** Recovery never names any other remote than the managed ref, and names it exactly if it is borne out. */
  lemma RemoteIsBorneOut(operation: Option<Operation>, repo: Repository)
    ensures RecoveredRemote(operation, repo)
            == if BorneOut(operation, repo) then Trusted(repo.managed) else AmbiguousTrust(NeedsReconnect)
  {}

  /** A fetch ref that cannot be read bears nothing out. */
  lemma UnreadRefProvesNothing(operation: Option<Operation>, repo: Repository)
    ensures ReadWithoutPrivateRef(operation, repo).Trusted? <==> BorneOut(operation, repo.(fetched := None))
    ensures BorneOut(operation, repo.(fetched := None)) ==> ReadWithoutPrivateRef(operation, repo) == Trusted(repo.managed)
  {}

  /** The remote of the row, as far as it can be inspected, is borne out. */
  ghost predicate RemoteKnown(operation: Option<Operation>, repo: Repository, seen: Inspection) {
    BorneOut(operation, if seen.privateRefReadable then repo else repo.(fetched := None))
  }

  /** The repository can be looked into. */
  ghost predicate Inspectable(seen: Inspection) {
    seen.refused.None? && seen.lock == Unlocked && seen.refsReadable
  }

  /** Nothing is unfinished in the worktree. */
  ghost predicate AtRest(repo: Repository, seen: Inspection) {
    Inspectable(seen) && seen.mergeReadable && !seen.otherPending && !seen.mergePending && NoMerge(repo)
  }

  /** The merge commit of a completion, journalled at this stage or later. */
  ghost predicate Journalled(operation: Option<Operation>) {
    operation.Some? && operation.value.kind == ConflictComplete
    && operation.value.stage in {StageConflictCommitted, StageConflictReindexed, StageConflictPushing, StageCompleted}
  }

  /** HEAD is at the merge commit that the completion has journalled, and it has come to this stage. */
  ghost predicate HeadStands(operation: Option<Operation>, repo: Repository, stages: set<Stage>) {
    Journalled(operation) && operation.value.stage in stages && operation.value.push.Some? && repo.head == operation.value.push
  }

  /** An unfinished abort whose HEAD is where it was before the merge. */
  ghost predicate MergeIsGone(operation: Option<Operation>, repo: Repository) {
    operation.Some? && operation.value.kind == ConflictAbort && operation.value.Active() && repo.head == operation.value.local
  }

  /** A completion or abort that the refs do not fit, or an operation that had met a conflict. */
  ghost predicate Unaccounted(operation: Option<Operation>, repo: Repository) {
    operation.Some?
    && match operation.value.kind
       case ConflictAbort => !MergeIsGone(operation, repo)
       case ConflictComplete =>
         !HeadStands(operation, repo, {StageConflictCommitted, StageConflictReindexed, StageConflictPushing, StageCompleted})
       case _ => operation.value.state == Conflict
  }

  /** A completion or abort whose progress is known. */
  ghost predicate ProgressKnown(operation: Option<Operation>, repo: Repository) {
    operation.Some? && (operation.value.kind == ConflictComplete || operation.value.kind == ConflictAbort)
    && !Unaccounted(operation, repo)
  }

  /** Each label, and when it is given. */
  lemma LabelsExactly(operation: Option<Operation>, repo: Repository, seen: Inspection)
    ensures var state := RecoverLocal(operation, repo, seen).result.state;
      && (state == Locked <==> seen.refused.None? && seen.lock == LockPresent)
      && (state == InConflict <==> Inspectable(seen) && seen.mergeReadable && !seen.otherPending && repo.unmerged != {})
      && (state == CanComplete <==> Inspectable(seen) && seen.mergeReadable && !seen.otherPending && repo.unmerged == {}
                                    && (seen.mergePending || repo.mergeHead.Some?))
      && (state == Aborted <==> AtRest(repo, seen) && MergeIsGone(operation, repo))
      && (state == NeedsReindex <==> AtRest(repo, seen) && HeadStands(operation, repo, {StageConflictCommitted}))
      && (state == PushPending <==> AtRest(repo, seen) && HeadStands(operation, repo, {StageConflictReindexed}))
      && (state == PushUnknown <==> AtRest(repo, seen) && HeadStands(operation, repo, {StageConflictPushing, StageCompleted})
                                    && repo.managed != repo.head)
      && (state == Pushed <==> AtRest(repo, seen) && HeadStands(operation, repo, {StageConflictPushing, StageCompleted})
                               && repo.managed == repo.head)
      && (state == Ambiguous
          <==> (seen.refused.None? && seen.lock == LockUnreadable)
               || (Inspectable(seen) && (!seen.mergeReadable || seen.otherPending))
               || (AtRest(repo, seen) && !ProgressKnown(operation, repo)
                   && (!RemoteKnown(operation, repo, seen) || Unaccounted(operation, repo))))
  {
    RemoteIsBorneOut(operation, repo);
    UnreadRefProvesNothing(operation, repo);
  }

  /** The rest of the answer: what was read, nothing if it could not be, and an error exactly if it blocks. */
  lemma AnswerExactly(operation: Option<Operation>, repo: Repository, seen: Inspection)
    ensures var r := RecoverLocal(operation, repo, seen).result;
      if Inspectable(seen) then
        && r.head == repo.head && r.mergeHead == repo.mergeHead && r.conflictPaths == repo.unmerged
        && r.remote == (if RemoteKnown(operation, repo, seen) then repo.managed else None)
        && r.push == if Journalled(operation) then operation.value.push else None
      else r.head.None? && r.mergeHead.None? && r.conflictPaths == {} && r.remote.None? && r.push.None?
    ensures RecoverLocal(operation, repo, seen).result.blocking <==> RecoverLocal(operation, repo, seen).failure.Some?
    ensures RecoverLocal(operation, repo, seen).failure.None?
            <==> AtRest(repo, seen)
                 && (ProgressKnown(operation, repo) || (RemoteKnown(operation, repo, seen) && !Unaccounted(operation, repo)))
  {
    RemoteIsBorneOut(operation, repo);
    UnreadRefProvesNothing(operation, repo);
  }

  /** Which error blocks. */
  lemma FailureExactly(operation: Option<Operation>, repo: Repository, seen: Inspection)
    requires RecoverLocal(operation, repo, seen).failure.Some?
    ensures RecoverLocal(operation, repo, seen).failure.value
            == if seen.refused.Some? then Safe(seen.refused.value)
               else if seen.lock == LockPresent then Safe(RepositoryLocked)
               else if !Inspectable(seen) then Safe(CommandFailed)
               else if !seen.mergeReadable then Conflicted(repo.unmerged, true)
               else if seen.otherPending then Safe(Interrupted)
               else if repo.unmerged != {} then Conflicted(repo.unmerged, repo.mergeHead.None?)
               else if !AtRest(repo, seen) then Safe(Interrupted)
               else if RemoteKnown(operation, repo, seen) then Safe(RecoveryRequired)
               else if seen.privateRefReadable || !BorneOut(operation, repo.(fetched := repo.managed)) then Safe(NeedsReconnect)
               else Safe(CommandFailed)
  {
    RemoteIsBorneOut(operation, repo);
    UnreadRefProvesNothing(operation, repo);
  }

  /** A repository in order can be inspected, and is at rest exactly if no merge is in progress. */
  lemma HealthyIsInspectable(repo: Repository)
    ensures Inspectable(HealthyInspection(repo)) && HealthyInspection(repo).privateRefReadable
    ensures AtRest(repo, HealthyInspection(repo)) <==> NoMerge(repo)
  {}
}
