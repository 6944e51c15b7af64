/** The safe error codes of Git operations. */
module Errors {
  datatype ErrorCode =
    | GitUnavailable | UnsupportedVersion | AuthenticationFailed | RemoteUnreachable | IdentityMissing
    | InvalidBranch | RepositoryRootMismatch | RepositoryLocked | CommandFailed | TimedOut | Canceled
    | NotRepository | OriginMismatch | BranchDeleted | HistoryRewritten | PushRejected | GitConflict
    | NeedsReconnect | ConfirmationRequired | Interrupted | BackupMismatch | ConflictNotFound | ConflictStale
    | ConflictUnresolved | ConflictUnsupported | MergeNotInProgress | RecoveryRequired | PausedByUser | NotPaused
}
