/** Optional values and the source's error returns. */
module Results {
  datatype Option<+T> = None | Some(value: T)

  // The error values the store returns (internal/store/store.go:20-28).
  datatype Error =
    | InvalidRequest
    | NotFound
    | IdempotencyConflict
    | InvalidTransition
    | StaleLease
    | Persistence
    | JournalFull
    | CompactionFailed

  datatype Result<+T> = Ok(value: T) | Err(error: Error)
}
