/**
 * Go `error` values as the core handles them. `ErrNoRows` is the sentinel of
 * database/sql (re-exported by models/store.go); the handlers compare errors
 * against it by identity, so a `Failure` carrying the same text is a
 * different error.
 */
module Errors {
  datatype Error = ErrNoRows | Failure(text: string)
  {
    /** What `err.Error()` returns. */
    function Text(): string
    {
      match this
      case ErrNoRows => "sql: no rows in result set"
      case Failure(t) => t
    }
  }
}
