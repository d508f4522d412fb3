/** What the adapter reports to its callbacks, or throws. */
module Errors {
  import opened Js

  datatype Error =
    /** Thrown by the criteria translator while building a query. */
    | TranslationError(thrown: Value)
    /** Reported by the document store (unique constraint, bad modifier, ...). */
    | StoreError(reason: string)
    /** A JavaScript TypeError thrown synchronously (property of null, missing method). */
    | TypeError(reason: string)
    /** `registerConnection` without `identity`. */
    | IdentityMissing
    /** `registerConnection` with an identity already registered. */
    | IdentityDuplicate
    /** `dbPath` does not exist. */
    | DbPathMissing(dbPath: Value)
    /** `dbPath` exists but is not a directory. */
    | DbPathNotDirectory(dbPath: Value)
    /** A connection whose collections failed to load; carries the underlying error. */
    | ConnectFailed(originalError: Error)

  datatype Result<T> = Ok(value: T) | Err(error: Error)
}
