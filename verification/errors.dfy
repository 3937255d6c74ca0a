/** Optional values, results and the error taxonomy shared by both handler
    versions. A Go pointer that may be nil is an `Option`; a Go `error` that
    may be nil is an `Option<Error>`; a `(value, error)` pair from a builder
    is a `Result`. */
module Errors {

  datatype Option<+T> = None | Some(value: T)

  datatype Result<+T> = Ok(value: T) | Err(error: Error)

  /** Why the resource store rejected a call, as the API machinery's
      `errors.IsAlreadyExists` / `IsNotFound` / `IsConflict` distinguish it. */
  datatype Reason = AlreadyExists | NotFound | Conflict | Other(message: string)

  datatype Error =
    | Api(reason: Reason)                                  // returned by the store
    | WaitTimeout                                          // the poll's budget ran out
    | Invalid(message: string)                             // nil or missing argument
    | MalformedUrl(path: string)                           // the composed bucket URL did not parse
    | UnrecognizedPolicy(policy: string)                   // reclaim policy matched neither constant
    | Wrapped(context: string, subject: string, cause: Error)  // fmt.Errorf with %v: the cause's type is lost

  /** `errors.IsAlreadyExists`: only a bare store error carries the reason;
      a wrapped error does not. */
  predicate IsAlreadyExists(e: Error) {
    e == Api(AlreadyExists)
  }

  /** `errors.IsNotFound`, with the same caveat. */
  predicate IsNotFound(e: Error) {
    e == Api(NotFound)
  }
}
