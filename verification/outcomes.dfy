/** Failure-carrying values shared by every layer: an optional value, the
    exceptions the storage SDK (or the code around it) can raise, and the
    outcome of one call that either returns or raises. */
module Outcomes {

  /** Python's `None` / a present value. */
  datatype Option<+T> = None | Some(value: T) {

    /** The value, or `default` when absent (Python's `d.get(k, default)`). */
    function GetOr(default: T): T {
      match this
      case Some(v) => v
      case None => default
    }
  }

  /** An exception. `text` stands for the exception's string form `str(e)`,
      which the command-line layer prints; it is produced by the library and
      is not interpreted here. */
  datatype Error =
    | ClientError(code: string, text: string)  // botocore's ClientError, with the service's error code
    | OtherError(text: string)                 // any other exception: transport, KeyError, JSON decoding

  /** What one call did: returned a value, or raised. */
  datatype CallOutcome<+T> = Ok(value: T) | Raised(error: Error)
}
