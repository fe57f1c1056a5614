/** Optional values and results with an error message, used for the absent
    fields of request bodies and documents and for the failures of the
    database layer. */
module Wrappers {

  /** A value that may be absent: a missing key of a request body or an unset
      path of a document. */
  datatype Option<+T> = None | Some(value: T) {

    /** The value, or `default` when absent (JavaScript's `x ?? d`). */
    function GetOr(default: T): T {
      match this
      case Some(v) => v
      case None => default
    }
  }

  /** The outcome of a database operation that can fail with a message. */
  datatype Result<+T> = Ok(value: T) | Err(message: string)
}
