/** Failure-carrying values shared by the rest of the model. */
module Wrappers {

  /** A value that may be absent: a failed decode, a missing key. */
  datatype Option<+T> = None | Some(value: T) {
    function GetOr(default: T): T {
      match this
      case Some(v) => v
      case None => default
    }
  }

  /** The outcome of an operation that can fail with an error of type E. */
  datatype Result<+T, +E> = Ok(value: T) | Err(error: E)
}

/** How a request of the web layer can end badly, as the caller sees it. */
module Faults {
  /** BadRequest: a 400 reply the handler writes itself. NotFound: the
      "not found" page. ServerError: an exception that escapes to the web
      layer, or that a handler catches and turns into a 500 reply. */
  datatype Fault = BadRequest | NotFound | ServerError
}
