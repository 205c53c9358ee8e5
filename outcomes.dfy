/** Small value wrappers shared by the three components. */
module Outcomes {

  /** A value that may be absent (Python's `None`). */
  datatype Option<+T> = None | Some(value: T) {

    /** The value, or `default` when absent (Python's `dict.get(key, default)`). */
    function GetOr(default: T): T {
      match this
      case Some(v) => v
      case None => default
    }
  }

  /** The outcome of an operation that either produces a value or fails with an error. */
  datatype Result<+T, +E> = Ok(value: T) | Err(error: E)
}

/** What an HTTP request made by the core can come back with. */
module Http {
  import opened Outcomes

  /** Either a response carrying a status code, or an exception raised by the request
      (timeout, refused connection, ...): the core treats every such exception alike. */
  datatype Response = Answered(status: int) | RequestFailed

  /** The status code of a response, `None` when the request raised. */
  function StatusOf(r: Response): Option<int> {
    match r
    case Answered(code) => Some(code)
    case RequestFailed => None
  }
}
