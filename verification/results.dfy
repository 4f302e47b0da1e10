/** Failure-carrying return types shared by the whole model. */
module Results {

  /** A value that may be absent: a missing record, a missing account, a
      number that does not parse. */
  datatype Option<+T> = None | Some(value: T) {

    /** The contained value, or `default` when there is none. */
    function GetOr(default: T): T {
      match this
      case Some(v) => v
      case None => default
    }
  }

  /** The outcome of an operation that either produces a value or stops with
      an error the caller is shown. */
  datatype Result<+R, +E> = Ok(value: R) | Err(error: E)
}
