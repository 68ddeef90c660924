/**
 Small failure-carrying datatypes shared by every module of the model: an
 optional value (JavaScript's `null`/`undefined` versus a present value) and
 the result of an operation that either succeeds or fails with an error.
 */
module Base {

  datatype Option<+T> = None | Some(value: T) {

    /** The value when present, `default` otherwise. */
    function GetOr(default: T): T {
      match this
      case Some(v) => v
      case None => default
    }
  }

  datatype Result<+T, +E> = Ok(value: T) | Err(error: E)
}
