/** Option and Result values shared by every module of the model. */
module Base {

  /** A value that may be absent: `null` in the front ends, `Option` in the backend. */
  datatype Option<+T> = None | Some(value: T) {
    function GetOr(default: T): T {
      match this
      case Some(v) => v
      case None => default
    }
  }

  /** The outcome of an operation that can fail. */
  datatype Result<+T, +E> = Ok(value: T) | Err(error: E)

  /** The unit value carried by a successful check. */
  datatype Unit = Unit
}
