/** Option and Result values used for the source's null returns and thrown errors. */
module Wrappers {

  /** `None` stands for the source's `null`/`undefined`. */
  datatype Option<+T> = None | Some(value: T) {
    function GetOr(default: T): T {
      match this
      case Some(v) => v
      case None => default
    }
  }

  /** `Failure` stands for an exception thrown (or a promise rejected) in the source. */
  datatype Result<+R, +E> = Success(value: R) | Failure(error: E)

  /** A JavaScript/C++ error as the model distinguishes them. */
  datatype Error =
    | TypeError(message: string)
    | ReferenceError(message: string)
    | Unstoppable
    | Failed(message: string)
}
