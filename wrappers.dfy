/** Small failure-carrying datatypes shared by every module of the model. */
module Wrappers {

  /** An optional value: an absent JavaScript property is `None`. */
  datatype Option<+T> = None | Some(value: T) {
    function GetOr(default: T): T {
      if Some? then value else default
    }
  }

  /** The value of a call that either returns or throws. */
  datatype Result<+T, +E> = Success(value: T) | Failure(error: E)

  /** What one upstream HTTP request produced: it failed (transport error,
      timeout, rejected status) or it answered with a decoded body. */
  datatype Reply<+T> = Fail | Ok(value: T)
}
