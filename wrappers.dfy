/** Option and Result, used for PHP's nullable values and for "returned or threw". */
module Wrappers {

  datatype Option<+T> = None | Some(value: T)

  /** The outcome of a PHP call: the value it returned, or the throwable it raised. */
  datatype Result<+T, +E> = Ok(value: T) | Fail(error: E)
}
