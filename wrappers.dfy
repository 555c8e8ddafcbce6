/** Option, Result and Outcome: the error path of the generator (a Python
    exception) is returned as a value instead of being excluded by a
    precondition. */
module Wrappers {

  datatype Option<+T> = None | Some(value: T)

  datatype Result<+R, +E> = Success(value: R) | Failure(error: E)

  /** The result of an operation that produces no value, only output. */
  datatype Outcome<+E> = Pass | Fail(error: E)
}
