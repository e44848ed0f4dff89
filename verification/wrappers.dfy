/** Failure-carrying types shared by every module: `Option` stands for a Python value that
    may be `None`, `Result` for a call that may raise instead of returning. */
module Wrappers {

  datatype Option<+T> = None | Some(value: T)

  datatype Result<+T, +E> = Success(value: T) | Failure(error: E)
}
