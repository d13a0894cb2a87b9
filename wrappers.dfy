/** Failure-carrying result types shared by every module of the model.
    A `Failure` stands for a call to the source's fatal-error reporter, which never returns. */
module Wrappers {

  datatype Option<+T> = None | Some(value: T)

  datatype Result<+R, +E> = Success(value: R) | Failure(error: E)

  datatype Outcome<+E> = Pass | Fail(error: E)
}
