/** The "value or nothing" and "value or error" shapes that stand for Java's
    null returns and thrown exceptions throughout the model. */
module Wrappers {

  datatype Option<+T> = None | Some(value: T)

  datatype Result<+T, +E> = Success(value: T) | Failure(error: E)
}
