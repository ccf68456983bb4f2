/** An optional value (a Java reference that may be null, or an Optional)
    and a success/failure result (a return value or a thrown exception). */
module Wrappers {

  datatype Option<+T> = None | Some(value: T)

  datatype Result<+T, +E> = Success(value: T) | Failure(error: E)
}
