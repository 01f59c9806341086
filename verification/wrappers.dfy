/** Failure-carrying results used where the C++ code throws a `std::runtime_error`
    or returns an empty `std::optional`. */
module Wrappers {

  datatype Option<+T> = None | Some(value: T)

  datatype Result<+T, +E> = Success(value: T) | Failure(error: E)
}
