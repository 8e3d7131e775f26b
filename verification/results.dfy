/** Failure-carrying values shared by every module: an optional value and
    a success-or-error value, standing in for Go's `nil` and `error` returns. */
module Results {

  datatype Option<+T> = None | Some(value: T)

  datatype Result<+T, +E> = Ok(value: T) | Err(error: E)
}
