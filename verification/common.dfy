/** Small value wrappers shared by the other modules: an optional value and
    the outcome of an operation that may fail. */
module Common {

  datatype Option<+T> = None | Some(value: T)

  datatype Result<+T, +E> = Ok(value: T) | Err(error: E)
}
