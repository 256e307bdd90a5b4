/** The outcome of a registration that may be rejected: a value, or the reason it was refused. */
module Wrappers {
  datatype Result<T, E> = Ok(value: T) | Err(error: E)
}
