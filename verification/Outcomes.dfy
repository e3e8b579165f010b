/** The two small result types the whole project shares. */
module Outcomes {

  datatype Option<+T> = None | Some(value: T)

  /** A thrown exception is `Err`; a returned value is `Ok`. */
  datatype Result<+T, +E> = Ok(value: T) | Err(error: E)
}
