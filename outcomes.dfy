/** Failure-carrying values shared by both analyzers. */
module Outcomes {

  /** A value that may be absent: a model call that raised is `None`. */
  datatype Option<T> = None | Some(value: T)

  /** The outcome of an operation that can raise. */
  datatype Result<T, E> = Ok(value: T) | Err(error: E)

  /** The Python exceptions the modelled code can raise to its caller. */
  datatype Error =
    | KeyError(key: string)   // a dictionary lookup with an absent key
    | ZeroDivisionError       // a division whose divisor is zero
}
