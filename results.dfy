/** Success and failure values that stand for the exceptions the helpers raise. */
module Results {

  /** The value a call returns, or the exception it raises. */
  datatype Result<T, E> = Ok(value: T) | Err(error: E)

  /** A call that returns nothing useful, or raises. */
  datatype Outcome<E> = Pass | Fail(error: E)
}
