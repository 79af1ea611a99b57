/** Failure-compatible wrappers standing for Python's `None` and its exceptions. */
module Results {

  /** An optional value (Python's `None` or a value). */
  datatype Option<+T> = None | Some(value: T)

  /** A value or the error that the Python code would raise instead of returning. */
  datatype Result<+T, +E> = Success(value: T) | Failure(error: E) {
    predicate IsFailure() { Failure? }

    function PropagateFailure<U>(): Result<U, E>
      requires Failure?
    {
      Failure(error)
    }

    function Extract(): T
      requires Success?
    {
      value
    }
  }

  /** The Python exceptions the modelled code can raise. */
  datatype Raised = KeyError | AttributeError | IndexError | StopIteration

  /** Completion of a procedure that returns nothing (`-> None`) or raises. */
  datatype Outcome<+E> = Pass | Fail(error: E)
}
