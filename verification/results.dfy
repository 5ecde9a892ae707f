/** Outcomes of the matcher's operations: either a value, or the Python
    exception the original code raises instead of returning one. */
module Results {

  /** The exception classes the modelled code can raise. */
  datatype Error =
    | NoSolution      // `meetupmatcher.matcher.NoSolution`: the population cannot be grouped
    | AssertionError  // a Python `assert` that fails
    | ValueError      // numpy's `choice` asked for too many elements, or `find_solution` gave up

  /** A value of type `T`, or the exception raised instead. Failure-compatible,
      so `:-` propagates an `Err` the way Python propagates an exception. */
  datatype Result<+T> = Ok(value: T) | Err(error: Error) {

    predicate IsFailure() {
      Err?
    }

    function PropagateFailure<U>(): Result<U>
      requires Err?
    {
      Err(error)
    }

    function Extract(): T
      requires Ok?
    {
      value
    }
  }
}
