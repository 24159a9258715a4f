/** Failure-compatible wrappers for the exceptions the scripts can raise. */
module Outcomes {

  datatype Option<+T> = None | Some(value: T)

  /** The Python exceptions (and numeric faults) that the modelled code can end in. */
  datatype Error =
    | KeyError                      // dict lookup of a missing key
    | ValueError(msg: string)       // min()/max() of an empty sequence, np.vstack of unequal rows
    | IndexError                    // fancy indexing past the end of an array
    | ZeroDivision                  // dividing by a zero spread (numpy yields NaN)
    | AssertionError(msg: string)   // a failed `assert` in the image readers
    | UnboundLocalError(name: string)

  datatype Result<+T> = Success(value: T) | Failure(error: Error) {
    predicate IsFailure() {
      Failure?
    }

    function PropagateFailure<U>(): Result<U>
      requires Failure?
    {
      Failure(error)
    }

    function Extract(): T
      requires Success?
    {
      value
    }
  }
}
