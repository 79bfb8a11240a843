/** Failure-carrying values shared by every stage of the harness. */
module Failures {

  /** A value that may be missing; `None` stands for numpy's NaN where the
      harness divides by an empty length. */
  datatype Option<+T> = None | Some(value: T)

  /** The ways a run of the harness stops with an exception instead of a result. */
  datatype Failure =
    /** `max()`/`min()` of an empty training target array (numpy raises ValueError). */
    | EmptyTargets
    /** `float(token)` rejected a token of the solver's output file. */
    | MalformedNumber(token: string)
    /** The coefficient vector does not fit the design matrix `[1 | X]` in `dot`. */
    | ShapeMismatch(expected: nat, found: nat)

  datatype Result<+T> = Ok(value: T) | Err(error: Failure) {
    predicate IsFailure() {
      Err?
    }

    function PropagateFailure<U>(): Result<U>
      requires Err?
    {
      Err(error)
    }

    function Extract(): T
      requires Ok?
    {
      value
    }
  }
}
