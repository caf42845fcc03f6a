/** The ways a reward estimate can fail.  Each constructor stands for an
    exception the calculator lets escape to its caller. */
module Outcomes {

  datatype Error =
    | OutOfRange    // the emission table is indexed past its last month (IndexError)
    | InvalidInput  // fewer than 30 producing pillars reach the simulator (ValueError)
    | NotANumber    // int() applied to a NaN mean: an empty slice, or zero days (ValueError)

  /** Either a computed value or the error that stopped the computation. */
  datatype Result<T> = Ok(value: T) | Err(error: Error)
  {
    predicate IsFailure() { Err? }

    /** The same error, carried to a caller expecting another value type. */
    function PropagateFailure<U>(): Result<U>
      requires Err?
    {
      Err(error)
    }

    function Extract(): T
      requires Ok?
    {
      value
    }
  }
}
