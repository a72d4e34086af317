/** The ways a call on the integrator can fail, and the result type that carries them. */
module Errors {

  datatype Error =
    | NotImplemented     // the base-class derivative returns nothing, so the first stage arithmetic fails
    | DimensionMismatch  // a derivative vector whose length differs from the state's
    | AlreadyIterated    // a second stepping pass appends to the time buffer after it became an array
    | NoTimeAxis         // differencing along the time axis of the 1-D seed array

  datatype Result<+T> = Ok(value: T) | Err(error: Error) {

    predicate IsFailure() {
      Err?
    }

    function PropagateFailure<U>(): Result<U>
      requires Err?
    {
      Err(error)
    }

    function Extract(): T
      requires Ok?
    {
      value
    }
  }
}
