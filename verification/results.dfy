/** Failure outcomes of the coil routines. The source raises Python
    exceptions or, for numpy arithmetic, silently produces `inf`/`nan`;
    both are modelled as an `Err` carrying what went wrong. */
module Results {

  datatype Fault =
    | IndexOutOfRange   // an IndexError: a list or array index past its end
    | EmptyReduction    // a ValueError: `min`/`max` of an empty array
    | NonFinite         // a numpy division by zero: the result holds inf or nan
    | UnboundName       // a NameError: a local read before any assignment
    | ZeroDivision      // a ZeroDivisionError: Python float division by zero
    | TooFewPoints      // scipy's `splrep` refusing a spline of order k through k points or fewer

  datatype Result<+T> = Ok(value: T) | Err(fault: Fault) {
    predicate IsFailure() {
      Err?
    }

    function PropagateFailure<U>(): Result<U>
      requires Err?
    {
      Err(fault)
    }

    function Extract(): T
      requires Ok?
    {
      value
    }
  }
}
