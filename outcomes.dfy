/** Failure-carrying results for the Python exceptions the control-system code raises. */
module Outcomes {

  /** The exception kinds the modelled code can raise (or, for NonFinite, the
      point where numpy would silently produce inf/nan). */
  datatype Error =
    | ValueError          // bad argument, duplicate registration, list.index miss
    | TypeError           // an operand of the wrong kind
    | KeyError            // dictionary lookup of an absent key
    | AttributeError      // attribute of None (no plant bound)
    | RuntimeError        // controller computed without a plant
    | IndexError          // tensor index past its extent
    | LinAlgError         // singular matrix passed to the inverse routine
    | NonFinite           // division by zero: numpy would yield inf or nan
    | UnboundLocalError   // a local read before any assignment

  datatype Option<+T> = None | Some(value: T)

  datatype Result<+T> = Ok(value: T) | Err(error: Error) {
    predicate IsFailure() { Err? }
    function PropagateFailure<U>(): Result<U>
      requires Err?
    {
      Err(error)
    }
    function Extract(): T
      requires Ok?
    {
      value
    }
  }

  /** The outcome of a call made for its effect on an object. */
  datatype Outcome = Pass | Fail(error: Error)
}
