/** Options and the outcomes of calls that may raise. */
module Outcomes {

  datatype Option<+T> = None | Some(value: T) {
    function GetOr(other: T): T {
      if Some? then value else other
    }
  }

  /** The exceptions the modelled code raises or lets through. */
  datatype Exn =
    | ValueError
    | StructError         // struct.pack or struct.unpack given a value or a buffer that does not fit
    | TypeError
    | OverflowError       // a wait longer than the platform can time
    | RuntimeError
    | OsError             // a send on a socket failed
    | TimeoutError
    | Denied              // UnicastDeniedError
    | NegotiationTimeout  // UnicastNegotiationTimeout
    | NegotiationStopped  // UnicastNegotiationError: stop requested

  datatype Result<+T> = Ok(value: T) | Raise(exn: Exn) {
    predicate IsFailure() {
      Raise?
    }

    function PropagateFailure<U>(): Result<U>
      requires Raise?
    {
      Raise(exn)
    }

    function Extract(): T
      requires Ok?
    {
      value
    }
  }
}
