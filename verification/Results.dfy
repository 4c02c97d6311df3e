/** Values, failures and delivery evidence shared by every modelled component. */
module Results {

  datatype Option<+T> = None | Some(value: T)

  /** What the available evidence says about delivery of a command to the card. */
  datatype Outcome = NotSent | Rejected | Succeeded | Unknown

  datatype ErrorCode =
    | InvalidArgument
    | Transport
    | CardRemoved
    | Timeout
    | Cancelled
    | MalformedResponse
    | CardRejected
    | Authentication
    | Unsupported
    | StaleHandle
    | Busy
    | SessionInvalid
    | CounterExhausted
    | Crypto
    | Internal

  /** An error without explicit evidence carries `NotSent`, as the default-built error does. */
  datatype Error = Error(code: ErrorCode, outcome: Outcome := NotSent)

  datatype Result<+T> = Ok(value: T) | Err(error: Error) {

    predicate Uncertain() {
      Err? && error.outcome.Unknown?
    }
  }
}
