/** Option, result and outcome types shared by the ledger modules. */
module Wrappers {

  datatype Option<+T> = None | Some(value: T)

  /** A value, or the error that a request handler answers with. */
  datatype Result<+R, +E> = Success(value: R) | Failure(error: E)

  /** The outcome of a handler that answers with an empty body on success. */
  datatype Outcome<+E> = Pass | Fail(error: E)
}

/** The errors the ledger's handlers answer with (all as HTTP 400). */
module Errors {

  datatype Error = CustomerNotFound | CustomerAlreadyExists | InsufficientFunds

  /** The `error` field of the JSON payload sent for each error. */
  function Message(e: Error): string
  {
    match e
    case CustomerNotFound => "Customer not found!"
    case CustomerAlreadyExists => "Customer already exists!"
    case InsufficientFunds => "Insufficient funds!"
  }
}
