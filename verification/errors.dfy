/** The ledger's error taxonomy and its mapping to HTTP status codes. */
module Errors {

  /** The five failure kinds a handler can report. */
  datatype PaymeError =
    | Database(detail: string)
    | NotFound
    | Unauthorized
    | BadRequest(message: string)
    | Internal(detail: string)

  /** A handler's result: a value, or the error that stopped it. */
  datatype Result<+T> = Ok(value: T) | Err(error: PaymeError) {

    predicate IsFailure() {
      Err?
    }

    function PropagateFailure<U>(): Result<U>
      requires Err?
    {
      Err(error)
    }

    function Extract(): T
      requires Ok?
    {
      value
    }
  }

  /** The result of a check that produces no value. */
  datatype Outcome = Pass | Fail(error: PaymeError)

  /** The state conflict of mutating a closed month. */
  const MonthIsClosed: PaymeError := BadRequest("Month is closed")

  /** The state conflict of closing a month twice. */
  const MonthAlreadyClosed: PaymeError := BadRequest("Month is already closed")

  /** A cross-user or dangling category reference on an item. */
  const InvalidCategory: PaymeError := BadRequest("Invalid category")

  /** A request body that breaks a field constraint (label length, negative amount). */
  const ValidationFailed: PaymeError := BadRequest("Validation failed")

  /** The error `fetch_one` reports when its query matched no row. */
  const RowNotFound: PaymeError := Database("no rows returned by a query that expected to return at least one row")

  /** The HTTP status a handler error is answered with. */
  function Status(e: PaymeError): (code: int)
    ensures code in {400, 401, 404, 500}
    ensures code >= 500 <==> e.Database? || e.Internal?
    ensures e.NotFound? <==> code == 404
    ensures e.Unauthorized? <==> code == 401
    ensures e.BadRequest? <==> code == 400
  {
    match e
    case Database(_) => 500
    case NotFound => 404
    case Unauthorized => 401
    case BadRequest(_) => 400
    case Internal(_) => 500
  }
}
