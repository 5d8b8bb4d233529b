/** The error outcomes the HTTP handlers report, and their status codes. */
module Api {

  /** A request field a validation rule can reject. */
  datatype Field = SymbolField | AmountField

  datatype ApiError =
    /** The request rules (`required|string|in:...`, `required|numeric|min:...`)
        rejected these fields; Laravel reports every failing field at once. */
    | ValidationFailed(fields: set<Field>)
    /** The amount is below the per-symbol crypto minimum. */
    | BelowMinimumAmount(symbol: string, minimum: real)
    /** The rate service returned no usable rate; the caller may retry. */
    | RateUnavailable(symbol: string)
    /** The fee-adjusted naira amount is below the minimum transaction. */
    | BelowMinimumTransaction(minimum: real)
    /** Buy: the wallet cannot pay the total cost. */
    | InsufficientFunds(required: real, available: real)
    /** Sell: the holding is absent (available 0) or smaller than the amount. */
    | InsufficientHoldings(required: real, available: real)
    /** An exception: the user has no wallet, or the database refused a write
        and the unit of work rolled back. */
    | InternalFailure

  function HttpStatus(e: ApiError): (code: nat)
    ensures code == 503 <==> e.RateUnavailable?
    ensures code == 500 <==> e.InternalFailure?
    ensures code != 500 && code != 503 ==> code == 422
  {
    match e
    case RateUnavailable(_) => 503
    case InternalFailure => 500
    case _ => 422
  }

  /** Status of a successful buy or sell. */
  const Created: nat := 201

  /** Status of a successful read or deposit. */
  const Okay: nat := 200
}
