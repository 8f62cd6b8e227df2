/** Error values and pre-parsed numeric fields shared by the whole model. */
module Results {

  /** The two ways a report run can fail. */
  datatype Error =
    | ParseError              // a numeric string that `float()` rejects
    | MissingPrice(symbol: string)  // a bought symbol with no quote in the price feed

  datatype Result<T> = Ok(value: T) | Err(error: Error)

  datatype Option<T> = None | Some(value: T)

  /** A decimal-formatted string field once `float()` has been applied to it. */
  datatype Decimal = Parsed(v: real) | Unparsable
}
