/** Value types shared by every part of the model. */
module Common {

  /** A value that may be absent: a request key that is missing, or whose text does not parse. */
  datatype Option<+T> = None | Some(value: T)

  /** The result of an operation that either succeeds or reports an error kind. */
  datatype Outcome<+E> = Pass | Fail(error: E)

  /** The result of an operation that either yields a value or reports an error kind. */
  datatype Result<+R, +E> = Ok(value: R) | Err(error: E)

  /** A calendar date. Parsing and printing `YYYY-MM-DD` text is outside the model: a `Date`
      is always one that parsed. */
  datatype Date = Date(year: int, month: int, day: int)
}
