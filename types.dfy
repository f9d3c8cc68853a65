/**
 * Vocabulary shared by every part of the market finder: trade-area codes,
 * country names, years, and the ways a lookup can fail.
 */
module Types {

  /** A Comtrade trade-area code (the `id` of an entry of the partner-area list). */
  type Code = int

  /** A human-readable country or trade-area name (the `text` of an entry). */
  type Name = string

  type Year = int

  datatype Option<+T> = None | Some(value: T)

  /** The exceptions the finder lets escape to its caller. */
  datatype LookupError =
    | UnknownName(name: Name)     // KeyError from the name -> code dictionary
    | UnknownCode(code: Code)     // KeyError from the inverted code -> name dictionary
    | MissingYear(year: Year)     // KeyError: the production table has no column for the year
    | EmptyYears                  // IndexError: a multi-year run over an empty list of years

  datatype Result<+T> = Ok(value: T) | Err(error: LookupError)

  /** The outcome of an operation that returns nothing but may raise. */
  datatype Outcome = Pass | Fail(error: LookupError)
}
