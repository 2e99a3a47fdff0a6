/** Small shared vocabulary: optional values, handler outcomes and id types. */
module Common {

  datatype Option<T> = None | Some(value: T)

  /** Why a handler raises an exception instead of answering the user. */
  datatype Fault =
    | IndexOutOfRange      // a list index past the end (IndexError)
    | ProductMissing       // a catalog lookup gave None and the handler subscripted it (TypeError)
    | BadInteger           // int() of a string that is not a numeral, or a failed unpacking (ValueError)
    | UnknownCategory      // a category missing from a display table (KeyError)

  /** The outcome of a handler: its answer, or the exception it raises. */
  datatype Result<T> = Ok(value: T) | Crash(fault: Fault)

  /** Telegram user ids and catalog product ids are non-negative integers. */
  type UserId = nat
  type ProductId = nat
}
