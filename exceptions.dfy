/** The exceptions the modelled code throws, as values.
    A call that throws in C# returns `Err(e)` / `Thrown(e)` here. */
module Exceptions {

  datatype Exception =
    | InvalidOperation    // System.InvalidOperationException
    | ArgumentNull        // System.ArgumentNullException
    | NullReference       // System.NullReferenceException
    | LazyInstance        // Egsp.Core.LazyInstanceException

  /** The result of a call that returns a value or throws. */
  datatype Result<T> = Ok(value: T) | Err(error: Exception)

  /** The result of a call that returns nothing or throws. */
  datatype Outcome = Pass | Thrown(error: Exception)
}
