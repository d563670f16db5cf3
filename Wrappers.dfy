/** Option and Result values, and the ways an operation of the type utilities can fail. */
module Wrappers {

  /** A possibly absent value: `None` stands for Java's `null`. */
  datatype Option<+T> = None | Some(value: T)

  /**
   * Why an operation did not produce a value. Each kind is the Java exception the
   * source throws at that point, except the last two: `NonTermination` marks an input on
   * which the source loops forever, and `OutOfFuel` marks that the model's recursion
   * bound was reached before the source's recursion ended.
   */
  datatype Failure =
    | IllegalState       // IllegalStateException ("found an unhandled type", ...)
    | IllegalArgument    // IllegalArgumentException (missing assignment, unknown type)
    | NullPointer        // NullPointerException
    | ClassCast          // ClassCastException
    | IndexOutOfBounds   // ArrayIndexOutOfBoundsException
    | NonTermination     // the source would loop forever
    | OutOfFuel          // the model's recursion bound was exhausted

  /** The outcome of an operation that may throw. */
  datatype Result<+T> = Ok(value: T) | Err(failure: Failure)
}
