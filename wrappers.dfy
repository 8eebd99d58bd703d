/** Values that stand for Java's null references and for the exceptions the
    to-do application throws, so that every error path is an ordinary value. */
module Wrappers {

  /** A reference that may be null: `Null` is Java's `null`. */
  datatype Nullable<+T> = Null | NonNull(value: T)

  /** The exception kinds the modelled code raises or lets through. */
  datatype Error =
    | IllegalArgument          // Enum.valueOf / TaskState.fromDisplay on an unknown name
    | IllegalState             // a lifecycle transition that is not allowed
    | NotFound(id: int)        // the store's updateTask on an id it does not hold
    | ClassCast                // a cast of a table cell to the wrong type
    | Runtime(cause: Error)    // a RuntimeException wrapping another failure

  /** The outcome of a call that returns a value or throws. */
  datatype Result<+T> = Ok(value: T) | Err(error: Error)

  /** The outcome of a `void` call: it completes or it throws. */
  datatype Outcome = Done | Failed(error: Error)
}
