/** Result types shared by every part of the model. */
module Outcomes {
  datatype Option<+T> = None | Some(value: T) {
    predicate IsFailure() {
      None?
    }

    function PropagateFailure<U>(): Option<U>
      requires None?
    {
      None
    }

    function Extract(): T
      requires Some?
    {
      value
    }
  }

  /** Why a call came back with an error. */
  datatype Reason =
    | NotConnected
    | NoTransaction
    | NoSchema
    | EmptyArgument
    | UnknownField(field: string)
    | UnsupportedType(field: string)
    | CannotMarshal
    | Storage       // the database refused the statement
    | Unreadable    // a cell does not fit the Go variable it is scanned into

  /** What a Go call ends in: a value, an error, or a run-time panic. */
  datatype Outcome<+T> = Ok(value: T) | Err(reason: Reason) | Panic
}
