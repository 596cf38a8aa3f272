/** Absent values and the exceptions the weather core can throw, as data. */
module Outcomes {

  /** A Java reference that may be null. */
  datatype Option<+T> = None | Some(value: T)

  /** The unchecked exceptions thrown by the core, with their messages. */
  datatype Error =
    | NullPointer
    | IllegalArgument(message: string)
    | IllegalState(message: string)

  /** Either a returned value or a thrown exception. */
  datatype Result<+T> = Success(value: T) | Failure(error: Error)
}
