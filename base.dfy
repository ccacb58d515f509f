/**
  Java-level building blocks shared by the model: references that may be
  null, the fixed-width integers the source hands to the broker, and the two
  ways a call into a collaborator can end.
*/
module Base {

  /** A Java reference that may be null. */
  datatype Option<+T> = None | Some(value: T)

  /** Java `short`. */
  type Int16 = x: int | -0x8000 <= x < 0x8000

  /** Java `int`, and the range of a non-null `Integer`. */
  type Int32 = x: int | -0x8000_0000 <= x < 0x8000_0000

  /**
    How a call ends: it returns normally, or it throws an exception whose
    `getMessage()` may be null.
  */
  datatype Completion = Returned | Threw(message: Option<string>)
}
