/** Small helper datatypes shared by the other modules. */
module Wrappers {

  /** A value that may be absent: `None` stands for a result that JavaScript
      would produce as a non-finite number, or for an action not taken. */
  datatype Option<+T> = None | Some(value: T)
}
