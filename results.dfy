/** Values standing in for Python's sentinel object and exceptions. */
module Results {

  /** `None` plays the part of the module-level `_marker` sentinel: "no line read yet"
      for the current line, and "no default supplied" for `peek` and `filtered_next`. */
  datatype Option<T> = None | Some(value: T)

  /** The exceptions the iterator raises. */
  datatype Error =
    | StopIteration
    | IndexError(message: string)
    | ValueError(message: string)

  /** A value returned normally, or an exception raised. */
  datatype Result<T> = Ok(value: T) | Err(error: Error)

  const JumpBackwardMessage: string := "Can only jump forward"
  const NothingReadMessage: string := "Have not read any lines yet"
}
