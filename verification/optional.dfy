/** Small failure-carrying datatypes shared by every module of the model. */
module Optional {

  /** A JavaScript value that may be `undefined` (None) or present (Some). */
  datatype Option<+T> = None | Some(value: T)

  /** The outcome of a step that may throw: a value, or the text of the thrown error. */
  datatype Result<+T> = Ok(value: T) | Thrown(message: string)
}
