/** Small failure-carrying wrappers shared by the rest of the model. */
module Results {

  /** A value that may be absent (JavaScript `null`/`undefined`, a regex with no match). */
  datatype Option<+T> = None | Some(value: T)
}
