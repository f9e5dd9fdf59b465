/** A value that may be absent: a pointer that may be null, or a call that may fail. */
module Options {
  datatype Option<+T> = None | Some(value: T)
}
