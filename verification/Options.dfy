/** A value that may be absent: a nil pointer, a missing row, an optional argument. */
module Options {
  datatype Option<+T> = None | Some(value: T)
}
