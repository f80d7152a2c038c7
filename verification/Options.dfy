/** A value that may be absent: a nil pointer, an unset field, a failed lookup. */
module Options {
  datatype Option<+T> = None | Some(value: T)
}
