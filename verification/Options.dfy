/** A value that may be absent: a null reference, a failed lookup, a refused message. */
module Options {
  datatype Option<+T> = None | Some(value: T)
}
