/** A value that may be absent: a failed conversion, or a character not found. */
module Optional {
  datatype Option<T> = None | Some(value: T)
}
