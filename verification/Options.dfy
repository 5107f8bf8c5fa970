/** A value that may be absent: a missing key, a null, a reply that never came. */
module Options {
  datatype Option<+T> = None | Some(value: T)
}
