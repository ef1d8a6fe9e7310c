/** A value that may be absent, used by every component. */
module Options {
  datatype Option<+T> = None | Some(value: T)
}
