module Options {
  /** A value that may be absent, as the browser's optional fields are. */
  datatype Option<+T> = None | Some(value: T)
}
