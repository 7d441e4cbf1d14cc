/** A value that may be absent: the source's `None` results and optional fields. */
module Options {
  datatype Option<+T> = None | Some(value: T)
}
