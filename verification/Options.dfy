/** A value that may be absent: Python's `None`, JavaScript's `undefined` and `null`. */
module Options {
  datatype Option<+T> = None | Some(value: T)
}
