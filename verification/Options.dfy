/** A value that may be absent, as `null` and `undefined` are used in the repository. */
module Options {
  datatype Option<+T> = None | Some(value: T)
}
