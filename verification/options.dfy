/** A value that may be missing, as `null` and `undefined` are in the components' state. */
module Options {
  datatype Option<T> = None | Some(value: T)
}
