/** A value that may be missing: Go's nil pointer, a failed lookup, a call that reverts. */
module Options {
  datatype Option<+T> = None | Some(value: T)
}
