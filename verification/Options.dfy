/** The optional values that stand for Go's nil pointers and failed lookups. */
module Options {
  datatype Option<+T> = None | Some(value: T)
}
