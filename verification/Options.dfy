/** The optional value used throughout in place of Go's nil pointers and missing map keys. */
module Options {
  datatype Option<+T> = None | Some(value: T)
}
