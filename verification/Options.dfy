/** The optional value used throughout the project in place of Go's nil and empty string. */
module Options {
  datatype Option<+T> = None | Some(value: T)
}
