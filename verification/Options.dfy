/** The optional value used throughout the model where the Go source has a nil or an absent result. */
module Options {
  datatype Option<+T> = None | Some(value: T)
}
