/** An optional value: what the Go code expresses with a nil value or a second boolean result. */
module Options {
  datatype Option<+T> = None | Some(value: T)
}
