/** An optional value: nil, or a zero time, in Go. */
module Options {
  datatype Option<+T> = None | Some(value: T)
}
