/** The presence flag a Go function returns beside its value. */
module Options {
  datatype Option<+T> = None | Some(value: T)
}
