/** The engine's null results. */
module Options {
  datatype Option<+T> = None | Some(value: T)
}
