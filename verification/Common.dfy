/** Shared by all components. */
module Common {
  datatype Option<+T> = None | Some(value: T)
}
