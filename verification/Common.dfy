// Stock types shared by the components.

module Common {
  datatype Option<+T> = None | Some(value: T)
}
