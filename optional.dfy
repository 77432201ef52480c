/** The usual Some/None wrapper, standing in for a null pointer or a missing JSON key. */
module Optional {
  datatype Option<+T> = None | Some(value: T)
}
