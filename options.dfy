/** The optional value of a Python expression that may be None. */
module Options {
  datatype Option<T> = None | Some(value: T)
}
