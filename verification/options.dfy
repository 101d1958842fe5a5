/** The optional value of a lookup that may come back nil. */
module Options {
  datatype Option<T> = None | Some(value: T)
}
