/** An optional value, for decoded columns and fallible look-ups. */
module Options {
  datatype Option<T> = None | Some(value: T)
}
