/** An optional value: a pointer that may be null, a map lookup that may miss. */
module Options {
  datatype Option<T> = None | Some(value: T)
}
