/** An optional value: a missing map entry, an unset field, an error that did not happen. */
module Options {
  datatype Option<+T> = None | Some(value: T)
}
