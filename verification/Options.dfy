/** A value that may be absent: a null pointer, an empty slot, a failed search. */
module Options {
  datatype Option<+T> = None | Some(value: T)
}
