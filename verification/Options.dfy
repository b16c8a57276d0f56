/**
  A value that may be missing: a null pointer, or a step that is not possible.
*/
module Options {
  datatype Option<T> = None | Some(value: T)
}
