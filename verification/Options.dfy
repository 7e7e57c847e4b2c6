/** Values that may be absent: the source's null pointers and "not found" results. */
module Options {
  datatype Option<+T> = None | Some(value: T)
}
