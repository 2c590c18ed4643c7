/** A value or its absence. */
module Optional {
  datatype Option<+T> = None | Some(value: T)
}
