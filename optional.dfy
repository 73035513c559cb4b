// An optional value, standing in for a null pointer or a missing result.
module Optional {
  datatype Option<+T> = None | Some(value: T)
}
