/** Shared vocabulary: nullable columns. */
module Common {
  datatype Option<+T> = None | Some(value: T)
}
