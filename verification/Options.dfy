/**
 Optional values, for operations that may have no result or no failure.
 */
module Options {
  datatype Option<+T> = None | Some(value: T)
}
