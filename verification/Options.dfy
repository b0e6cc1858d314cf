/** Optional values: an empty pointer, a key that is not found, a parse that throws. */
module Options {
  datatype Option<+T> = None | Some(value: T)
}
