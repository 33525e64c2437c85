/** Optional values: a nullable column, an absent storage key, a nil pointer. */
module Optional {
  datatype Option<+T> = None | Some(value: T)
}
