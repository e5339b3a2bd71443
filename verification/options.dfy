/** Optional values: the outcome of a lookup or a conversion that may fail. */
module Options {

  datatype Option<+T> = None | Some(value: T)
}
