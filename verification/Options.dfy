/** An optional value: boost::optional, and pointers that may be null. */
module Options {
  datatype Option<+T> = None | Some(value: T)
}
