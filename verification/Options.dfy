/** The optional values shared by every module: a nullable column, an absent lookup. */
module Options {
  datatype Option<+T> = None | Some(value: T)
}
