/** The optional value shared by the other modules: an absent column, a missing reply, an empty lookup. */
module Options {
  datatype Option<+T> = None | Some(value: T)
}
