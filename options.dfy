/** The optional value used for nullable pointers, optional slots and match results. */
module Options {
  datatype Option<+T> = None | Some(value: T)
}
