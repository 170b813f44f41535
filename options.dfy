/** The optional value used wherever the source returns `Option` or may skip an effect. */
module Options {
  datatype Option<+T> = None | Some(value: T)
}
