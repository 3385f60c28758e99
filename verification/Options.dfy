/// A result that may be missing: `None` stands for a call that does not return.

module Options {
  datatype Option<+T> = None | Some(value: T)
}
