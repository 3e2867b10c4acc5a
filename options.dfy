/** The optional value used for fields that start out as Python's `None`. */
module Options {

  datatype Option<+T> = None | Some(value: T)
}
