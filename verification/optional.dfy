/** The optional value used wherever the program uses `None` for "absent". */
module Optional {

  /** A value that may be absent, as Python's `Optional[T]`. */
  datatype Option<T> = None | Some(value: T)
}
