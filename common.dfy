/** Datatypes shared by the server and the client models. */
module Common {

  /** An optional value: `None` stands for Python's `None` and for JavaScript's `null`. */
  datatype Option<+T> = None | Some(value: T)
}
