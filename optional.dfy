/** The optional-value datatype shared by every module of the model. */
module Optional {

  /** `None` stands for Python's None or for an operation that raised. */
  datatype Option<+T> = None | Some(value: T)
}
