/** The absent-or-present value used wherever the renderer passes a nullable pointer. */
module Optional {
  datatype Option<+T> = None | Some(value: T)
}
