/** The optional value used wherever the source has `None` or a caught ValueError. */
module Options {

  datatype Option<+T> = None | Some(value: T)
}
