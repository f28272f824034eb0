/** The optional value used wherever the source returns a Swift optional. */
module Options {

  datatype Option<+T> = None | Some(value: T)
}
