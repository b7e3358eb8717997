/** The optional value that several modules use. */
module Options {

  datatype Option<T> = None | Some(value: T)
}
