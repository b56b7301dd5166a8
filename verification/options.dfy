/** The optional value used for absent keys, failed parses and ignored events. */
module Options {

  datatype Option<T> = None | Some(value: T)
}
