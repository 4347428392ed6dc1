/** The optional-value wrapper used for absent fields and failed parses. */
module Options {
  datatype Option<T> = None | Some(value: T)
}
