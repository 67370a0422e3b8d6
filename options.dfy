/** The optional-value type used for the active-instance slot and for the byte a finished frame delivers. */
module Options {

  datatype Option<T> = None | Some(value: T)
}
