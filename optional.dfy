/** The usual Some/None wrapper, used for results that may be absent (a parsed
    integer, a validation error). */
module Optional {
  datatype Option<T> = None | Some(value: T)
}
