/** The optional value used where the source has a null pointer or `npos`. */
module Maybe {
  datatype Option<T> = None | Some(value: T)
}
