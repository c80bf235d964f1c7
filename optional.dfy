/** Values that may be absent (the source's null / None) and the outcome of a
    setter that may throw. */
module Optional {

  datatype Option<+T> = None | Some(value: T)

  /** Result of a validating setter: it either succeeds or raises the named
      exception with the given message, leaving the object unchanged. */
  datatype Outcome = Pass | Raise(exception: string, message: string)
}
