/** A value that may be absent: a `null` field, a missing storage key, a failed `find`. */
module Options {
  datatype Option<+T> = None | Some(value: T)
}
