/** A value that may be absent: a JavaScript property that is `undefined`, a `find` with no match. */
module Common {
  datatype Option<T> = None | Some(value: T)
}
