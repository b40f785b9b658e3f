/** A value that may be absent: Python's `None`, a missing dictionary key,
    or a query that found no row. */
module Optional {
  datatype Option<T> = None | Some(value: T)
}
