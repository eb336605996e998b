/** A value that may be absent: the nulls and missing fields of the source. */
module Options {

  datatype Option<T> = None | Some(value: T)
}
