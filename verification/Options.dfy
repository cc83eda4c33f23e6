/** A value that may be absent: a nullable column, a map miss, a failed parse. */
module Options {

  datatype Option<+T> = None | Some(value: T)
}
