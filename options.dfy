/** A value that may be absent: a nullable reference, a failed `find`, a cleared selection. */
module Options {

  datatype Option<+T> = None | Some(value: T)

}
