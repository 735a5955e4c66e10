/** Values that may be absent: a Python `None`, a nullable foreign key. */
module Common {

  datatype Option<+T> = None | Some(value: T)
}
