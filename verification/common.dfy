/** Shared helper types. */
module Common {

  /** A nullable value: a nullable foreign key, an optional form field. */
  datatype Option<+T> = None | Some(value: T)
}
