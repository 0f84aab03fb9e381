/** Small shared datatypes. */
module Common {

  /** A present or absent value; JavaScript's `null` results and optional fields. */
  datatype Option<+T> = None | Some(value: T)
}
