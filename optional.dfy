/** The optional value of Swift (`T?`): a value or nothing. */
module Optional {

  datatype Option<+T> = None | Some(value: T)

}
