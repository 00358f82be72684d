/** The Some/None datatype used wherever the game holds a reference that may be null. */
module Optional {

  datatype Option<+T> = None | Some(value: T)
}
