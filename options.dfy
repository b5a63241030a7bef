/** A value that may be absent: an input the user left unparsable, a file that is not there. */
module Options {

  datatype Option<+T> = None | Some(value: T)

}
