/** The optional value used wherever the bot may come back with nothing. */
module Optional {

  datatype Option<+T> = None | Some(value: T)

}
