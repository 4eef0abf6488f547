/** The optional value used for the reader's one-token lookahead slot. */
module Options {

  datatype Option<+T> = None | Some(value: T)
}
