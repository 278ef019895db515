/** The optional value used for the lookahead character and the result accessors. */
module Options {

  datatype Option<+T> = None | Some(value: T)

}
