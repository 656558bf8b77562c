/** The optional value used for board cells and for the bottom-piece query. */
module Options {

  datatype Option<+T> = None | Some(value: T)
}
