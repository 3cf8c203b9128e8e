/** The optional value JavaScript expresses with `undefined`. */
module Options {

  datatype Option<+T> = None | Some(value: T)
}
