/** The nullable values of the modelled code: JavaScript's `null` and
    `undefined` become `None`. */
module Optional {

  datatype Option<+T> = None | Some(value: T)

}
