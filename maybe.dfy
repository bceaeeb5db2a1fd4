/** An optional value, for the games' `null`-able selections. */
module Maybe {

  datatype Option<T> = None | Some(value: T)
}
