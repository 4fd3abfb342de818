/** The absent-or-present value the source writes as `null` / `undefined` versus an object. */
module Optional {

  datatype Option<+T> = None | Some(value: T)
}
