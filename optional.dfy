/** The absent-or-present value the source writes as `Optional[int]` (None or an int). */
module Optional {

  datatype Option<+T> = None | Some(value: T)

}
