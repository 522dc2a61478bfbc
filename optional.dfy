/** The optional-value wrapper used for Swift optionals (`T?`). */
module Optional {

  datatype Option<+T> = None | Some(value: T)
}
