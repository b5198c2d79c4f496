/** The optional-value type that stands for Swift's `Optional`. */
module Options {

  /** `None` is Swift's `nil`; `Some(v)` is a present value. */
  datatype Option<+T> = None | Some(value: T)
}
