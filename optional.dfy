/** Python's `None` versus a present value. */
module Optional {

  datatype Option<+T> = None | Some(value: T)
}
