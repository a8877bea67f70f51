/** An optional value, standing for Python's `None` where the source uses it. */
module Options {

  datatype Option<+T> = None | Some(value: T)

}
