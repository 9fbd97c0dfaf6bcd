/** An optional value; `None` stands for Go's nil error. */
module Options {

  datatype Option<+T> = None | Some(value: T)
}
