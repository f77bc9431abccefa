/** An optional value, for results the source reports with a flag, a nil or an error. */
module Options {
  datatype Option<+T> = None | Some(value: T)
}
