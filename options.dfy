/** An optional value: the model's stand-in for JavaScript's `undefined` result. */
module Options {

  datatype Option<+T> = None | Some(value: T)
}
