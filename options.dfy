/** The optional value used throughout the model for JavaScript's `undefined`/`null` slots. */
module Options {
  datatype Option<+T> = None | Some(value: T)
}
