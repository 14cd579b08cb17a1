/** The optional value used across the model: a nil-able reference or a zero `time.Time`. */
module Options {

  datatype Option<+T> = None | Some(value: T)

  /** The first value if present, otherwise the second. */
  function OrElse<T>(a: Option<T>, b: Option<T>): Option<T>
  {
    if a.Some? then a else b
  }
}
