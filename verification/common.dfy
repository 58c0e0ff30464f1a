/** Small vocabulary shared by every module of the model. */
module Common {
  datatype Option<+T> = None | Some(value: T)

  function OrElse<T>(a: Option<T>, b: Option<T>): Option<T> { if a.Some? then a else b }
}
