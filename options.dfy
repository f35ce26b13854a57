/**
 * Optional values, the model's rendering of JavaScript's `null` results,
 * and results that may instead be a thrown `Error` with its message.
 */
module Options {

  datatype Option<+T> = None | Some(value: T)

  datatype Result<+T> = Ok(value: T) | Err(error: string)

  /** a | b for optional values: the first present one. */
  function OrElse<T>(a: Option<T>, b: Option<T>): (r: Option<T>)
    ensures r.Some? <==> a.Some? || b.Some?
    ensures a.Some? ==> r == a
  {
    if a.Some? then a else b
  }
}
