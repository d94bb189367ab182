/** Optional values and results with an error, as used throughout the model. */
module Wrappers {

  datatype Option<+T> = None | Some(value: T)

  datatype Result<+T, +E> = Success(value: T) | Failure(error: E)

  /** The error of a result as a zero- or one-element sequence. */
  function ErrorsOf<T, E>(r: Result<T, E>): (es: seq<E>)
    ensures r.Success? <==> es == []
    ensures r.Failure? ==> es == [r.error]
  {
    if r.Failure? then [r.error] else []
  }
}
