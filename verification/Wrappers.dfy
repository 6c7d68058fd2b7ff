/** Optional and failing results. */
module Wrappers {
  datatype Option<+T> = None | Some(value: T)

  datatype Result<+T, +E> = Ok(value: T) | Err(error: E) {
    predicate IsFailure() { Err? }

    function PropagateFailure<U>(): Result<U, E>
      requires Err?
    {
      Err(error)
    }

    function Extract(): T
      requires Ok?
    {
      value
    }
  }

  function Need<E>(condition: bool, error: E): (r: Result<(), E>)
    ensures r.Ok? <==> condition
    ensures r.Err? ==> r.error == error
  {
    if condition then Ok(()) else Err(error)
  }
}
