/** Option and Result, used for the error paths of the modelled code. */
module Wrappers {
  datatype Option<T> = None | Some(value: T)
  {
    predicate IsSome() { this.Some? }
  }

  datatype Result<T, E> = Ok(value: T) | Err(error: E)
  {
    predicate IsFailure() { this.Err? }

    function PropagateFailure<U>(): Result<U, E>
      requires this.Err?
    {
      Err(this.error)
    }

    function Extract(): T
      requires this.Ok?
    {
      this.value
    }
  }
}
