/** Failure-compatible result type and an error chain in the style of `anyhow`. */
module Wrappers {

  datatype Option<T> = None | Some(value: T)

  /** An error as `anyhow` builds it: a message of this program, a message
      added on top of a cause with `.context(...)`, or an error produced by a
      library outside the model (I/O, serde, git), named by its origin. */
  datatype Error =
    | Msg(text: string)
    | Context(text: string, cause: Error)
    | Foreign(origin: string)

  datatype Result<T> = Ok(value: T) | Err(error: Error) {

    predicate IsFailure() {
      Err?
    }

    function PropagateFailure<U>(): Result<U>
      requires Err?
    {
      Err(error)
    }

    function Extract(): T
      requires Ok?
    {
      value
    }
  }

  /** `result.context(text)`: successes pass through, failures get `text` on top. */
  function WithContext<T>(r: Result<T>, text: string): (c: Result<T>)
    ensures c.Ok? <==> r.Ok?
    ensures r.Ok? ==> c.value == r.value
    ensures r.Err? ==> c.error.Context? && c.error.text == text && c.error.cause == r.error
  {
    match r
    case Ok(v) => Ok(v)
    case Err(e) => Err(Context(text, e))
  }

  /** How a computation that may panic ends: it returns a result to its
      caller, or it panics with a message that unwinds past every caller. */
  datatype Outcome<T> = Returned(result: Result<T>) | Panicked(message: string)

  /** `.context(text)` applied to what a computation returns; a panic passes
      through untouched. */
  function OutcomeWithContext<T>(o: Outcome<T>, text: string): (c: Outcome<T>)
    ensures c.Panicked? <==> o.Panicked?
    ensures o.Panicked? ==> c.message == o.message
    ensures o.Returned? ==> c.result == WithContext(o.result, text)
  {
    match o
    case Returned(r) => Returned(WithContext(r, text))
    case Panicked(m) => Panicked(m)
  }
}
