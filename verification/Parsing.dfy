/** What parsers give: as functions of their input, and as calls on a reader. */
module Parsing {

  /** A value and the input after it, or an error. */
  datatype Parsed<+T, +I, +E> = Ok(value: T, rest: I) | Fail(error: E) {
    predicate IsFailure() { Fail? }

    function PropagateFailure<U>(): Parsed<U, I, E>
      requires Fail?
    {
      Fail(error)
    }

    function Extract(): (T, I)
      requires Ok?
    {
      (value, rest)
    }
  }

  /** What a call on a reader returns; the reader itself has moved. */
  datatype Result<+T, +E> = Value(value: T) | Error(error: E)

  /** A reader that answered `r` and has `rest` left did what `spec` says: the same error, or the same
      value and the same place. */
  ghost predicate Did<T, I, E>(spec: Parsed<T, I, E>, r: Result<T, E>, rest: I) {
    match spec
    case Ok(v, t) => r == Value(v) && rest == t
    case Fail(e) => r == Error(e)
  }
}
