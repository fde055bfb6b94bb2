/** Option and Result types shared by the whole model. */
module Wrappers {

  datatype Option<+T> = None | Some(value: T)

  /** The host errors that escape the evaluator instead of being turned into `None`. */
  datatype Error =
    | ZeroSliceStep   // Python's ValueError "slice step cannot be zero"
    | GlueNotString   // the join glue is not a str, so extracting it as `&str` fails
    | Unorderable     // Python's `sorted` raised TypeError on values it cannot order
    | NotSerializable // `json.dumps` raised while rendering a literal
    | NotAPyList      // PyO3 could not take a tuple as a `PyList` (a downcast or an argument binding): a TypeError

  /** The `PyResult` of an evaluation step; `:-` plays the part of Rust's `?`. */
  datatype Result<+T> = Ok(value: T) | Err(error: Error) {
    predicate IsFailure() {
      Err?
    }

    function PropagateFailure<U>(): Result<U>
      requires Err?
    {
      Err(error)
    }

    function Extract(): T
      requires Ok?
    {
      value
    }
  }
}
