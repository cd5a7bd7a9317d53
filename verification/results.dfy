/** Failure-carrying return values shared by every module of the model.
    The source raises exceptions (`QD_ERROR`, `QD_ASSERT`, Python `raise`);
    the model returns `Err` instead, so every error path is a value. */
module Results {

  datatype Option<+T> = None | Some(value: T)

  datatype Result<+T, +E> = Ok(value: T) | Err(error: E) {
    predicate IsFailure() {
      Err?
    }

    function PropagateFailure<U>(): Result<U, E>
      requires Err?
    {
      Err(error)
    }

    function Extract(): T
      requires Ok?
    {
      value
    }
  }
}
