/** The two result types shared by every module: Rust's `Option` and `Result`. */
module Options {

  datatype Option<+T> = None | Some(value: T)

  datatype Result<+T, +E> = Ok(value: T) | Err(error: E) {
    predicate IsFailure() { Err? }

    function PropagateFailure<U>(): Result<U, E>
      requires Err?
    {
      Err(error)
    }

    function Extract(): T
      requires Ok?
    {
      value
    }
  }

  /** `filter(|s| !s.is_empty())`. */
  function NonEmpty(s: Option<string>): Option<string> { if s.Some? && s.value != "" then s else None }
}
