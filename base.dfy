/** Small outcome types shared by every module of the model. */
module Base {

  /** The conventional optional value; Python's `None` is `None` here. */
  datatype Option<+T> = None | Some(value: T)

  /**
   * Outcome of a step that can decline, succeed or raise.
   * `Declined` is a Python function returning `None`; `Fault` is a Python
   * exception (IndexError, KeyError, ValueError, AttributeError,
   * AssertionError) that would abort the caller.
   */
  datatype Parse<+T> = Declined | Parsed(value: T) | Fault(reason: string)

  /** Outcome of a step that either returns a value or raises. */
  datatype Outcome<+T> = Ok(value: T) | Raised(error: string)

  /** Appending three sequences does not depend on the grouping. */
  lemma AppendAssoc<T>(a: seq<T>, b: seq<T>, c: seq<T>)
    ensures a + b + c == a + (b + c)
  {
  }
}
