/** Failure-carrying values. `None` / `Failure` stand for the cases where the
    screener raises an exception or answers with an error instead of a value. */
module Results {

  /** An optional value; `None` models any exception raised while producing it. */
  datatype Option<+T> = None | Some(value: T)

  /** Either a value or an error the caller must surface. */
  datatype Result<+R, +E> = Success(value: R) | Failure(error: E)
}
