/** Failure-carrying wrappers shared by the SQLite façade and the map-view model. */
module Results {

  /** A value that may be absent: std::optional on the C++ side, a nullable reference on the Java side. */
  datatype Option<+T> = None | Some(value: T)

  /** Either a value or the exception that prevented it from being produced. */
  datatype Result<+T, +E> = Ok(value: T) | Err(error: E)

  /**
   * The state an operation leaves behind, together with the exception it
   * threw, if any. C++ and Java exceptions do not undo the side effects that
   * happened before the throw, so the state is kept in both cases.
   */
  datatype Outcome<+S, +E> = Outcome(state: S, thrown: Option<E>) {
    predicate Threw() { thrown.Some? }
  }
}
