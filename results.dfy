/** Failure-carrying datatypes shared by the pallets' models. */
module Results {

  datatype Option<+T> = None | Some(value: T)

  /** The outcome of a dispatchable call that returns a value. */
  datatype Result<+T, +E> = Ok(value: T) | Err(error: E)

  /** The outcome of a dispatchable call that returns nothing (`DispatchResult`). */
  datatype Outcome<+E> = Pass | Fail(error: E)
}
