/** Success-or-failure values standing for the C# exceptions of the core. */
module Results {
  datatype Result<T, E> = Ok(value: T) | Err(error: E)
  {
    predicate IsFailure() { Err? }
  }

  datatype Option<T> = None | Some(value: T)
}
