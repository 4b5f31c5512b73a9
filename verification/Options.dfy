/** Optional values and results that may be errors. */
module Options {

  datatype Option<T> = None | Some(value: T)

  /** How a string field is read where an empty string counts as absent. */
  function Present(s: string): (r: Option<string>) { if s == "" then None else Some(s) }

  datatype Result<T, E> = Ok(value: T) | Err(error: E)
}
