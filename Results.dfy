/** Optional values and results-or-errors: the model's stand-in for
    `undefined` lookups and thrown errors. */
module Results {

  datatype Option<+T> = None | Some(value: T)

  datatype Result<+T, +E> = Ok(value: T) | Err(error: E)
}
