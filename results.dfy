/** Failure-carrying values shared by the modules of the ingestion pipeline:
    a JavaScript `null` becomes `None`, a thrown error becomes `Err`/`Fail`. */
module Results {

  datatype Option<+T> = None | Some(value: T)

  /** The value of an operation that either returns or throws. */
  datatype Result<+T, +E> = Ok(value: T) | Err(error: E)

  /** The value of an operation that returns nothing or throws. */
  datatype Outcome<+E> = Pass | Fail(error: E)
}
