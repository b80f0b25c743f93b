/** Outcomes of the operations that can fail in the source: a `Dictionary` read of an absent key,
    `Max` over an empty collection, an optional value. */
module Results {

  datatype Option<T> = None | Some(value: T)

  /** The exceptions the modelled code lets escape. */
  datatype Error =
    | KeyNotFound       // Dictionary<int,double> indexer on an absent key
    | EmptySequence     // Enumerable.Max over no values

  datatype Result<T> = Ok(value: T) | Err(error: Error)
}
