/** The status codes shared by the data and consensus layers, and the outcome of a
    call that writes its output only on success. */
module Status {

  datatype DataStatus =
    | Argument | Length | Magic | Version | Type | Content | Capacity
    | Unresolved | ProviderError | Duplicate | Commitment | Target | Work | Overflow

  datatype Outcome<+T> = Ok(value: T) | Err(status: DataStatus)
}
