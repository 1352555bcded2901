/** SHA-256 enters the model as a deterministic function of a provider, a domain and the
    hashed bytes; nothing else is assumed of it. */
module Hashing {
  import opened BigEndian
  import opened Status

  datatype Option<+T> = None | Some(value: T)

  type Hash = h: seq<byte> | |h| == 32 witness Bytes(32, 0)

  datatype Domain = BlockId | BlockBody | TransactionId | Storage

  type HashFunction = (nat, Domain, seq<byte>) -> Outcome<Hash>

  /** A missing provider, or one that cannot answer yet, leaves the digest unresolved;
      any other failure is a provider error. */
  function Digest(hash: HashFunction, provider: Option<nat>, d: Domain, b: seq<byte>): Outcome<Hash> {
    if provider.None? then Err(Unresolved)
    else
      match hash(provider.value, d, b)
      case Ok(h) => Ok(h)
      case Err(s) => Err(if s == Unresolved then Unresolved else ProviderError)
  }
}
