/** Messages as they sit in channels and trigger queues. Times are nanoseconds. */
module Messages {
  import opened Ids

  datatype Option<+T> = None | Some(value: T)

  /** A payload is opaque; only text may be copied. */
  datatype Payload = Payload(content: int, text: bool)

  datatype Domain = Steady | System | Device | External

  datatype Stamp = Stamp(domain: Domain, ns: int)

  datatype Message = Message(channel: Id, sequence: nat, payload: Payload, publishedAt: int, receivedAt: int,
                             stamp: Option<Stamp>)

  const MILLISECOND := 1_000_000
}
