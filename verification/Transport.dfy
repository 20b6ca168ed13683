/** The wire messages of internal/transport/messages.go. */
module Transport {
  import opened Connector

  /** BatchID is assigned by the caller; the transport only copies it. */
  datatype ChangeBatch = ChangeBatch(id: nat, changes: seq<Change>)

  datatype Msg =
    | Hello(node: string, subscribe: seq<string>)
    | HelloAck(accepted: bool, reason: string)
    | Batch(batch: ChangeBatch)
    | Ack(id: nat)
    | Nack(id: nat, reason: string)

  predicate IsReply(m: Msg) {
    m.Ack? || m.Nack?
  }
}
