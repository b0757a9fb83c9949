/** The chat message as the server handles it, and the wrapper in which it
    travels through the dispatcher's inbound queue. */
module Chat {
  import opened GoNum

  /** The bytes of one websocket frame or one backbone payload. */
  type Payload = seq<bv8>

  /** chat.Message with the fields the server reads; `SentAt` is in
      microseconds since the Unix epoch. */
  datatype Message = Message(MessageId: uint64, Text: string, Sender: string, SentAt: int, Room: string)

  /** Where a wrapper entered the inbound queue: from a connected client's
      read loop, or from the distribution bridge. */
  datatype Provenance = Local | Distributor

  datatype MessageWrapper = MessageWrapper(message: Message, source: Provenance)
}
