/**
 * WebSocket message values: the frame description (`ws_message_details_t`)
 * and the immutable message `ws_message_t`, whose recorded length is always
 * the size of its payload.
 */
module Message {

  newtype byte = x: int | 0 <= x < 256

  type Bytes = seq<byte>

  /** The 4-bit opcode values RFC 6455 leaves unnamed (3-7 and 11-15). */
  type ReservedCode = c: nat | c < 16 && c !in {0, 1, 2, 8, 9, 10} witness 3

  /** The opcodes named by RFC 6455; any other 4-bit value is kept as it is. */
  datatype Opcode =
    | Continuation
    | Text
    | Binary
    | ConnectionClose
    | Ping
    | Pong
    | Reserved(code: ReservedCode)

  /** What a frame header is built from: the final flag, the opcode and the payload length. */
  datatype Details = Details(final: bool, opcode: Opcode, payloadLength: nat)

  /** `ws_message_t`: details plus the payload they describe. */
  datatype WsMessage = WsMessage(details: Details, payload: Bytes)
  {
    /** The invariant the constructor establishes: the recorded length is the payload's size. */
    predicate Consistent()
    {
      details.payloadLength == |payload|
    }
  }

  /** The `ws_message_t` constructor: records `payload.size()` and keeps the payload as given. */
  function NewMessage(final: bool, opcode: Opcode, payload: Bytes): (m: WsMessage)
    ensures m.Consistent()
    ensures m.details.final == final && m.details.opcode == opcode
    ensures m.payload == payload
  {
    WsMessage(Details(final, opcode, |payload|), payload)
  }

  /** Two messages built by the constructor are equal exactly when their arguments are. */
  lemma NewMessageInjective(f1: bool, o1: Opcode, p1: Bytes, f2: bool, o2: Opcode, p2: Bytes)
    ensures NewMessage(f1, o1, p1) == NewMessage(f2, o2, p2) <==> (f1 == f2 && o1 == o2 && p1 == p2)
  {
  }

  /** Every consistent message is the result of the constructor applied to its own parts. */
  lemma ConsistentIsConstructed(m: WsMessage)
    requires m.Consistent()
    ensures m == NewMessage(m.details.final, m.details.opcode, m.payload)
  {
  }
}
