/**
 * The transport a WebSocket session drives (`impl::ws_connection_t`), seen
 * only through the calls made on it.  Its buffers are structured values: a
 * frame header is described by the details it is built from and an HTTP
 * response header by its record, never by serialized bytes.
 */
module Transport {
  import opened Wrappers
  import opened Message
  import opened HeaderFields

  /** Errors the core reports, one per `throw` it can reach. */
  datatype Error =
    | NoConnection          // `check_connection` found the request's connection already gone
    | AcceptFieldPresent    // the header set already holds `Sec-WebSocket-Accept`
    | WebSocketClosed       // `send_message` on a closed session
    | TransportCloseFailed  // the transport's own `close` threw

  /** The `Connection` header value an HTTP response header carries. */
  datatype ConnectionHeader = ConnectionClose | ConnectionKeepAlive | ConnectionUpgrade

  /** Whether header serialization emits a `Content-Length` field. */
  datatype ContentLengthPresence = AddContentLength | SkipContentLength

  /** An HTTP response header: status line, `Connection` value and the other fields. */
  datatype ResponseHeader = ResponseHeader(
    status: nat,
    reason: string,
    connection: ConnectionHeader,
    fields: Fields)

  /** One buffer of a write. */
  datatype Buffer =
    | FrameHeader(details: Details)  // `impl::write_message_details(details)`
    | Payload(bytes: Bytes)          // payload moved in unchanged
    | HttpHeader(header: ResponseHeader, contentLength: ContentLengthPresence)  // `impl::create_header_string`

  /** A call the core makes on the transport. */
  datatype Event = InitReadCall | WriteCall(bufs: seq<Buffer>) | CloseCall

  /** The transport: a connection id and the log of every call made on it. */
  class WsConnection {
    const id: nat
    ghost var log: seq<Event>

    constructor (id: nat)
      ensures this.id == id && log == []
    {
      this.id := id;
      log := [];
    }

    /** `init_read`: arms the read side. */
    method InitRead()
      modifies this
      ensures log == old(log) + [InitReadCall]
    {
      log := log + [InitReadCall];
    }

    /** `write_data`: queues the buffers as one write. */
    method WriteData(bufs: seq<Buffer>)
      modifies this
      ensures log == old(log) + [WriteCall(bufs)]
    {
      log := log + [WriteCall(bufs)];
    }

    /** `close`: the close request is always recorded; the call itself may fail. */
    method Close() returns (r: Outcome<Error>)
      modifies this
      ensures log == old(log) + [CloseCall]
      ensures r == Pass || r == Fail(TransportCloseFailed)
    {
      log := log + [CloseCall];
      r :| r == Pass || r == Fail(TransportCloseFailed);
    }
  }
}
