/**
 * `websocket_t`: the session handle.  It holds the transport while the
 * session is open and nothing once it is closed; every method is proved to
 * make exactly the transport calls module SessionSpec assigns to it.
 */
module Session {
  import opened Wrappers
  import opened Message
  import opened Transport
  import opened SessionSpec

  class WebSocket {
    /** `m_ws_connection_handle`: present while open, moved out by `close`. */
    var handle: Option<WsConnection>
    /** The transport the session was built with, still observable after it is closed. */
    ghost const connection: WsConnection

    ghost predicate Valid()
      reads this
    {
      handle.Some? ==> handle.value == connection
    }

    predicate IsOpen()
      reads this
    {
      handle.Some?
    }

    /** The constructor takes the transport and arms its read side, with no other call on it. */
    constructor (c: WsConnection)
      modifies c
      ensures Valid() && IsOpen() && connection == c
      ensures c.log == old(c.log) + [InitReadCall]
    {
      handle := Some(c);
      connection := c;
      new;
      c.InitRead();
    }

    /**
     * `close`: on an open session the handle is cleared first and the
     * transport asked to close once; its failure, if any, is reported but the
     * session is closed either way.  On a closed session it does nothing.
     */
    method Close() returns (r: Outcome<Error>)
      requires Valid()
      modifies this, connection
      ensures Valid() && !IsOpen()
      ensures connection.log == old(connection.log) + StepEvents(old(IsOpen()), CloseOp)
      ensures r.Fail? ==> old(IsOpen()) && r.error == TransportCloseFailed
    {
      r := Pass;
      if handle.Some? {
        var con := handle.value;
        handle := None;
        r := con.Close();
      }
    }

    /** The destructor: closes the session and discards any failure of the close. */
    method Destroy()
      requires Valid()
      modifies this, connection
      ensures Valid() && !IsOpen()
      ensures connection.log == old(connection.log) + StepEvents(old(IsOpen()), DestroyOp)
    {
      var _ := Close();
    }

    /**
     * `send_message`: on an open session, one write of the frame header built
     * from `(final, opcode, |payload|)` followed by the payload itself; on a
     * closed session, the "websocket is closed" error and no transport call.
     * The session's state is unchanged either way.
     */
    method SendMessage(final: bool, opcode: Opcode, payload: Bytes) returns (r: Outcome<Error>)
      requires Valid()
      modifies connection
      ensures connection.log == old(connection.log) + StepEvents(IsOpen(), SendOp(final, opcode, payload))
      ensures r == SendOutcome(IsOpen())
    {
      if handle.Some? {
        var bufs: seq<Buffer> := [];
        var details := Details(final, opcode, |payload|);
        bufs := bufs + [FrameHeader(details)];
        bufs := bufs + [Payload(payload)];
        assert bufs == FrameBuffers(final, opcode, payload);
        handle.value.WriteData(bufs);
        r := Pass;
      } else {
        r := Fail(WebSocketClosed);
      }
    }
  }
}
