/**
 * `upgrade_to_websocket`: checks the request's connection, negotiates the
 * response header fields, takes the connection away from the request,
 * writes the `101 Switching Protocols` response on the new transport and
 * only then builds the session, whose constructor arms the read side.
 */
module Upgrade {
  import opened Wrappers
  import opened HeaderFields
  import opened Transport
  import opened SessionSpec
  import opened Session

  /** The HTTP connection a request is bound to, reduced to its connection id. */
  datatype HttpConnection = HttpConnection(id: nat)

  /** `request_t`, reduced to the connection it may still hold (`m_connection`). */
  class Request {
    var connection: Option<HttpConnection>

    constructor (connection: Option<HttpConnection>)
      ensures this.connection == connection
    {
      this.connection := connection;
    }
  }

  /**
   * The header-field decision of the general upgrade: a set holding
   * `Sec-WebSocket-Accept` is rejected (the check as the code writes it);
   * otherwise `Upgrade: websocket` is added when no `Upgrade` field is there.
   */
  function Negotiate(fields: Fields): (r: Result<Fields, Error>)
    ensures r.Failure? <==> HasField(fields, SecWebSocketAccept)
    ensures r.Failure? ==> r.error == AcceptFieldPresent
    ensures r.Success? && HasField(fields, Upgrade) ==> r.value == fields
    ensures r.Success? && !HasField(fields, Upgrade) ==>
      r.value == fields + [HeaderField(Upgrade, "websocket")]
    ensures r.Success? ==> forall g :: g != Upgrade ==> Get(r.value, g) == Get(fields, g)
    ensures r.Success? ==> HasField(r.value, Upgrade) && !HasField(r.value, SecWebSocketAccept)
    ensures r.Success? && Distinct(fields) ==> Distinct(r.value)
  {
    if HasField(fields, SecWebSocketAccept) then Failure(AcceptFieldPresent)
    else if HasField(fields, Upgrade) then Success(fields)
    else Success(SetField(fields, Upgrade, "websocket"))
  }

  /** Negotiating an already negotiated set changes nothing. */
  lemma NegotiateIdempotent(fields: Fields)
    requires Negotiate(fields).Success?
    ensures Negotiate(Negotiate(fields).value) == Negotiate(fields)
  {
  }

  /** The value the negotiated `Upgrade` field carries: the caller's own if there was one, else "websocket". */
  lemma NegotiatedUpgradeValue(fields: Fields)
    requires Negotiate(fields).Success?
    ensures Get(Negotiate(fields).value, Upgrade) ==
      if HasField(fields, Upgrade) then Get(fields, Upgrade) else Some("websocket")
  {
  }

  /** The `101 Switching Protocols` response header: `Connection: upgrade` and the negotiated fields. */
  function SwitchingProtocols(fields: Fields): ResponseHeader
  {
    ResponseHeader(101, "Switching Protocols", ConnectionUpgrade, fields)
  }

  /** The one write of the handshake: the response header alone, serialized without `Content-Length`. */
  function UpgradeResponseWrite(fields: Fields): seq<Buffer>
  {
    [HttpHeader(SwitchingProtocols(fields), SkipContentLength)]
  }

  /** Whether a transport call is the handshake's response write. */
  predicate IsResponseWrite(e: Event)
  {
    e.WriteCall? && |e.bufs| == 1 && e.bufs[0].HttpHeader?
    && e.bufs[0].header.status == 101 && e.bufs[0].header.reason == "Switching Protocols"
    && e.bufs[0].header.connection == ConnectionUpgrade
    && e.bufs[0].contentLength == SkipContentLength
  }

  /** The transport calls of a successful upgrade: the response write, then `init_read`. */
  function UpgradeLog(fields: Fields): (log: seq<Event>)
    ensures |log| == 2 && IsResponseWrite(log[0]) && log[0].bufs[0].header.fields == fields
    ensures log[1] == InitReadCall
  {
    [WriteCall(UpgradeResponseWrite(fields)), InitReadCall]
  }

  /**
   * Over the whole life of an upgraded session, the response write is the
   * first transport call and the only one of its kind, `init_read` comes
   * right after it, and every later write is a frame.
   */
  lemma HandshakePrecedesFrames(fields: Fields, ops: seq<Op>)
    ensures var log := UpgradeLog(fields) + Events(true, ops);
      forall i :: 0 <= i < |log| ==>
        (IsResponseWrite(log[i]) <==> i == 0)
        && (log[i].InitReadCall? <==> i == 1)
        && (i >= 2 && log[i].WriteCall? ==> IsFrameWrite(log[i].bufs))
  {
    var log := UpgradeLog(fields) + Events(true, ops);
    WritesAreFrames(true, ops);
    forall i | 2 <= i < |log| ensures log[i] == Events(true, ops)[i - 2] {
    }
  }

  /**
   * The general `upgrade_to_websocket`.  Without a connection it fails with
   * the error of `check_connection`; with a rejected header set it fails
   * before the connection moves; on success the request holds no
   * connection and the returned session is open on a new transport whose
   * only calls so far are the response write and then `init_read`.
   */
  method UpgradeToWebSocket(req: Request, fields: Fields) returns (r: Result<WebSocket, Error>)
    modifies req
    ensures old(req.connection).None? ==> r == Failure(NoConnection)
    ensures old(req.connection).Some? && Negotiate(fields).Failure? ==> r == Failure(Negotiate(fields).error)
    ensures r.Failure? ==> req.connection == old(req.connection)
    ensures r.Success? <==> old(req.connection).Some? && Negotiate(fields).Success?
    ensures r.Success? ==>
      req.connection.None?
      && fresh(r.value) && fresh(r.value.connection)
      && r.value.Valid() && r.value.IsOpen()
      && r.value.connection.id == old(req.connection).value.id
      && r.value.connection.log == UpgradeLog(Negotiate(fields).value)
  {
    if req.connection.None? {
      return Failure(NoConnection);
    }
    if HasField(fields, SecWebSocketAccept) {
      return Failure(AcceptFieldPresent);
    }
    var negotiated := fields;
    if !HasField(negotiated, Upgrade) {
      negotiated := SetField(negotiated, Upgrade, "websocket");
    }

    var conn := req.connection.value;
    req.connection := None;
    var transport := new WsConnection(conn.id);

    var responseBufs: seq<Buffer> := [];
    var header := ResponseHeader(101, "Switching Protocols", ConnectionUpgrade, negotiated);
    responseBufs := responseBufs + [HttpHeader(header, SkipContentLength)];
    assert negotiated == Negotiate(fields).value;
    assert responseBufs == UpgradeResponseWrite(negotiated);

    transport.WriteData(responseBufs);
    var ws := new WebSocket(transport);
    return Success(ws);
  }

  /** The header set the one-string convenience form builds. */
  function AcceptFields(accept: string): (fs: Fields)
    ensures Distinct(fs) && Get(fs, SecWebSocketAccept) == Some(accept)
  {
    SetField([], SecWebSocketAccept, accept)
  }

  /** The header set the two-string convenience form builds. */
  function AcceptProtocolFields(accept: string, protocol: string): (fs: Fields)
    ensures Distinct(fs) && Get(fs, SecWebSocketAccept) == Some(accept)
    ensures Get(fs, SecWebSocketProtocol) == Some(protocol)
  {
    SetField(AcceptFields(accept), SecWebSocketProtocol, protocol)
  }

  /** As the general form is written, both convenience forms' header sets are always rejected. */
  lemma ConvenienceFieldsRejected(accept: string, protocol: string)
    ensures Negotiate(AcceptFields(accept)) == Failure(AcceptFieldPresent)
    ensures Negotiate(AcceptProtocolFields(accept, protocol)) == Failure(AcceptFieldPresent)
  {
  }

  /** `upgrade_to_websocket(req, accept, ...)`: puts `Sec-WebSocket-Accept` into a new set and delegates. */
  method UpgradeWithAccept(req: Request, accept: string) returns (r: Result<WebSocket, Error>)
    modifies req
    ensures r == Failure(if old(req.connection).None? then NoConnection else AcceptFieldPresent)
    ensures req.connection == old(req.connection)
  {
    var fields: Fields := [];
    fields := SetField(fields, SecWebSocketAccept, accept);
    ConvenienceFieldsRejected(accept, "");
    r := UpgradeToWebSocket(req, fields);
  }

  /**
   * `upgrade_to_websocket(req, accept, protocol, ...)`: adds
   * `Sec-WebSocket-Protocol` as well and delegates.
   */
  method UpgradeWithAcceptAndProtocol(req: Request, accept: string, protocol: string)
    returns (r: Result<WebSocket, Error>)
    modifies req
    ensures r == Failure(if old(req.connection).None? then NoConnection else AcceptFieldPresent)
    ensures req.connection == old(req.connection)
  {
    var fields: Fields := [];
    fields := SetField(fields, SecWebSocketAccept, accept);
    fields := SetField(fields, SecWebSocketProtocol, protocol);
    ConvenienceFieldsRejected(accept, protocol);
    r := UpgradeToWebSocket(req, fields);
  }
}
