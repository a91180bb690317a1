# RESTinio WebSocket upgrade and session handle, modelled in Dafny

This project models `dev/restinio/websocket.hpp` of RESTinio: the step that
turns an HTTP request into a WebSocket session (`upgrade_to_websocket` and
its two convenience overloads) and the session handle `websocket_t` that
owns the transport afterwards, plus the immutable message value
`ws_message_t`.

The transport (`impl::ws_connection_t`) is reduced to the calls the core
makes on it.  Each `WsConnection` keeps a ghost log of those calls:
`InitReadCall`, `WriteCall(bufs)` and `CloseCall`.  The log is what makes
ordering, "at most once" and "nothing else happens" statable.  Buffers are
structured values, not bytes.  A frame header is `FrameHeader(details)`,
built from `(final, opcode, payload length)`.  The payload is
`Payload(bytes)`.  The upgrade response is `HttpHeader(record,
SkipContentLength)`.

Modules, leaves first:

- `Wrappers` (`wrappers.dfy`): `Option`, `Result`, `Outcome`.
- `Message` (`message.dfy`): bytes, opcodes, `Details`, and `WsMessage` with its `Consistent()` invariant.
- `HeaderFields` (`header_fields.dfy`): the header set as an ordered list of (field, value) pairs, with `has_field` and `set_field`.
- `Transport` (`transport.dfy`): the error tags, the response header record, buffers, events and the `WsConnection` class.
- `SessionSpec` (`session_spec.dfy`): what each session call does to the transport, as functions, plus lemmas over any sequence of calls.
- `Session` (`session.dfy`): the `WebSocket` class (`websocket_t`). Its methods are proved to make exactly the calls `SessionSpec` gives.
- `Upgrade` (`upgrade.dfy`): the request, header negotiation, the general upgrade, the two convenience forms, and the handshake-ordering lemma.

## Where the model follows the code over its apparent intent

- Line 150 rejects a header set that **already contains**
  `Sec-WebSocket-Accept`. The error text it raises says the field is
  mandatory, which suggests the opposite test was meant. The model keeps
  the test as written (`Upgrade.Negotiate`).
- A consequence is that both convenience overloads always fail. They put
  `Sec-WebSocket-Accept` into the set before they delegate.
  `Upgrade.ConvenienceFieldsRejected`, `Upgrade.UpgradeWithAccept` and
  `Upgrade.UpgradeWithAcceptAndProtocol` state this.
  Neither overload ever moves the connection.
- The code writes the `101` response on the new transport (line 189)
  before it builds the session (line 191). The session's constructor then
  calls `init_read` (line 68). So the log of a fresh session is the
  response write followed by `init_read`.
- The line that writes the response (line 189) uses `.` where `->` is
  needed. The model treats it as a write on the new transport.

## Model

| member | source | states |
|---|---|---|
| `Message.NewMessage` | dev/restinio/websocket.hpp:28-34 | the message records `payload.size()` as its length (invariant `Consistent`), keeps final flag and opcode, and keeps the payload unchanged |
| `Message.NewMessageInjective` | dev/restinio/websocket.hpp:28-34 | two constructed messages are equal exactly when their final flag, opcode and payload are |
| `Message.ConsistentIsConstructed` | dev/restinio/websocket.hpp:28-34 | every message satisfying the length invariant is what the constructor builds from its own parts |
| `HeaderFields.HasField` | dev/restinio/websocket.hpp:150-157 | `has_field` holds exactly when some pair of the set carries the field |
| `HeaderFields.Get` | dev/restinio/websocket.hpp:150-157 | a value is found exactly when the field is present, and the found pair is in the set |
| `HeaderFields.SetField` | dev/restinio/websocket.hpp:159 | after `set_field` the field has the new value; every other field keeps its presence and value; an existing field gets the new value at the position of its first occurrence and every other pair stays as it was; an absent one is appended at the end; no duplicate field is introduced |
| `Transport.WsConnection.constructor` | dev/restinio/websocket.hpp:169-176 | a new transport carries the connection id and has seen no call |
| `Transport.WsConnection.InitRead` | dev/restinio/websocket.hpp:68 | `init_read` adds exactly one `InitReadCall` to the log |
| `Transport.WsConnection.WriteData` | dev/restinio/websocket.hpp:115 | `write_data` adds exactly one write carrying the buffers as given |
| `Transport.WsConnection.Close` | dev/restinio/websocket.hpp:87 | `close` adds exactly one `CloseCall`, and either succeeds or fails with a transport error |
| `SessionSpec.FrameBuffers` | dev/restinio/websocket.hpp:100-113 | a send builds two buffers: first the header for `(final, opcode, payload size)`, then the payload unchanged |
| `SessionSpec.SendOutcome` | dev/restinio/websocket.hpp:98-120 | a send fails exactly when the session is closed, with the "websocket is closed" error |
| `SessionSpec.EventsAppend` | dev/restinio/websocket.hpp:81-121 | the calls a session makes over two runs of operations are the first run's calls followed by the second run's calls, starting from the state the first run leaves |
| `SessionSpec.ClosedIsInert` | dev/restinio/websocket.hpp:82-120 | on a closed session, any sequence of `close`, send and destruction makes no transport call and leaves it closed |
| `SessionSpec.CloseAtMostOnce` | dev/restinio/websocket.hpp:71-89 | over any sequence of operations, the transport gets one close if the session was open and some operation closes or destroys it, and no close otherwise; the session is open afterwards exactly when it was open and nothing closed it |
| `SessionSpec.NothingAfterClose` | dev/restinio/websocket.hpp:82-98 | once a `close` or destruction has run, later operations add no transport call and the session stays closed |
| `SessionSpec.WritesAreFrames` | dev/restinio/websocket.hpp:98-115 | every transport call a session makes is a close or a two-buffer frame write whose header gives the payload's length; a session never calls `init_read` again |
| `SessionSpec.SendsInOrder` | dev/restinio/websocket.hpp:92-116 | on an open session, n sends make exactly n writes, in call order, each carrying its payload unchanged, and the session stays open |
| `Session.WebSocket.constructor` | dev/restinio/websocket.hpp:64-69 | a new session is open on the given transport and has made exactly one call on it: `init_read` |
| `Session.WebSocket.Close` | dev/restinio/websocket.hpp:81-89 | afterwards the session is closed; an open session makes exactly one transport close, a closed one none; a failure is reported only for a transport close that failed, and the session is closed even then |
| `Session.WebSocket.Destroy` | dev/restinio/websocket.hpp:71-79 | destruction leaves the session closed, makes the same transport calls as `close`, and reports no failure |
| `Session.WebSocket.SendMessage` | dev/restinio/websocket.hpp:92-121 | an open session makes exactly one write (frame header, then payload) and reports success; a closed one makes no call and fails with "websocket is closed"; the open/closed state does not change |
| `Upgrade.Negotiate` | dev/restinio/websocket.hpp:150-160 | a set is rejected exactly when it holds `Sec-WebSocket-Accept`; otherwise a set with `Upgrade` passes through unchanged and a set without it gains `Upgrade: websocket` at the end; other fields are untouched and no field is duplicated |
| `Upgrade.NegotiateIdempotent` | dev/restinio/websocket.hpp:150-160 | negotiating an already negotiated set gives the same set |
| `Upgrade.NegotiatedUpgradeValue` | dev/restinio/websocket.hpp:157-160 | the negotiated `Upgrade` value is the caller's own when there was one, "websocket" otherwise |
| `Upgrade.UpgradeLog` | dev/restinio/websocket.hpp:178-191 | a successful upgrade makes two calls on the new transport: one write holding only the `101 Switching Protocols` header with `Connection: upgrade`, the negotiated fields and `Content-Length` skipped; then `init_read` |
| `Upgrade.HandshakePrecedesFrames` | dev/restinio/websocket.hpp:183-191 | over the whole life of an upgraded session, the response write is the first call and the only one of its kind, `init_read` is the second call and happens once, and every later write is a frame |
| `Upgrade.UpgradeToWebSocket` | dev/restinio/websocket.hpp:139-192 | it fails with the connection error when the request has no connection; it fails with the negotiation error, leaving the request's connection in place, when the set is rejected; it succeeds exactly otherwise; on success the request holds no connection and the open session sits on a fresh transport with that connection's id and the log `UpgradeLog` of the negotiated fields |
| `Upgrade.AcceptFields` | dev/restinio/websocket.hpp:209-212 | the one-string form's set holds `Sec-WebSocket-Accept` with the given value |
| `Upgrade.AcceptProtocolFields` | dev/restinio/websocket.hpp:238-245 | the two-string form's set holds `Sec-WebSocket-Accept` and `Sec-WebSocket-Protocol` with the given values |
| `Upgrade.ConvenienceFieldsRejected` | dev/restinio/websocket.hpp:150-155 | negotiation rejects both convenience sets, whatever the strings |
| `Upgrade.UpgradeWithAccept` | dev/restinio/websocket.hpp:203-220 | the one-string form always fails: with the connection error when there is no connection, else with the negotiation error; the request keeps its connection |
| `Upgrade.UpgradeWithAcceptAndProtocol` | dev/restinio/websocket.hpp:231-253 | the two-string form always fails in the same way and leaves the request's connection in place |

## Left out

- Frame-header bytes: `impl::write_message_details` is not part of this model. A header is the value `FrameHeader(details)`, and no RFC 6455 section 5.2 byte layout is asserted.
- HTTP header serialization: `impl::create_header_string` and the real header container are not modelled. The response is the `ResponseHeader` record plus the `SkipContentLength` flag. `set_field` is modelled as replace-in-place or append.
- Field names are compared as identifiers. Case-insensitive matching of custom field names is not modelled.
- `OtherField(name)` is assumed never to carry the name of one of the named fields (for example `OtherField("Sec-WebSocket-Accept")`). A header container that maps names to field ids would treat such a field as the named one; the model does not.
- Socket and asio I/O are reduced to log events. The same holds for the read loop behind `init_read`, timers and timer guards, settings, and `move_upgrade_internals`.
- `dynamic_cast` and smart-pointer lifetimes are reduced to two steps. The request's optional connection becomes `None`. A fresh `WsConnection` with the same connection id is created.
- A failing `dynamic_cast` (a `std::bad_cast`) is not modelled. Neither is a failure of the transport's constructor.
- The message and close handlers are passed through unchanged and never called in this file, so they are left out.
- Error texts built with `fmt::format` become the tags of `Transport.Error`.
- Threads and the reactor are left out. The model is sequential.
- The two TODOs (checking that the request asks for an upgrade, and masking the payload) are not implemented in the code, so they are not modelled.
- Transport.WsConnection.Close: whether the transport's close fails is chosen nondeterministically, because the transport's implementation is not part of this model.
- Session.WebSocket.SendMessage: an exception thrown by `write_data` is not modelled, because the transport's implementation is not part of this model. A send on an open session always reports success.
- Upgrade.UpgradeToWebSocket: its success case assumes that `write_data` (line 189) and `init_read` (line 68, reached from line 191) do not throw. In the code, either could throw after line 165 has already taken the connection from the request. The request would then hold no connection and no session would be returned. The model does not have this path, because the transport's implementation is not part of this model.
