# Signaling layer model

A Dafny model of the routing and envelope logic of a PHP WebRTC signaling layer:

- **Envelope protocol** (`wire.dfy`). The protobuf records `SignalMessage`, `RequestMessage`, `ResponseMessage` and the outer `WebSocketMessage` (a `oneof` that holds a request, a response, or neither). The serializer is a pair of functions, `Codec`. Its round-trip promise is the predicate `Lawful`.
- **Transport vocabulary and connection registry** (`transport.dfy`, `registry.dfy`).
  - Connection ids are strings.
  - A `Message` is what `send` accepts: raw bytes or a WebSocket frame.
  - A `Callback` is the identity of a closure handed to `onOfferRequest`.
  - The registry is a map from id to send handle. It is specified as the replay of the open and close events the handlers reacted to.
- **Four adapters**, each a class with its `clients`/`socket` state, its receive callback, and ghost logs. One log holds the interface calls the adapter received, one its registry events, one its effects (handle writes, closes, callback invocations, start-time I/O steps).
  - WebSocket: `websocket_adapter.dfy`.
  - TCP: `tcp_adapter.dfy`.
  - Unix socket: `unix_socket_adapter.dfy`.
  - UDP: `udp_adapter.dfy`.

  The engine events (open, message, close, error, connection, data, datagram, socket ready) are methods the engine is taken to call.
- **Signaling interface** (`signaling_interface.dfy`). A closed datatype over the four adapters, with `Start`, `Send` and `OnOfferRequest` dispatching to the adapter it holds.
- **Request/response handler** (`request.dfy`). The SDP type table and its `array_flip`, and the `Request` class: `getClientId`, `getOffer`, the response builders, `sendOffer` and `respondError`.
- **Signaling facade** (`rtc_signaling.dfy`). It delegates `start`/`send` and installs the decorated callback. It also turns inbound bytes into a `Request` only for request envelopes.
- **Scenarios** (`scenarios.dfy`). End-to-end behaviour derived from the operations' contracts.

Three behaviours of the code that the model keeps as written:

- `respondError` frames its bytes for every adapter, while `sendOffer` frames them only for the WebSocket adapter (src/Request.php:124-126,144). `Request.ReplyFraming` states the difference.
- Nothing rejects `respondError(…, 200)`, so status 200 does not imply a payload (src/Request.php:200-208). `Request.ErrorMayCarryStatusOk` shows an error response with status 200.
- A `mergeFromString` exception is not caught; it leaves the closure (src/RTCSignaling.php:93-98,112). `SignalingFacade.RTCSignaling.InvokeDecorated` returns it as a `Failure`, and the application callback is not called.

## Model

| member | source | states |
|---|---|---|
| `Transport.NatToString` | src/Adapters/WebSocketSignalingAdapter.php:103 | The decimal text of a resource id is non-empty, all digits, and canonical (no leading zero except for 0 itself). It is the string key that addresses PHP's integer array key. |
| `Transport.NatToStringValue` | src/Adapters/WebSocketSignalingAdapter.php:103 | The digits spell the number back: the decimal value of the text is the resource id. |
| `WebSocketTransport.KeyOf` | src/Adapters/WebSocketSignalingAdapter.php:103 | A connection's registry key is canonical decimal text: non-empty, all digits, starting with 0 only for resource id 0, and spelling the resource id in decimal. |
| `Transport.NatToStringInjective` | src/Adapters/WebSocketSignalingAdapter.php:101-104 | Distinct integer ids render as distinct string keys. |
| `WebSocketTransport.KeysDistinct` | src/Adapters/WebSocketSignalingAdapter.php:101-104 | Two connections share a registry key exactly when they are the same connection. |
| `Registry.RegisteredIffLastOpened` | src/Adapters/TcpSignalingAdapter.php:70-82 | An id is registered iff its latest event opened it, and it then maps to that event's handle. So an id stays sendable from open until the following close. |
| `Registry.Step` | src/Adapters/TcpSignalingAdapter.php:72-81 | An open event stores its handle under its id, a close event removes its id, and every other id keeps its entry or its absence. |
| `Registry.OpenThenClose` | src/Adapters/WebSocketSignalingAdapter.php:101-129 | Open followed by close of the same id leaves the id absent and every other entry unchanged. |
| `WebSocketTransport.WebSocketSignalingAdapter.constructor` | src/Adapters/WebSocketSignalingAdapter.php:50-57 | Starts with no clients, no callback, and the given port and address (defaults 5000 and 0.0.0.0). |
| `WebSocketTransport.WebSocketSignalingAdapter.Start` | src/Adapters/WebSocketSignalingAdapter.php:64-68 | Records the start call. Serving is engine I/O. |
| `WebSocketTransport.WebSocketSignalingAdapter.Send` | src/Adapters/WebSocketSignalingAdapter.php:77-82 | A registered id gets exactly one `send` of the message on its connection. An unknown id has no effect. |
| `WebSocketTransport.WebSocketSignalingAdapter.OnOfferRequest` | src/Adapters/WebSocketSignalingAdapter.php:90-93 | The callback becomes the given one. The last registration wins. |
| `WebSocketTransport.WebSocketSignalingAdapter.OnOpen` | src/Adapters/WebSocketSignalingAdapter.php:101-104 | The connection is stored under its resource id and other entries are kept. The registry stays keyed by resource id. |
| `WebSocketTransport.WebSocketSignalingAdapter.OnMessage` | src/Adapters/WebSocketSignalingAdapter.php:113-118 | A set callback is invoked once with (sender id, message). Without a callback nothing happens. |
| `WebSocketTransport.WebSocketSignalingAdapter.OnClose` | src/Adapters/WebSocketSignalingAdapter.php:126-129 | Exactly that key is removed and all other entries are unchanged. |
| `WebSocketTransport.WebSocketSignalingAdapter.OnError` | src/Adapters/WebSocketSignalingAdapter.php:138-141 | The connection is closed exactly once. The registry is not touched. |
| `TcpTransport.TcpSignalingAdapter.constructor` | src/Adapters/TcpSignalingAdapter.php:40-47 | Empty registry and no callback. The role is fixed from the constructor argument (a `const`). |
| `TcpTransport.TcpSignalingAdapter.Start` | src/Adapters/TcpSignalingAdapter.php:54-85 | Client mode dials address:port and opens one connect attempt. Server mode listens on address:port. |
| `TcpTransport.TcpSignalingAdapter.OnConnection` | src/Adapters/TcpSignalingAdapter.php:58-72 | The connection is stored under its fresh object hash. The registry grows by exactly one and other entries are kept. In client mode one pending connect is consumed. |
| `TcpTransport.TcpSignalingAdapter.OnData` | src/Adapters/TcpSignalingAdapter.php:74-78 | A set callback is invoked once with (that connection's own id, data). Without a callback nothing happens. |
| `TcpTransport.TcpSignalingAdapter.OnClose` | src/Adapters/TcpSignalingAdapter.php:80-82 | Server mode removes exactly that id. Client mode has no close handler and changes nothing. |
| `TcpTransport.TcpSignalingAdapter.Send` | src/Adapters/TcpSignalingAdapter.php:94-99 | A registered id gets exactly one `write` of the message on its stream. An unknown id has no effect. |
| `TcpTransport.TcpSignalingAdapter.OnOfferRequest` | src/Adapters/TcpSignalingAdapter.php:107-110 | The callback is overwritten. |
| `TcpTransport.ClientModeHoldsOneConnection` | src/Adapters/TcpSignalingAdapter.php:56-67 | In client mode, once the one connect has resolved, exactly one connection is registered and no event has removed any. |
| `UnixSocketTransport.UnixSocketSignalingAdapter.constructor` | src/Adapters/UnixSocketSignalingAdapter.php:44-50 | Empty registry and no callback. Path (default /tmp/signaling.sock) and role are fixed. |
| `UnixSocketTransport.UnixSocketSignalingAdapter.Start` | src/Adapters/UnixSocketSignalingAdapter.php:57-89 | Server mode unlinks the socket path and only then binds to it. Client mode connects to the path. |
| `UnixSocketTransport.UnixSocketSignalingAdapter.OnConnection` | src/Adapters/UnixSocketSignalingAdapter.php:61-77 | The connection is stored under its fresh object hash and the registry grows by exactly one. |
| `UnixSocketTransport.UnixSocketSignalingAdapter.OnData` | src/Adapters/UnixSocketSignalingAdapter.php:79-83 | A set callback is invoked once with (id, data). |
| `UnixSocketTransport.UnixSocketSignalingAdapter.OnClose` | src/Adapters/UnixSocketSignalingAdapter.php:85-87 | Server mode removes exactly that id. Client mode changes nothing. |
| `UnixSocketTransport.UnixSocketSignalingAdapter.Send` | src/Adapters/UnixSocketSignalingAdapter.php:99-104 | A registered id gets exactly one write. An unknown id has no effect. |
| `UnixSocketTransport.UnixSocketSignalingAdapter.OnOfferRequest` | src/Adapters/UnixSocketSignalingAdapter.php:112-115 | The callback is overwritten. |
| `UnixSocketTransport.ClientModeKeepsOneConnection` | src/Adapters/UnixSocketSignalingAdapter.php:59-70 | In client mode one connection is registered and never removed. |
| `UdpTransport.UdpSignalingAdapter.constructor` | src/Adapters/UdpSignalingAdapter.php:42-49 | No socket and no callback. The role is fixed. |
| `UdpTransport.UdpSignalingAdapter.Start` | src/Adapters/UdpSignalingAdapter.php:56-81 | Asks the factory for a client or a server socket on address:port. |
| `UdpTransport.UdpSignalingAdapter.OnSocket` | src/Adapters/UdpSignalingAdapter.php:61-72 | The resolved socket is stored, which is only possible after start. |
| `UdpTransport.UdpSignalingAdapter.OnDatagram` | src/Adapters/UdpSignalingAdapter.php:64-77 | A set callback is invoked once with (sender address, message). Without a callback nothing happens. |
| `UdpTransport.UdpSignalingAdapter.Send` | src/Adapters/UdpSignalingAdapter.php:90-93 | With a socket, sends the message unchanged with the id as destination. Without one, nothing happens. |
| `UdpTransport.UdpSignalingAdapter.OnOfferRequest` | src/Adapters/UdpSignalingAdapter.php:101-104 | The callback is overwritten. |
| `UdpTransport.NoSocketBeforeStart` | src/Adapters/UdpSignalingAdapter.php:42 | Before start there is no socket, so `send` cannot reach the network. |
| `SignalingInterface.Start` | src/SignalingInterface.php:15 | Exactly one start call reaches the held adapter, with that adapter's start step (`StartEffect`): nothing for WebSocket, connect or listen for TCP, connect or unlink-then-listen for a Unix socket, a client or server socket for UDP. The registry, its log and the callback are unchanged. |
| `SignalingInterface.Send` | src/SignalingInterface.php:16 | Exactly one `send(id, message)` reaches the held adapter, with that adapter's own send effect. The registry, the callback and the TCP/Unix pending connects are unchanged. |
| `SignalingInterface.OnOfferRequest` | src/SignalingInterface.php:17 | Exactly one registration reaches the adapter. Its callback is replaced and nothing else changes. |
| `Request.ArrayFlip` | src/Request.php:119 | Keys are exactly the table's entries, and each key maps to an index holding that entry. |
| `Request.ArrayFlipInverts` | src/Request.php:51-57 | For distinct entries, the flip maps each entry back to its own index. |
| `Request.SdpTypeName` | src/Request.php:88 | The name is defined exactly for tags 0..4. |
| `Request.SdpTypeIndex` | src/Request.php:119 | A defined result lies in 0..4. |
| `Request.SdpTypeBijection` | src/Request.php:51-57 | Name-to-index and index-to-name are inverse bijections, in both directions. |
| `Request.SdpTypeTable` | src/Request.php:51-57 | Tags 0..4 are unknown, offer, answer, pranswer, rollback. Tags 5 and -1 are undefined. |
| `Request.Request.constructor` | src/Request.php:61-69 | Stores the adapter, message and connection id, and the message's request and payload. |
| `Request.Request.GetClientId` | src/Request.php:76-79 | The id field inside the request envelope, not the transport id. |
| `Request.Request.GetOffer` | src/Request.php:86-89 | The SDP text is unchanged and the name flips back to the payload's tag. It fails for a missing payload and for tags outside 0..4. |
| `Request.Request.SendOffer` | src/Request.php:117-129 | Exactly one `send` to the stored connection id for a known type name, and no call otherwise. |
| `Request.Request.RespondError` | src/Request.php:138-145 | Exactly one `send` of the framed error reply to the stored connection id. The default code is 403. |
| `Request.OfferReplyDecodes` | src/Request.php:117-122 | The peer decodes the echoed message id, status 200, the SDP and tag, and no error text. |
| `Request.ErrorReplyDecodes` | src/Request.php:138-145 | The peer decodes the echoed message id, the given code, the error text, and no payload. |
| `Request.Request.CreateSignalMessage` | src/Request.php:154-161 | The payload record holds the given SDP text and type tag. |
| `Request.Request.CreateSuccessResponseMessage` | src/Request.php:169-177 | Echoes the request's message id, status 200, the payload set and no error text. |
| `Request.Request.CreateWebSocketResponseMessage` | src/Request.php:185-191 | The outer envelope is the response variant holding that response, never a request. |
| `Request.Request.CreateErrorResponseMessage` | src/Request.php:200-208 | Echoes the request's message id, the given code, the error text set and no payload. |
| `Request.Request.OfferReply` | src/Request.php:117-126 | A reply exists exactly for a type name in the table. Its bytes encode the success response for the SDP and tag. It is a final binary frame exactly on the WebSocket adapter. |
| `Request.Request.ErrorReply` | src/Request.php:138-144 | Always a final binary frame whose bytes encode the error response with the given code and text. |
| `Request.ReplyFraming` | src/Request.php:124-144 | On the WebSocket adapter both replies are frames. On every other adapter the success reply is raw bytes and the error reply is still a frame. |
| `Request.ErrorMayCarryStatusOk` | src/Request.php:200-208 | An error response with code 200 carries status 200 and no payload. |
| `Request.OfferRoundTrip` | src/Request.php:86-122 | Answering with the offer just read reproduces the request's payload exactly. |
| `SignalingFacade.RTCSignaling.constructor` | src/RTCSignaling.php:47-50 | Wraps the given adapter. |
| `SignalingFacade.RTCSignaling.Start` | src/RTCSignaling.php:57-60 | Delegates unchanged: exactly one start call on the wrapped adapter, with that adapter's start step, and a callback installed before `start` stays installed. |
| `SignalingFacade.RTCSignaling.Send` | src/RTCSignaling.php:69-72 | Forwards exactly (id, message), once, with the adapter's send effect, so the registry and pending connects are kept. |
| `SignalingFacade.RTCSignaling.OnOfferRequest` | src/RTCSignaling.php:80-83 | Registers exactly one closure, the decorated one, on the adapter. |
| `SignalingFacade.RTCSignaling.DecodeRequest` | src/RTCSignaling.php:109-118 | Fails exactly when decoding fails. Yields the envelope exactly when it is a request, and nothing for a response or an empty envelope. |
| `SignalingFacade.RTCSignaling.CreateRequestObject` | src/RTCSignaling.php:109-118 | For a request envelope, a fresh `Request` bound to the inner adapter, the transport id and the decoded message. Otherwise no request, or the decode error. |
| `SignalingFacade.RTCSignaling.InvokeDecorated` | src/RTCSignaling.php:91-99 | Run on the `Decorated(user)` callback an adapter recorded with `(client, bytes)`: application callback `user` runs exactly once, with the `Request` built for `client`, for a request envelope, and never otherwise. A decode error propagates. |
| `SignalingFacade.DecodeRequestOfEncoded` | src/RTCSignaling.php:111-117 | With a lawful serializer, an encoded request comes back as itself. An encoded response or empty envelope yields no request. |
| `Scenarios.ReadOffer` | tests/RequestTest.php:39-62 | The facade builds, from the encoded request "123" from "client-123", a `Request` for the transport id whose client id is "client-123" and whose offer is ("v=0...", "offer"). |
| `Scenarios.AnswerOffer` | src/Request.php:117-129 | Answering it decodes to message id "123", status 200, payload ("v=0...", 2). |
| `Scenarios.RejectOffer` | tests/RequestTest.php:78-89 | Rejecting it with 500 decodes to message id "123", status 500, "Something went wrong". |
| `Scenarios.ResponseIsDropped` | src/RTCSignaling.php:93-98 | A response envelope never reaches the application callback. |
| `Scenarios.WebSocketLifecycle` | tests/Adapters/WebSocketSignalingAdapterTest.php:41-53 | Open, send, close, send: only the first send reaches the connection, and the key ends up absent. |
| `Scenarios.TcpServerLifecycle` | src/Adapters/TcpSignalingAdapter.php:69-99 | The same lifecycle on a TCP server. |
| `Scenarios.TcpClientSendBeforeConnect` | src/Adapters/TcpSignalingAdapter.php:56-67 | On a TCP client, a send after `start` but before the connect resolves reaches nobody. The connection that then arrives is registered. |
| `Scenarios.TwoDatagramPeers` | src/Adapters/UdpSignalingAdapter.php:71-93 | Two senders each reach the callback under their own address, and replies to them go out independently. |
| `Scenarios.WebSocketRoundTrip` | src/RTCSignaling.php:80-118 | A request on an open WebSocket connection reaches the application. Its answer returns to that same connection as one binary frame, decoding to status 200 with the request's message id. |

## Left out

- Engine I/O is out: `IoServer::factory`/`run`, `SocketServer`, `UnixServer`, the `Connector` promises and the `DatagramFactory`. Each `start` records only the step it asks for (listen, connect, unlink, bind, create socket). The engine's reactions are the event methods. A bind failure throws from `start` in `SocketServer`, `UnixServer` and `IoServer::factory`; the model does not include it. A failed TCP or Unix connect, or a failed UDP socket creation, rejects a promise that has no rejection handler (src/Adapters/TcpSignalingAdapter.php:58, src/Adapters/UnixSocketSignalingAdapter.php:61, src/Adapters/UdpSignalingAdapter.php:61,71). `start` then returns normally and no connection or socket appears. In the model this is the case where no `OnConnection` or `OnSocket` event follows: a TCP or Unix client keeps `pending > 0` with nothing registered, and UDP keeps no socket.
- The protobuf serializer (`serializeToString`, `mergeFromString`) is out. It is the `Codec` parameter, and the lemmas that need its round trip require `Lawful`.
- The generated message classes are out. They have no logic; their fields shape the datatypes. Their protobuf int32 range checks on the type tag and status code are not modelled.
- Ratchet's `Frame` is modelled only as `Frame(payload, final, opcode)`. `RTCSessionDescription` is a `(sdp, typeName)` record.
- `GetOffer`: PHP passes an undefined (null) type to `RTCSessionDescription` for a tag outside 0..4. The model reports this as an error, because that foreign class is not part of this model. The same applies to a missing payload, which throws in PHP.
- `SendOffer`: for a type name outside the table, PHP fails with a type error before sending. The model returns `false` and sends nothing.
- `spl_object_hash` is modelled as the `objectHash` of a connection value. Its uniqueness among live connections is a precondition of `OnConnection`.
- The unlink's filesystem effect is not modelled, only its order before the bind. Its suppressed failure is not modelled.
- The event loop and concurrency are out. Everything is sequential.
- `SignalingFacade.RTCSignaling.InvokeDecorated`: calls the application callback for every request envelope on every adapter. In the source, when coercing a TCP or Unix object hash or a UDP `ip:port` to the `int` connection id raises a `TypeError` (for example an IPv6 UDP peer, whose address does not start with a digit), `new Request(...)` throws inside `createRequestObject` (src/RTCSignaling.php:114). The closure has no `catch` (src/RTCSignaling.php:93-98), so the application callback is never called for that request and the error escapes the adapter's data or message handler. The model does not capture that case, because it keeps connection ids as strings.
- `Callback` stands only for closures. Each adapter stores the `callable` it is given in a `?Closure` property (e.g. src/Adapters/WebSocketSignalingAdapter.php:51,92), so a callable that is not a `Closure`, such as a function name or an `[object, 'method']` array, fails there with a `TypeError`. The facade always passes a `Closure`.
- Closures are identities. What an application callback does when invoked is outside the model, so the adapters record each invocation as an effect. The facade's decorated body is `InvokeDecorated`, called with what the adapter recorded.
- The signaling interface is a closed union of the four adapters. A facade cannot wrap another facade.
- The WebSocket `OnError` exception argument is not modelled, because it is unused.
- `Request.getWebSocketId` and `Request.getMessage` are plain getters of the stored fields and have no members of their own.
- `Request.Request.constructor`: the connection id is kept as the adapter's string. The PHP constructor declares it `int` (src/Request.php:64) and the files do not declare strict types, so PHP coerces the id. A WebSocket id is decimal text and round-trips. A TCP or Unix `spl_object_hash` or a UDP `ip:port` is either rejected with a `TypeError` or cut down to its leading number. In the leading-number case, a `sendOffer` or `respondError` reply on those three adapters does not reach the connection that asked; the model sends it to that connection's own id.
