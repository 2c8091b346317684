/**
 * The end-to-end behaviour the repository's tests exercise,
 * derived from the contracts of the individual operations.
 */
module Scenarios {
  import opened Wrappers
  import opened Wire
  import opened Transport
  import opened SignalingInterface
  import opened Request
  import opened SignalingFacade
  import WebSocketTransport
  import TcpTransport
  import UdpTransport

  function SampleRequest(): RequestMessage {
    RequestMessage("123", "client-123", Some(SignalMessage("v=0...", 1)))
  }

  /**
   * The facade turns an encoded request with message id "123", peer id
   * "client-123" and an offer into a `Request` whose client id is the peer
   * id (not the transport id) and whose offer has the SDP unchanged and
   * type "offer".
   */
  method ReadOffer(f: RTCSignaling, client: ClientId) returns (r: Request)
    requires Lawful(f.codec)
    ensures r.Valid() && r.webSocketId == client && r.message == WithRequest(SampleRequest())
    ensures r.GetClientId() == "client-123"
    ensures r.GetOffer() == Success(RTCSessionDescription("v=0...", "offer"))
  {
    DecodeRequestOfEncoded(f, WithRequest(SampleRequest()));
    var built := f.CreateRequestObject(client, f.codec.encode(WithRequest(SampleRequest())));
    r := built.value.value;
  }

  /** Answering that request: the peer decodes message id "123", status 200 and the answer as tag 2. */
  lemma AnswerOffer(r: Request)
    requires Lawful(r.codec)
    requires r.Valid() && r.message == WithRequest(SampleRequest())
    ensures r.OfferReply(RTCSessionDescription("v=0...", "answer")).Some?
    ensures r.codec.decode(PayloadOf(r.OfferReply(RTCSessionDescription("v=0...", "answer")).value))
         == Success(WithResponse(ResponseMessage("123", 200, Some(SignalMessage("v=0...", 2)), None)))
  {
    SdpTypeBijection(2, "answer");
    OfferReplyDecodes(r, RTCSessionDescription("v=0...", "answer"));
  }

  /** Rejecting that request with code 500: the peer decodes message id "123", status 500 and the error text. */
  lemma RejectOffer(r: Request)
    requires Lawful(r.codec)
    requires r.Valid() && r.message == WithRequest(SampleRequest())
    ensures r.codec.decode(PayloadOf(r.ErrorReply("Something went wrong", 500)))
         == Success(WithResponse(ResponseMessage("123", 500, None, Some("Something went wrong"))))
  {
    ErrorReplyDecodes(r, "Something went wrong", 500);
  }

  /** Bytes that decode to a response envelope never reach the application callback. */
  method ResponseIsDropped(f: RTCSignaling, user: nat, client: ClientId, response: ResponseMessage)
    requires Lawful(f.codec)
    modifies f
    ensures f.invocations == old(f.invocations)
  {
    DecodeRequestOfEncoded(f, WithResponse(response));
    var r := f.InvokeDecorated(Decorated(user), client, f.codec.encode(WithResponse(response)));
    assert r == Success(None);
  }

  /**
   * A WebSocket connection is reachable by `send` from its open event until
   * its close event; afterwards `send` to its id does nothing and fails nothing.
   */
  method WebSocketLifecycle(w: WebSocketTransport.WebSocketSignalingAdapter, conn: WebSocketTransport.Connection, m1: Message, m2: Message)
    requires w.Valid()
    modifies w
    ensures w.Valid()
    ensures w.effects == old(w.effects) + [WebSocketTransport.ConnectionSend(conn, m1)]
    ensures w.clients == old(w.clients) - {WebSocketTransport.KeyOf(conn)}
  {
    var id := WebSocketTransport.KeyOf(conn);
    w.OnOpen(conn);
    w.Send(id, m1);
    w.OnClose(conn);
    w.Send(id, m2);
  }

  /** The same lifecycle on a TCP server, keyed by the connection's object hash. */
  method TcpServerLifecycle(t: TcpTransport.TcpSignalingAdapter, conn: TcpTransport.Stream, m1: Message, m2: Message)
    requires t.Valid() && !t.client && conn.objectHash !in t.clients
    modifies t
    ensures t.Valid()
    ensures t.effects == old(t.effects) + [TcpTransport.Write(conn, m1)]
    ensures t.clients == old(t.clients)
  {
    t.OnConnection(conn);
    t.Send(conn.objectHash, m1);
    t.OnClose(conn);
    t.Send(conn.objectHash, m2);
  }

  /**
   * A TCP client through the facade: a send made after `start` but before
   * the connect resolves reaches nobody, and the connection that then
   * arrives is registered and consumes the pending connect.
   */
  method TcpClientSendBeforeConnect(f: RTCSignaling, t: TcpTransport.TcpSignalingAdapter, conn: TcpTransport.Stream, id: ClientId, m: Message)
    requires f.adapter == Tcp(t) && t.Valid() && t.client
    requires conn.objectHash !in t.clients && id !in t.clients
    modifies t
    ensures t.Valid()
    ensures t.effects == old(t.effects) + [TcpTransport.Connect(t.address, t.port)]
    ensures t.clients == old(t.clients)[conn.objectHash := conn]
    ensures t.pending == old(t.pending)
  {
    f.Start();
    f.Send(id, m);
    t.OnConnection(conn);
  }

  /**
   * Two datagrams from distinct senders reach the callback each with its own
   * address as id, and replies to the two addresses go out independently.
   */
  method TwoDatagramPeers(u: UdpTransport.UdpSignalingAdapter, a1: ClientId, a2: ClientId, d1: Bytes, d2: Bytes, m1: Message, m2: Message)
    requires u.socket.Some? && u.onReceiveCallback.Some? && a1 != a2
    modifies u
    ensures u.effects == old(u.effects) + [
      UdpTransport.Invoke(old(u.onReceiveCallback).value, a1, d1),
      UdpTransport.Invoke(old(u.onReceiveCallback).value, a2, d2),
      UdpTransport.SocketSend(old(u.socket).value, m1, a1),
      UdpTransport.SocketSend(old(u.socket).value, m2, a2)]
  {
    u.OnDatagram(d1, a1);
    u.OnDatagram(d2, a2);
    u.Send(a1, m1);
    u.Send(a2, m2);
  }

  /**
   * Through the facade over a WebSocket adapter, registered and then started: a request arriving on an
   * open connection reaches the decorated callback with that connection's
   * id, the application is called with a `Request`, and its answer goes back
   * to the same connection as one binary frame that decodes to a response
   * carrying the request's message id.
   */
  method WebSocketRoundTrip(
    f: RTCSignaling, w: WebSocketTransport.WebSocketSignalingAdapter, conn: WebSocketTransport.Connection,
    user: nat, bytes: Bytes, answer: RTCSessionDescription)
    requires f.adapter == WebSocket(w) && w.Valid() && Lawful(f.codec)
    requires WebSocketTransport.KeyOf(conn) in w.clients && w.clients[WebSocketTransport.KeyOf(conn)] == conn
    requires f.DecodeRequest(bytes).Success? && f.DecodeRequest(bytes).value.Some?
    requires SdpTypeIndex(answer.typeName).Some?
    modifies f, w
    ensures |f.invocations| == |old(f.invocations)| + 1 && f.invocations[|f.invocations| - 1].user == user
    ensures |w.effects| == |old(w.effects)| + 2
    ensures w.effects[|w.effects| - 2] == WebSocketTransport.Invoke(Decorated(user), WebSocketTransport.KeyOf(conn), bytes)
    ensures w.effects[|w.effects| - 1].ConnectionSend? && w.effects[|w.effects| - 1].conn == conn
    ensures var sent := w.effects[|w.effects| - 1].message;
            && sent.Frame? && sent.final && sent.opcode == OP_BINARY
            && f.codec.decode(sent.payload).Success?
            && f.codec.decode(sent.payload).value.WithResponse?
            && f.codec.decode(sent.payload).value.response.messageId == f.DecodeRequest(bytes).value.value.request.messageId
            && f.codec.decode(sent.payload).value.response.statusCode == STATUS_OK
  {
    f.OnOfferRequest(user);
    f.Start();
    w.OnMessage(conn, bytes);
    var id := WebSocketTransport.KeyOf(conn);
    var r := f.InvokeDecorated(Decorated(user), id, bytes);
    var request := r.value.value;
    var sent := request.SendOffer(answer);
    OfferReplyDecodes(request, answer);
  }
}
