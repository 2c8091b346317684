/**
 * The signaling interface (`start`, `send`, `onOfferRequest`) over the closed
 * set of transports that implement it. Each operation dispatches to the
 * adapter the value holds.
 */
module SignalingInterface {
  import opened Wrappers
  import opened Transport
  import WebSocketTransport
  import TcpTransport
  import UnixSocketTransport
  import UdpTransport

  datatype Adapter =
    | WebSocket(ws: WebSocketTransport.WebSocketSignalingAdapter)
    | Tcp(tcp: TcpTransport.TcpSignalingAdapter)
    | UnixSocket(unix: UnixSocketTransport.UnixSocketSignalingAdapter)
    | Udp(udp: UdpTransport.UdpSignalingAdapter)

  /** The object behind the interface. */
  function Obj(a: Adapter): object {
    match a
    case WebSocket(w) => w
    case Tcp(t) => t
    case UnixSocket(u) => u
    case Udp(d) => d
  }

  ghost predicate Valid(a: Adapter)
    reads Obj(a)
  {
    match a
    case WebSocket(w) => w.Valid()
    case Tcp(t) => t.Valid()
    case UnixSocket(u) => u.Valid()
    case Udp(d) => d.Valid()
  }

  /** The interface calls the adapter has received. */
  ghost function Calls(a: Adapter): seq<Call>
    reads Obj(a)
  {
    match a
    case WebSocket(w) => w.calls
    case Tcp(t) => t.calls
    case UnixSocket(u) => u.calls
    case Udp(d) => d.calls
  }

  /** The receive callback the adapter currently holds. */
  function ReceiveCallback(a: Adapter): Option<Callback>
    reads Obj(a)
  {
    match a
    case WebSocket(w) => w.onReceiveCallback
    case Tcp(t) => t.onReceiveCallback
    case UnixSocket(u) => u.onReceiveCallback
    case Udp(d) => d.onReceiveCallback
  }

  /**
   * What one `send(clientId, message)` does to the adapter: it reaches the
   * registered handle (or, for UDP, the socket) exactly once, does nothing
   * for an unknown id (or before the UDP socket exists), and leaves the
   * registry, the socket, the callback and the pending connects as they were.
   */
  twostate predicate SendEffect(a: Adapter, clientId: ClientId, message: Message)
    reads Obj(a)
  {
    match a
    case WebSocket(w) =>
      && w.clients == old(w.clients) && w.log == old(w.log) && w.onReceiveCallback == old(w.onReceiveCallback)
      && w.effects == old(w.effects) + (if clientId in old(w.clients)
                                         then [WebSocketTransport.ConnectionSend(old(w.clients)[clientId], message)]
                                         else [])
    case Tcp(t) =>
      && t.clients == old(t.clients) && t.log == old(t.log) && t.onReceiveCallback == old(t.onReceiveCallback)
      && t.connects == old(t.connects) && t.pending == old(t.pending)
      && t.effects == old(t.effects) + (if clientId in old(t.clients)
                                         then [TcpTransport.Write(old(t.clients)[clientId], message)]
                                         else [])
    case UnixSocket(u) =>
      && u.clients == old(u.clients) && u.log == old(u.log) && u.onReceiveCallback == old(u.onReceiveCallback)
      && u.connects == old(u.connects) && u.pending == old(u.pending)
      && u.effects == old(u.effects) + (if clientId in old(u.clients)
                                         then [UnixSocketTransport.Write(old(u.clients)[clientId], message)]
                                         else [])
    case Udp(d) =>
      && d.socket == old(d.socket) && d.started == old(d.started) && d.onReceiveCallback == old(d.onReceiveCallback)
      && d.effects == old(d.effects) + (if old(d.socket).Some?
                                         then [UdpTransport.SocketSend(old(d.socket).value, message, clientId)]
                                         else [])
  }

  /** What `onOfferRequest(callback)` does to the adapter: the callback is replaced and nothing else of its state changes. */
  twostate predicate RegisterEffect(a: Adapter, callback: Callback)
    reads Obj(a)
  {
    match a
    case WebSocket(w) =>
      w.onReceiveCallback == Some(callback) && w.clients == old(w.clients) && w.log == old(w.log) && w.effects == old(w.effects)
    case Tcp(t) =>
      && t.onReceiveCallback == Some(callback) && t.clients == old(t.clients) && t.log == old(t.log) && t.effects == old(t.effects)
      && t.connects == old(t.connects) && t.pending == old(t.pending)
    case UnixSocket(u) =>
      && u.onReceiveCallback == Some(callback) && u.clients == old(u.clients) && u.log == old(u.log) && u.effects == old(u.effects)
      && u.connects == old(u.connects) && u.pending == old(u.pending)
    case Udp(d) =>
      d.onReceiveCallback == Some(callback) && d.socket == old(d.socket) && d.started == old(d.started) && d.effects == old(d.effects)
  }

  /**
   * What one `start()` does to the adapter: the I/O step of its role (none
   * for WebSocket, whose serving is engine I/O; connect or listen for TCP;
   * connect, or unlink then listen, for a Unix socket; a client or server
   * socket for UDP), with the registry, its log and the callback kept.
   */
  twostate predicate StartEffect(a: Adapter)
    reads Obj(a)
  {
    match a
    case WebSocket(w) =>
      w.clients == old(w.clients) && w.log == old(w.log) && w.onReceiveCallback == old(w.onReceiveCallback)
      && w.effects == old(w.effects)
    case Tcp(t) =>
      && t.clients == old(t.clients) && t.log == old(t.log) && t.onReceiveCallback == old(t.onReceiveCallback)
      && t.effects == old(t.effects) + [if t.client then TcpTransport.Connect(t.address, t.port)
                                         else TcpTransport.Listen(t.address, t.port)]
      && t.connects == old(t.connects) + (if t.client then 1 else 0)
      && t.pending == old(t.pending) + (if t.client then 1 else 0)
    case UnixSocket(u) =>
      && u.clients == old(u.clients) && u.log == old(u.log) && u.onReceiveCallback == old(u.onReceiveCallback)
      && u.effects == old(u.effects) + (if u.client then [UnixSocketTransport.Connect(u.address)]
                                         else [UnixSocketTransport.Unlink(u.address), UnixSocketTransport.Listen(u.address)])
      && u.connects == old(u.connects) + (if u.client then 1 else 0)
      && u.pending == old(u.pending) + (if u.client then 1 else 0)
    case Udp(d) =>
      && d.socket == old(d.socket) && d.started && d.onReceiveCallback == old(d.onReceiveCallback)
      && d.effects == old(d.effects) + [if d.client then UdpTransport.CreateClient(d.address, d.port)
                                         else UdpTransport.CreateServer(d.address, d.port)]
  }

  method Start(a: Adapter)
    requires Valid(a)
    modifies Obj(a)
    ensures Valid(a)
    ensures Calls(a) == old(Calls(a)) + [StartCall]
    ensures ReceiveCallback(a) == old(ReceiveCallback(a))
    ensures StartEffect(a)
  {
    match a
    case WebSocket(w) => w.Start();
    case Tcp(t) => t.Start();
    case UnixSocket(u) => u.Start();
    case Udp(d) => d.Start();
  }

  method Send(a: Adapter, clientId: ClientId, message: Message)
    requires Valid(a)
    modifies Obj(a)
    ensures Valid(a)
    ensures Calls(a) == old(Calls(a)) + [SendCall(clientId, message)]
    ensures SendEffect(a, clientId, message)
  {
    match a
    case WebSocket(w) => w.Send(clientId, message);
    case Tcp(t) => t.Send(clientId, message);
    case UnixSocket(u) => u.Send(clientId, message);
    case Udp(d) => d.Send(clientId, message);
  }

  method OnOfferRequest(a: Adapter, callback: Callback)
    requires Valid(a)
    modifies Obj(a)
    ensures Valid(a)
    ensures Calls(a) == old(Calls(a)) + [OnOfferRequestCall(callback)]
    ensures ReceiveCallback(a) == Some(callback)
    ensures RegisterEffect(a, callback)
  {
    match a
    case WebSocket(w) => w.OnOfferRequest(callback);
    case Tcp(t) => t.OnOfferRequest(callback);
    case UnixSocket(u) => u.OnOfferRequest(callback);
    case Udp(d) => d.OnOfferRequest(callback);
  }
}
