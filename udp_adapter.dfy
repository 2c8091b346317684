/**
 * The datagram adapter (ReactPHP datagram sockets). It keeps no registry: the
 * sender's address serves as the connection id, and `send` addresses the
 * datagram to the id it is given, once a socket exists.
 */
module UdpTransport {
  import opened Wrappers
  import opened Wire
  import opened Transport

  /** A datagram socket handed over by the factory's promise. */
  datatype Socket = Socket(handle: nat)

  /** What the adapter does to the world outside its own fields. */
  datatype Effect =
    | CreateClient(address: string, port: int)
    | CreateServer(address: string, port: int)
    | SocketSend(socket: Socket, message: Message, destination: ClientId)
    | Invoke(callback: Callback, clientId: ClientId, data: Bytes)

  class UdpSignalingAdapter {
    const address: string
    const port: int
    /** The role, fixed at construction: true for client mode. */
    const client: bool
    var socket: Option<Socket>
    var onReceiveCallback: Option<Callback>
    ghost var calls: seq<Call>
    ghost var effects: seq<Effect>
    /** Whether `start` has asked the factory for a socket. */
    ghost var started: bool

    /** A socket exists only after `start` asked for one. */
    ghost predicate Valid()
      reads this
    {
      socket.Some? ==> started
    }

    constructor (address: string := "0.0.0.0", port: int := 5000, client: bool := false)
      ensures Valid()
      ensures this.address == address && this.port == port && this.client == client
      ensures socket == None && onReceiveCallback == None
      ensures calls == [] && effects == [] && !started
    {
      this.address, this.port, this.client := address, port, client;
      socket, onReceiveCallback := None, None;
      calls, effects, started := [], [], false;
    }

    /** Asks the factory for a client or a server socket; the socket arrives later, in `OnSocket`. */
    method Start()
      requires Valid()
      modifies this`calls, this`effects, this`started
      ensures Valid() && started
      ensures calls == old(calls) + [StartCall]
      ensures effects == old(effects) + [if client then CreateClient(address, port) else CreateServer(address, port)]
    {
      calls := calls + [StartCall];
      effects := effects + [if client then CreateClient(address, port) else CreateServer(address, port)];
      started := true;
    }

    /** The factory's promise resolved: the socket is stored. */
    method OnSocket(s: Socket)
      requires Valid() && started
      modifies this`socket
      ensures Valid()
      ensures socket == Some(s)
    {
      socket := Some(s);
    }

    /** A datagram goes to the callback, with the sender's address as id, when one is set. */
    method OnDatagram(message: Bytes, senderAddress: ClientId)
      modifies this`effects
      ensures onReceiveCallback.Some? ==> effects == old(effects) + [Invoke(onReceiveCallback.value, senderAddress, message)]
      ensures onReceiveCallback.None? ==> effects == old(effects)
    {
      if onReceiveCallback.Some? {
        effects := effects + [Invoke(onReceiveCallback.value, senderAddress, message)];
      }
    }

    /** Sends the message unchanged to the id as destination address; before a socket exists it does nothing. */
    method Send(clientId: ClientId, message: Message)
      modifies this`calls, this`effects
      ensures calls == old(calls) + [SendCall(clientId, message)]
      ensures socket.Some? ==> effects == old(effects) + [SocketSend(socket.value, message, clientId)]
      ensures socket.None? ==> effects == old(effects)
    {
      calls := calls + [SendCall(clientId, message)];
      if socket.Some? {
        effects := effects + [SocketSend(socket.value, message, clientId)];
      }
    }

    /** Replaces the receive callback: the last registration wins. */
    method OnOfferRequest(callback: Callback)
      modifies this`onReceiveCallback, this`calls
      ensures onReceiveCallback == Some(callback)
      ensures calls == old(calls) + [OnOfferRequestCall(callback)]
    {
      onReceiveCallback := Some(callback);
      calls := calls + [OnOfferRequestCall(callback)];
    }
  }

  /** Before `start`, no socket exists, so `send` cannot reach the network. */
  lemma NoSocketBeforeStart(a: UdpSignalingAdapter)
    requires a.Valid() && !a.started
    ensures a.socket.None?
  {
  }
}
