/**
 * The Unix-domain stream adapter (ReactPHP sockets). Same registry as the TCP
 * adapter; in server mode it first removes any file at the socket path and
 * then binds the server there.
 */
module UnixSocketTransport {
  import opened Wrappers
  import opened Wire
  import opened Transport
  import Registry

  /** A ReactPHP connection, known to the adapter by its `spl_object_hash`. */
  datatype Stream = Stream(objectHash: ClientId)

  /** What the adapter does to the world outside its own fields. */
  datatype Effect =
    | Unlink(path: string)
    | Listen(path: string)
    | Connect(path: string)
    | Write(stream: Stream, message: Message)
    | Invoke(callback: Callback, clientId: ClientId, data: Bytes)

  class UnixSocketSignalingAdapter {
    /** The filesystem path of the socket. */
    const address: string
    /** The role, fixed at construction: true for client mode. */
    const client: bool
    var clients: map<ClientId, Stream>
    var onReceiveCallback: Option<Callback>
    ghost var log: seq<Registry.Event<Stream>>
    ghost var calls: seq<Call>
    ghost var effects: seq<Effect>
    /** Client mode: connection attempts started, and those whose promise has not resolved yet. */
    ghost var connects: nat
    ghost var pending: nat

    ghost predicate Valid()
      reads this
    {
      && clients == Registry.Replay(log)
      && (forall id | id in clients :: clients[id].objectHash == id)
      && (client ==> (forall i | 0 <= i < |log| :: log[i].Opened?) && |clients| + pending == connects)
    }

    constructor (address: string := "/tmp/signaling.sock", client: bool := false)
      ensures Valid()
      ensures this.address == address && this.client == client
      ensures clients == map[] && onReceiveCallback == None
      ensures log == [] && calls == [] && effects == [] && connects == 0 && pending == 0
    {
      this.address, this.client := address, client;
      clients, onReceiveCallback := map[], None;
      log, calls, effects := [], [], [];
      connects, pending := 0, 0;
    }

    /**
     * Client mode connects to the socket path; server mode first unlinks the
     * path (a failure is suppressed) and then binds the server to it. The
     * engine then raises the events below.
     */
    method Start()
      requires Valid()
      modifies this`calls, this`effects, this`connects, this`pending
      ensures Valid()
      ensures calls == old(calls) + [StartCall]
      ensures client ==> effects == old(effects) + [Connect(address)]
                         && connects == old(connects) + 1 && pending == old(pending) + 1
      ensures !client ==> effects == old(effects) + [Unlink(address), Listen(address)]
                          && connects == old(connects) && pending == old(pending)
    {
      calls := calls + [StartCall];
      if client {
        effects := effects + [Connect(address)];
        connects, pending := connects + 1, pending + 1;
      } else {
        effects := effects + [Unlink(address)];
        effects := effects + [Listen(address)];
      }
    }

    /**
     * A connection is established: accepted by the server, or the client's
     * connect promise resolved. It is stored under its object hash, which is
     * distinct from the hash of every live, hence every registered, connection.
     */
    method OnConnection(conn: Stream)
      requires Valid()
      requires conn.objectHash !in clients
      requires client ==> pending > 0
      modifies this`clients, this`log, this`pending
      ensures Valid()
      ensures clients == old(clients)[conn.objectHash := conn]
      ensures |clients| == |old(clients)| + 1
      ensures log == old(log) + [Registry.Opened(conn.objectHash, conn)]
      ensures pending == if client then old(pending) - 1 else old(pending)
    {
      Registry.ReplayAppend(log, Registry.Opened(conn.objectHash, conn));
      Registry.InsertFreshSize(clients, conn.objectHash, conn);
      clients := clients[conn.objectHash := conn];
      log := log + [Registry.Opened(conn.objectHash, conn)];
      if client {
        pending := pending - 1;
      }
    }

    /** Data on a connection goes to the callback, with that connection's own id, when one is set. */
    method OnData(conn: Stream, data: Bytes)
      modifies this`effects
      ensures onReceiveCallback.Some? ==> effects == old(effects) + [Invoke(onReceiveCallback.value, conn.objectHash, data)]
      ensures onReceiveCallback.None? ==> effects == old(effects)
    {
      if onReceiveCallback.Some? {
        effects := effects + [Invoke(onReceiveCallback.value, conn.objectHash, data)];
      }
    }

    /** A close event unsets exactly that id in server mode; client mode installs no close handler. */
    method OnClose(conn: Stream)
      requires Valid()
      modifies this`clients, this`log
      ensures Valid()
      ensures !client ==> clients == old(clients) - {conn.objectHash}
                          && log == old(log) + [Registry.Closed(conn.objectHash)]
      ensures client ==> clients == old(clients) && log == old(log)
    {
      if !client {
        Registry.ReplayAppend(log, Registry.Closed(conn.objectHash));
        clients := clients - {conn.objectHash};
        log := log + [Registry.Closed(conn.objectHash)];
      }
    }

    /** Writes to a registered stream; an unknown id is silently ignored. */
    method Send(clientId: ClientId, message: Message)
      modifies this`calls, this`effects
      ensures calls == old(calls) + [SendCall(clientId, message)]
      ensures clientId in clients ==> effects == old(effects) + [Write(clients[clientId], message)]
      ensures clientId !in clients ==> effects == old(effects)
    {
      calls := calls + [SendCall(clientId, message)];
      if clientId in clients {
        effects := effects + [Write(clients[clientId], message)];
      }
    }

    /** Replaces the receive callback: the last registration wins. */
    method OnOfferRequest(callback: Callback)
      modifies this`onReceiveCallback, this`calls
      ensures onReceiveCallback == Some(callback)
      ensures calls == old(calls) + [OnOfferRequestCall(callback)]
    {
      onReceiveCallback := Some(callback);
      calls := calls + [OnOfferRequestCall(callback)];
    }
  }

  /**
   * In client mode, once the single connect started by one `start` has
   * resolved, exactly one connection is registered, and no event can remove it.
   */
  lemma ClientModeKeepsOneConnection(a: UnixSocketSignalingAdapter)
    requires a.Valid() && a.client && a.connects == 1 && a.pending == 0
    ensures |a.clients| == 1
    ensures forall i | 0 <= i < |a.log| :: a.log[i].Opened?
  {
  }
}
