/**
 * The framed-message adapter (Ratchet WebSocket server): a registry of open
 * connections keyed by their integer `resourceId`, and one receive callback.
 */
module WebSocketTransport {
  import opened Wrappers
  import opened Wire
  import opened Transport
  import Registry

  /** A Ratchet connection, known to the adapter by its integer `resourceId`. */
  datatype Connection = Connection(resourceId: nat)

  /** What the adapter does to the world outside its own fields. */
  datatype Effect =
    | ConnectionSend(conn: Connection, message: Message)
    | ConnectionClose(conn: Connection)
    | Invoke(callback: Callback, clientId: ClientId, data: Bytes)

  /**
   * The array key of a connection. PHP stores `$clients[$conn->resourceId]`
   * under an integer key and looks it up with the string id given to `send`;
   * a canonical decimal string addresses the same integer key, so the model
   * keys by the decimal text of the resource id.
   */
  function KeyOf(conn: Connection): (key: ClientId)
    ensures |key| >= 1 && forall i :: 0 <= i < |key| ==> '0' <= key[i] <= '9'
    ensures key[0] == '0' ==> conn.resourceId == 0
    ensures DecimalValue(key) == conn.resourceId
  {
    NatToStringValue(conn.resourceId);
    NatToString(conn.resourceId)
  }

  /** Distinct resource ids give distinct registry keys. */
  lemma KeysDistinct(c: Connection, d: Connection)
    ensures KeyOf(c) == KeyOf(d) <==> c == d
  {
    NatToStringInjective(c.resourceId, d.resourceId);
  }

  class WebSocketSignalingAdapter {
    const port: int
    const address: string
    var clients: map<ClientId, Connection>
    var onReceiveCallback: Option<Callback>
    /** The open and close events the registry reacted to. */
    ghost var log: seq<Registry.Event<Connection>>
    /** The calls received through the signaling interface. */
    ghost var calls: seq<Call>
    /** Sends, closes and callback invocations, in order. */
    ghost var effects: seq<Effect>

    ghost predicate Valid()
      reads this
    {
      && clients == Registry.Replay(log)
      && forall id | id in clients :: id == KeyOf(clients[id])
    }

    constructor (port: int := 5000, address: string := "0.0.0.0")
      ensures Valid()
      ensures this.port == port && this.address == address
      ensures clients == map[] && onReceiveCallback == None
      ensures log == [] && calls == [] && effects == []
    {
      this.port, this.address := port, address;
      clients, onReceiveCallback := map[], None;
      log, calls, effects := [], [], [];
    }

    /** Running the Ratchet server is engine I/O; the model records only that start was called. */
    method Start()
      modifies this`calls
      ensures calls == old(calls) + [StartCall]
    {
      calls := calls + [StartCall];
    }

    /** Sends to a registered connection; an unknown id is silently ignored. */
    method Send(clientId: ClientId, message: Message)
      modifies this`calls, this`effects
      ensures calls == old(calls) + [SendCall(clientId, message)]
      ensures clientId in clients ==> effects == old(effects) + [ConnectionSend(clients[clientId], message)]
      ensures clientId !in clients ==> effects == old(effects)
    {
      calls := calls + [SendCall(clientId, message)];
      if clientId in clients {
        effects := effects + [ConnectionSend(clients[clientId], message)];
      }
    }

    /** Replaces the receive callback: the last registration wins. */
    method OnOfferRequest(callback: Callback)
      modifies this`onReceiveCallback, this`calls
      ensures onReceiveCallback == Some(callback)
      ensures calls == old(calls) + [OnOfferRequestCall(callback)]
    {
      onReceiveCallback := Some(callback);
      calls := calls + [OnOfferRequestCall(callback)];
    }

    /** A new connection is stored under its resource id; every other entry is kept. */
    method OnOpen(conn: Connection)
      requires Valid()
      modifies this`clients, this`log
      ensures Valid()
      ensures clients == old(clients)[KeyOf(conn) := conn]
      ensures log == old(log) + [Registry.Opened(KeyOf(conn), conn)]
    {
      Registry.ReplayAppend(log, Registry.Opened(KeyOf(conn), conn));
      clients := clients[KeyOf(conn) := conn];
      log := log + [Registry.Opened(KeyOf(conn), conn)];
    }

    /** An incoming message goes to the callback, with the sender's id, when one is set. */
    method OnMessage(from: Connection, msg: Bytes)
      modifies this`effects
      ensures onReceiveCallback.Some? ==> effects == old(effects) + [Invoke(onReceiveCallback.value, KeyOf(from), msg)]
      ensures onReceiveCallback.None? ==> effects == old(effects)
    {
      if onReceiveCallback.Some? {
        effects := effects + [Invoke(onReceiveCallback.value, KeyOf(from), msg)];
      }
    }

    /** A closed connection's key is unset; every other entry is kept. */
    method OnClose(conn: Connection)
      requires Valid()
      modifies this`clients, this`log
      ensures Valid()
      ensures clients == old(clients) - {KeyOf(conn)}
      ensures log == old(log) + [Registry.Closed(KeyOf(conn))]
    {
      Registry.ReplayAppend(log, Registry.Closed(KeyOf(conn)));
      clients := clients - {KeyOf(conn)};
      log := log + [Registry.Closed(KeyOf(conn))];
    }

    /** A transport error closes the connection; the registry waits for the close event. */
    method OnError(conn: Connection)
      modifies this`effects
      ensures effects == old(effects) + [ConnectionClose(conn)]
    {
      effects := effects + [ConnectionClose(conn)];
    }
  }
}
