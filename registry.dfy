/**
 * The connection registry each stream and WebSocket adapter keeps: a map from
 * connection id to send handle, changed by connect and close events. The map
 * is specified as the replay of the events its handlers reacted to.
 */
module Registry {
  import opened Wrappers
  import opened Transport

  /** An event the registry reacted to: a connection stored under an id, or an id unset. */
  datatype Event<H> = Opened(id: ClientId, handle: H) | Closed(id: ClientId)

  /** `$clients[$id] = $conn` for an open event, `unset($clients[$id])` for a close event. */
  function Step<H>(clients: map<ClientId, H>, e: Event<H>): (r: map<ClientId, H>)
    ensures e.Opened? ==> e.id in r && r[e.id] == e.handle
    ensures e.Closed? ==> e.id !in r
    ensures forall k :: k != e.id ==> (k in r <==> k in clients)
    ensures forall k :: k != e.id && k in r ==> r[k] == clients[k]
  {
    match e
    case Opened(id, h) => clients[id := h]
    case Closed(id) => clients - {id}
  }

  /** The registry after reacting to `log` in order, starting from the empty array. */
  function Replay<H>(log: seq<Event<H>>): map<ClientId, H> {
    if log == [] then map[] else Step(Replay(log[..|log| - 1]), log[|log| - 1])
  }

  /** The most recent event in `log` about `id`, if any. */
  function LastFor<H>(log: seq<Event<H>>, id: ClientId): Option<Event<H>> {
    if log == [] then None
    else if log[|log| - 1].id == id then Some(log[|log| - 1])
    else LastFor(log[..|log| - 1], id)
  }

  /**
   * An id is registered exactly when its most recent event opened it, and it
   * then maps to the handle of that event: an id stays sendable from its open
   * event until the close event that follows it.
   */
  lemma {:induction false} RegisteredIffLastOpened<H>(log: seq<Event<H>>, id: ClientId)
    ensures id in Replay(log) <==> LastFor(log, id).Some? && LastFor(log, id).value.Opened?
    ensures id in Replay(log) ==> Replay(log)[id] == LastFor(log, id).value.handle
  {
    if log != [] {
      RegisteredIffLastOpened(log[..|log| - 1], id);
    }
  }

  /** An open event followed by the close of the same id leaves that id unregistered and every other entry as it was. */
  lemma OpenThenClose<H>(log: seq<Event<H>>, id: ClientId, h: H)
    ensures Replay(log + [Opened(id, h), Closed(id)]) == Replay(log) - {id}
  {
    ReplayAppend(log, Opened(id, h));
    assert log + [Opened(id, h), Closed(id)] == (log + [Opened(id, h)]) + [Closed(id)];
    ReplayAppend(log + [Opened(id, h)], Closed(id));
  }

  /** Replaying one more event applies that event's step to the registry. */
  lemma ReplayAppend<H>(log: seq<Event<H>>, e: Event<H>)
    ensures Replay(log + [e]) == Step(Replay(log), e)
  {
    assert (log + [e])[..|log|] == log;
  }

  /** Storing a fresh id grows the registry by exactly one entry. */
  lemma InsertFreshSize<H>(clients: map<ClientId, H>, id: ClientId, h: H)
    requires id !in clients
    ensures |clients[id := h]| == |clients| + 1
  {
    assert clients[id := h].Keys == clients.Keys + {id};
  }
}
