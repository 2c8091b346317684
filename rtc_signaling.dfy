/**
 * The signaling facade: wraps one adapter, delegates `start` and `send`
 * unchanged, and installs a decorated receive callback that turns inbound
 * bytes into a `Request` for the application when, and only when, they
 * decode to a request envelope.
 */
module SignalingFacade {
  import opened Wrappers
  import opened Wire
  import opened Transport
  import opened SignalingInterface
  import R = Request

  /** One call of the application callback numbered `user`, with the request it was given. */
  datatype Invocation = Invocation(user: nat, request: R.Request)

  class RTCSignaling {
    const adapter: Adapter
    const codec: Codec
    /** The application-callback calls made by decorated callbacks. */
    ghost var invocations: seq<Invocation>

    constructor (adapter: Adapter, codec: Codec)
      ensures this.adapter == adapter && this.codec == codec && invocations == []
    {
      this.adapter, this.codec := adapter, codec;
      invocations := [];
    }

    /** Starts the wrapped adapter: exactly one `start` call on it. */
    method Start()
      requires SignalingInterface.Valid(adapter)
      modifies Obj(adapter)
      ensures SignalingInterface.Valid(adapter)
      ensures Calls(adapter) == old(Calls(adapter)) + [StartCall]
      ensures ReceiveCallback(adapter) == old(ReceiveCallback(adapter))
      ensures StartEffect(adapter)
    {
      SignalingInterface.Start(adapter);
    }

    /** Forwards exactly `(clientId, message)` to the wrapped adapter, once. */
    method Send(clientId: ClientId, message: Message)
      requires SignalingInterface.Valid(adapter)
      modifies Obj(adapter)
      ensures SignalingInterface.Valid(adapter)
      ensures Calls(adapter) == old(Calls(adapter)) + [SendCall(clientId, message)]
      ensures SendEffect(adapter, clientId, message)
    {
      SignalingInterface.Send(adapter, clientId, message);
    }

    /** Registers one closure on the adapter: the decorated form of the application callback. */
    method OnOfferRequest(user: nat)
      requires SignalingInterface.Valid(adapter)
      modifies Obj(adapter)
      ensures SignalingInterface.Valid(adapter)
      ensures Calls(adapter) == old(Calls(adapter)) + [OnOfferRequestCall(Decorated(user))]
      ensures ReceiveCallback(adapter) == Some(Decorated(user))
      ensures RegisterEffect(adapter, Decorated(user))
    {
      SignalingInterface.OnOfferRequest(adapter, Decorated(user));
    }

    /**
     * The decision `createRequestObject` makes: the decode error, no request
     * (the envelope is a response or empty), or the decoded request envelope.
     */
    function DecodeRequest(message: Bytes): (r: Result<Option<WebSocketMessage>, DecodeError>)
      ensures r.Failure? <==> codec.decode(message).Failure?
      ensures r.Success? && r.value.Some? ==> r.value.value.WithRequest? && codec.decode(message) == Success(r.value.value)
      ensures r.Success? && r.value.None? ==> codec.decode(message).Success? && !codec.decode(message).value.WithRequest?
    {
      match codec.decode(message)
      case Failure(e) => Failure(e)
      case Success(m) => Success(if m.HasRequest() then Some(m) else None)
    }

    /**
     * Decodes the bytes and, for a request envelope, builds a `Request` that
     * replies through the wrapped adapter to `client`. A decode error is not
     * caught: it is returned as the failure that the source throws.
     */
    method CreateRequestObject(client: ClientId, message: Bytes) returns (r: Result<Option<R.Request>, DecodeError>)
      ensures r.Failure? <==> DecodeRequest(message).Failure?
      ensures r.Success? ==> (r.value.Some? <==> DecodeRequest(message).value.Some?)
      ensures r.Success? && r.value.Some? ==>
                fresh(r.value.value) && r.value.value.Valid()
                && r.value.value.message == DecodeRequest(message).value.value
                && r.value.value.signaling == adapter && r.value.value.webSocketId == client
                && r.value.value.codec == codec
    {
      var decoded := codec.decode(message);
      if decoded.Failure? {
        return Failure(decoded.error);
      }
      if decoded.value.HasRequest() {
        var request := new R.Request(adapter, decoded.value, client, codec);
        return Success(Some(request));
      }
      return Success(None);
    }

    /**
     * The body of the closure `OnOfferRequest` installs, run when an adapter
     * invokes `callback` with `(client, message)`: the application callback
     * it wraps runs exactly once, with the built `Request`, when the bytes
     * decode to a request envelope, and never otherwise.
     */
    method InvokeDecorated(callback: Callback, client: ClientId, message: Bytes) returns (r: Result<Option<R.Request>, DecodeError>)
      requires callback.Decorated?
      modifies this`invocations
      ensures r.Failure? <==> DecodeRequest(message).Failure?
      ensures r.Success? ==> (r.value.Some? <==> DecodeRequest(message).value.Some?)
      ensures r.Success? && r.value.Some? ==>
                fresh(r.value.value) && r.value.value.Valid()
                && r.value.value.message == DecodeRequest(message).value.value
                && r.value.value.signaling == adapter && r.value.value.webSocketId == client
                && r.value.value.codec == codec
                && invocations == old(invocations) + [Invocation(callback.user, r.value.value)]
      ensures !(r.Success? && r.value.Some?) ==> invocations == old(invocations)
    {
      r := CreateRequestObject(client, message);
      if r.Success? && r.value.Some? {
        invocations := invocations + [Invocation(callback.user, r.value.value)];
      }
    }
  }

  /**
   * Through a lawful serializer, the facade surfaces exactly the request
   * envelopes: an encoded request comes back as itself, while an encoded
   * response or empty envelope yields no request.
   */
  lemma DecodeRequestOfEncoded(f: RTCSignaling, m: WebSocketMessage)
    requires Lawful(f.codec)
    ensures f.DecodeRequest(f.codec.encode(m)) == Success(if m.WithRequest? then Some(m) else None)
  {
  }
}
