/**
 * The request/response handler: one decoded request, the connection it came
 * from and the adapter to reply through. It reads the offer out of the
 * request and sends a success or an error response back.
 */
module Request {
  import opened Wrappers
  import opened Wire
  import opened Transport
  import opened SignalingInterface

  /** The SDP type names, indexed by the integer tag carried on the wire. */
  const SDP_TYPE: seq<string> := ["unknown", "offer", "answer", "pranswer", "rollback"]

  const STATUS_OK: int := 200
  const DEFAULT_ERROR_CODE: int := 403

  ghost predicate Distinct(t: seq<string>) {
    forall i, j | 0 <= i < j < |t| :: t[i] != t[j]
  }

  /** PHP's `array_flip`: each entry's value becomes a key mapping to its index; a later duplicate wins. */
  function ArrayFlip(t: seq<string>): (m: map<string, int>)
    ensures m.Keys == set i | 0 <= i < |t| :: t[i]
    ensures forall name | name in m :: 0 <= m[name] < |t| && t[m[name]] == name
  {
    if t == [] then map[]
    else
      var init := ArrayFlip(t[..|t| - 1]);
      assert forall i | 0 <= i < |t| - 1 :: t[..|t| - 1][i] == t[i];
      init[t[|t| - 1] := |t| - 1]
  }

  /** When the entries are distinct, flipping inverts indexing: every entry maps back to its own index. */
  lemma {:induction false} ArrayFlipInverts(t: seq<string>, i: int)
    requires Distinct(t) && 0 <= i < |t|
    ensures t[i] in ArrayFlip(t) && ArrayFlip(t)[t[i]] == i
  {
    if i < |t| - 1 {
      var init := t[..|t| - 1];
      assert Distinct(init) && init[i] == t[i];
      ArrayFlipInverts(init, i);
    }
  }

  /** `SDP_TYPE[$index]`: defined for the five tags 0..4 only. */
  function SdpTypeName(index: int): (r: Option<string>)
    ensures r.Some? <==> 0 <= index < 5
  {
    if 0 <= index < |SDP_TYPE| then Some(SDP_TYPE[index]) else None
  }

  /** `array_flip(SDP_TYPE)[$name]`: defined for the five names only. */
  function SdpTypeIndex(name: string): (r: Option<int>)
    ensures r.Some? ==> 0 <= r.value < 5
  {
    var flipped := ArrayFlip(SDP_TYPE);
    if name in flipped then Some(flipped[name]) else None
  }

  /** Index-to-name and name-to-index are inverse bijections between 0..4 and the five names. */
  lemma SdpTypeBijection(index: int, name: string)
    ensures SdpTypeName(index) == Some(name) <==> SdpTypeIndex(name) == Some(index)
  {
    assert Distinct(SDP_TYPE);
    if 0 <= index < 5 {
      ArrayFlipInverts(SDP_TYPE, index);
    }
  }

  /** The tags of the table, as the wire schema documents them. */
  lemma SdpTypeTable()
    ensures SdpTypeName(0) == Some("unknown") && SdpTypeName(1) == Some("offer")
    ensures SdpTypeName(2) == Some("answer") && SdpTypeName(3) == Some("pranswer")
    ensures SdpTypeName(4) == Some("rollback")
    ensures SdpTypeName(5) == None && SdpTypeName(-1) == None
  {
  }

  /** `RTCSessionDescription`: the SDP text and its type name. */
  datatype RTCSessionDescription = RTCSessionDescription(sdp: string, typeName: string)

  /** Why `getOffer` cannot build a description: no payload, or a tag outside the table. */
  datatype OfferError = MissingPayload | UndefinedSdpType(index: int)

  /** The bytes a peer reads out of what `send` was given: the frame's payload, or the raw bytes. */
  function PayloadOf(m: Message): Bytes {
    match m
    case Raw(b) => b
    case Frame(b, _, _) => b
  }

  class Request {
    const signaling: Adapter
    const message: WebSocketMessage
    /** The transport connection id the request arrived on. */
    const webSocketId: ClientId
    const codec: Codec
    const request: RequestMessage
    const payload: Option<SignalMessage>

    /** The stored request and payload are those of the message. */
    ghost predicate Valid() {
      message == WithRequest(request) && payload == request.payload
    }

    /** Built only from a message that carries a request (with any other message the source fails). */
    constructor (signaling: Adapter, message: WebSocketMessage, webSocketId: ClientId, codec: Codec)
      requires message.WithRequest?
      ensures Valid()
      ensures this.signaling == signaling && this.message == message
      ensures this.webSocketId == webSocketId && this.codec == codec
    {
      this.signaling, this.message, this.webSocketId, this.codec := signaling, message, webSocketId, codec;
      request := message.request;
      payload := message.request.payload;
    }

    /** The peer id carried inside the request, whatever connection the request came in on. */
    function GetClientId(): (r: string)
      requires Valid()
      ensures r == message.request.id
    {
      request.id
    }

    /**
     * The request's offer: its SDP text unchanged and the name of its type
     * tag; an error when the payload is absent or the tag is not one of 0..4.
     */
    function GetOffer(): (r: Result<RTCSessionDescription, OfferError>)
      ensures payload.None? ==> r == Failure(MissingPayload)
      ensures payload.Some? ==> (r.Success? <==> 0 <= payload.value.sdpType < 5)
      ensures payload.Some? && r.Failure? ==> r == Failure(UndefinedSdpType(payload.value.sdpType))
      ensures r.Success? ==> r.value.sdp == payload.value.sdp
                             && SdpTypeIndex(r.value.typeName) == Some(payload.value.sdpType)
    {
      match payload
      case None => Failure(MissingPayload)
      case Some(p) =>
        match SdpTypeName(p.sdpType)
        case None => Failure(UndefinedSdpType(p.sdpType))
        case Some(name) =>
          SdpTypeBijection(p.sdpType, name);
          Success(RTCSessionDescription(p.sdp, name))
    }

    /** The payload record: the SDP text and its numeric type tag. */
    function CreateSignalMessage(sdp: string, sdpType: int): (m: SignalMessage)
      ensures m.sdp == sdp && m.sdpType == sdpType
    {
      SignalMessage(sdp, sdpType)
    }

    /** A success response echoes the request's message id, has status 200 and carries only the payload. */
    function CreateSuccessResponseMessage(signal: SignalMessage): (m: ResponseMessage)
      ensures m.messageId == request.messageId && m.statusCode == STATUS_OK
      ensures m.response == Some(signal) && m.errorMessage.None?
    {
      ResponseMessage(request.messageId, STATUS_OK, Some(signal), None)
    }

    /** The outer envelope of a reply is always the response variant, never a request. */
    function CreateWebSocketResponseMessage(response: ResponseMessage): (m: WebSocketMessage)
      ensures m.WithResponse? && m.response == response && !m.HasRequest()
    {
      WithResponse(response)
    }

    /** An error response echoes the request's message id, has the given code and carries only the error text. */
    function CreateErrorResponseMessage(errorMessage: string, errorCode: int): (m: ResponseMessage)
      ensures m.messageId == request.messageId && m.statusCode == errorCode
      ensures m.response.None? && m.errorMessage == Some(errorMessage)
    {
      ResponseMessage(request.messageId, errorCode, None, Some(errorMessage))
    }

    /**
     * What `sendOffer` hands to `send`: the serialized success response,
     * wrapped in a final binary frame only for the WebSocket adapter; nothing
     * when the description's type name is not in the table.
     */
    function OfferReply(description: RTCSessionDescription): (reply: Option<Message>)
      ensures reply.Some? <==> SdpTypeIndex(description.typeName).Some?
      ensures reply.Some? ==>
                PayloadOf(reply.value) == codec.encode(WithResponse(ResponseMessage(
                  request.messageId, STATUS_OK,
                  Some(SignalMessage(description.sdp, SdpTypeIndex(description.typeName).value)), None)))
      ensures reply.Some? ==> (reply.value.Frame? <==> signaling.WebSocket?)
      ensures reply.Some? && reply.value.Frame? ==> reply.value.final && reply.value.opcode == OP_BINARY
    {
      match SdpTypeIndex(description.typeName)
      case None => None
      case Some(index) =>
        var signal := CreateSignalMessage(description.sdp, index);
        var bytes := codec.encode(CreateWebSocketResponseMessage(CreateSuccessResponseMessage(signal)));
        Some(if signaling.WebSocket? then Frame(bytes, true, OP_BINARY) else Raw(bytes))
    }

    /** What `respondError` hands to `send`: the serialized error response, always in a final binary frame. */
    function ErrorReply(errorMessage: string, errorCode: int): (reply: Message)
      ensures reply.Frame? && reply.final && reply.opcode == OP_BINARY
      ensures PayloadOf(reply) == codec.encode(WithResponse(ResponseMessage(request.messageId, errorCode, None, Some(errorMessage))))
    {
      var bytes := codec.encode(CreateWebSocketResponseMessage(CreateErrorResponseMessage(errorMessage, errorCode)));
      Frame(bytes, true, OP_BINARY)
    }

    /**
     * Sends the success response for `description` to the connection the
     * request came from, with exactly one `send`; a type name outside the
     * table fails before anything is sent.
     */
    method SendOffer(description: RTCSessionDescription) returns (sent: bool)
      requires SignalingInterface.Valid(signaling)
      modifies Obj(signaling)
      ensures SignalingInterface.Valid(signaling)
      ensures sent <==> SdpTypeIndex(description.typeName).Some?
      ensures sent ==> Calls(signaling) == old(Calls(signaling)) + [SendCall(webSocketId, OfferReply(description).value)]
      ensures sent ==> SendEffect(signaling, webSocketId, OfferReply(description).value)
      ensures !sent ==> unchanged(Obj(signaling))
    {
      var reply := OfferReply(description);
      sent := reply.Some?;
      if sent {
        SignalingInterface.Send(signaling, webSocketId, reply.value);
      }
    }

    /** Sends the error response to the connection the request came from, with exactly one `send`. */
    method RespondError(errorMessage: string, errorCode: int := DEFAULT_ERROR_CODE)
      requires SignalingInterface.Valid(signaling)
      modifies Obj(signaling)
      ensures SignalingInterface.Valid(signaling)
      ensures Calls(signaling) == old(Calls(signaling)) + [SendCall(webSocketId, ErrorReply(errorMessage, errorCode))]
      ensures SendEffect(signaling, webSocketId, ErrorReply(errorMessage, errorCode))
    {
      SignalingInterface.Send(signaling, webSocketId, ErrorReply(errorMessage, errorCode));
    }
  }

  /**
   * A peer decoding a success reply reads the request's own message id,
   * status 200, the description's SDP and type tag, and no error text.
   */
  lemma OfferReplyDecodes(r: Request, description: RTCSessionDescription)
    requires Lawful(r.codec)
    requires SdpTypeIndex(description.typeName).Some?
    ensures r.OfferReply(description).Some?
    ensures r.codec.decode(PayloadOf(r.OfferReply(description).value))
         == Success(WithResponse(ResponseMessage(
              r.request.messageId, STATUS_OK,
              Some(SignalMessage(description.sdp, SdpTypeIndex(description.typeName).value)), None)))
  {
  }

  /**
   * A peer decoding an error reply reads the request's own message id, the
   * given code (403 unless the caller names one), the error text, and no payload.
   */
  lemma ErrorReplyDecodes(r: Request, errorMessage: string, errorCode: int)
    requires Lawful(r.codec)
    ensures r.codec.decode(PayloadOf(r.ErrorReply(errorMessage, errorCode)))
         == Success(WithResponse(ResponseMessage(r.request.messageId, errorCode, None, Some(errorMessage))))
  {
  }

  /**
   * The two replies are framed alike only on the WebSocket adapter: on every
   * other adapter the success reply goes out as raw bytes while the error
   * reply is still a binary frame.
   */
  lemma ReplyFraming(r: Request, description: RTCSessionDescription, errorMessage: string, errorCode: int)
    requires SdpTypeIndex(description.typeName).Some?
    ensures r.OfferReply(description).Some?
    ensures r.signaling.WebSocket? ==> r.OfferReply(description).value.Frame? && r.ErrorReply(errorMessage, errorCode).Frame?
    ensures !r.signaling.WebSocket? ==> r.OfferReply(description).value.Raw? && r.ErrorReply(errorMessage, errorCode).Frame?
  {
  }

  /**
   * The status code tells the two kinds of response apart only if the caller
   * of `respondError` avoids 200: nothing in the source rejects that code.
   */
  lemma ErrorMayCarryStatusOk(r: Request, errorMessage: string)
    ensures r.CreateErrorResponseMessage(errorMessage, STATUS_OK).statusCode == STATUS_OK
    ensures r.CreateErrorResponseMessage(errorMessage, STATUS_OK).response.None?
  {
  }

  /**
   * Replying with the offer just read reproduces the request's payload: the
   * name chosen by `getOffer` flips back to the same tag.
   */
  lemma OfferRoundTrip(r: Request)
    requires r.GetOffer().Success?
    ensures r.OfferReply(r.GetOffer().value).Some?
    ensures r.CreateSignalMessage(r.GetOffer().value.sdp, SdpTypeIndex(r.GetOffer().value.typeName).value) == r.payload.value
  {
  }
}
