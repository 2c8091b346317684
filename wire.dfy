/**
 * The envelope protocol: the records of the `Webrtcsignaler` protobuf schema
 * (SignalMessage, RequestMessage, ResponseMessage and the outer
 * WebSocketMessage) and the serializer, which the model treats as an opaque
 * pair of functions.
 */
module Wire {
  import opened Wrappers

  type Bytes = seq<bv8>

  /** One SDP description as it travels on the wire: the text and the integer type tag. */
  datatype SignalMessage = SignalMessage(sdp: string, sdpType: int)

  /** A request: the sender's correlation id, the semantic peer id and an optional payload. */
  datatype RequestMessage = RequestMessage(messageId: string, id: string, payload: Option<SignalMessage>)

  /** A response: the echoed correlation id, the status code, and the success payload or the error text. */
  datatype ResponseMessage = ResponseMessage(
    messageId: string,
    statusCode: int,
    response: Option<SignalMessage>,
    errorMessage: Option<string>)

  /** The outer frame, a protobuf `oneof`: a request, a response, or neither (an empty message). */
  datatype WebSocketMessage =
    | WithRequest(request: RequestMessage)
    | WithResponse(response: ResponseMessage)
    | Empty
  {
    /** `hasRequest()` of the generated class. */
    predicate HasRequest() { WithRequest? }
  }

  datatype DecodeError = MalformedMessage

  /** The serializer: `serializeToString` and `mergeFromString` into a fresh message. */
  datatype Codec = Codec(
    encode: WebSocketMessage -> Bytes,
    decode: Bytes -> Result<WebSocketMessage, DecodeError>)

  /** The serializer's promise that decoding what it encoded gives back the same message. */
  ghost predicate Lawful(codec: Codec) {
    forall m: WebSocketMessage :: codec.decode(codec.encode(m)) == Success(m)
  }
}
