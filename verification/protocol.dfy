/** The framed wire protocol carried over the websocket: every payload is an
    envelope tagged as a request or a response. Byte-level protobuf
    serialisation is not modelled; decoding is a partial function supplied
    by the caller. */
module WireProtocol {
  import opened Wrappers

  type Bytes = seq<bv8>

  datatype RequestMessage = RequestMessage(
    id: int,
    verb: string,
    path: string,
    body: Option<Bytes>,
    headers: seq<string>)

  datatype ResponseMessage = ResponseMessage(
    id: int,
    status: int,
    message: Option<string>,
    headers: seq<string>,
    body: Option<Bytes>)

  /** The envelope's type tag. `Unknown` stands for every tag other than
      REQUEST and RESPONSE. */
  datatype MessageType = Unknown | Request | Response {
    function Number(): int {
      match this
      case Unknown => 0
      case Request => REQUEST_VALUE
      case Response => RESPONSE_VALUE
    }
  }

  const REQUEST_VALUE: int := 1
  const RESPONSE_VALUE: int := 2

  /** The request a protobuf getter yields when the field is not set. */
  const DefaultRequest: RequestMessage := RequestMessage(0, "", "", None, [])

  datatype Envelope = Envelope(
    messageType: MessageType,
    request: Option<RequestMessage>,
    response: Option<ResponseMessage>)
  {
    /** Protobuf's `getRequest()`: the request if set, else the default instance. */
    function GetRequest(): RequestMessage {
      request.GetOr(DefaultRequest)
    }
  }

  /** Decoding of a received payload: `None` is a malformed payload. */
  type Parser = Bytes -> Option<Envelope>

  const KeepAliveVerb: string := "GET"
  const KeepAlivePath: string := "/v1/keepalive"

  /** The envelope `sendResponse` writes. */
  function ResponseEnvelope(response: ResponseMessage): (e: Envelope)
    ensures e.messageType.Number() == RESPONSE_VALUE
    ensures e.response == Some(response) && e.request.None?
  {
    Envelope(Response, None, Some(response))
  }

  /** The heartbeat envelope `sendKeepAlive` writes; its id is the clock in milliseconds. */
  function KeepAliveEnvelope(clockMillis: int): (e: Envelope)
    ensures e.messageType.Number() == REQUEST_VALUE && e.response.None?
    ensures e.request.Some? && e.GetRequest() == e.request.value
    ensures e.GetRequest().verb == "GET" && e.GetRequest().path == "/v1/keepalive"
    ensures e.GetRequest().id == clockMillis
  {
    Envelope(Request, Some(RequestMessage(clockMillis, KeepAliveVerb, KeepAlivePath, None, [])), None)
  }
}
