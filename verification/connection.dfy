/** The session state of `WebSocketConnection` with its monitor, threads and
    clock stripped away: each public method is one atomic transition of an
    immutable `Connection` value. */
module WebSocketConnection {
  import opened Wrappers
  import opened WireProtocol
  import WsUri

  const KEEPALIVE_TIMEOUT_SECONDS: int := 55

  /** The transport client; only its presence and the URI it was opened on matter. */
  datatype ClientHandle = ClientHandle(uri: string)

  /** The heartbeat sender. It is created but never started, so its presence is a flag. */
  datatype KeepAliveSender = KeepAliveSender

  /** What the session asked of the transport, in order. */
  datatype WireEvent =
    | Opened(uri: string, connectTimeoutSeconds: int, readTimeoutSeconds: int)
    | Sent(envelope: Envelope)
    | Closed

  datatype Connection = Connection(
    wsUri: string,
    readTimeoutSeconds: int,
    client: Option<ClientHandle>,
    keepAliveSender: Option<KeepAliveSender>,
    incomingRequests: seq<RequestMessage>,
    wire: seq<WireEvent>)

  /** The exceptions the session's methods throw. */
  datatype SessionError =
    | ConnectionClosed   // IOException("Connection closed!")
    | TimeoutExceeded    // TimeoutException("Timeout exceeded")
    | WaitInterrupted    // the monitor wait failed
    | NullClient         // dereference of an absent client

  /** The session invariant: a heartbeat sender exists only alongside a client. */
  predicate Valid(c: Connection) {
    c.keepAliveSender.Some? ==> c.client.Some?
  }

  /** The handles and the request queue, ignoring the transport log. */
  predicate SameSession(c: Connection, d: Connection) {
    && c.wsUri == d.wsUri
    && c.readTimeoutSeconds == d.readTimeoutSeconds
    && c.client == d.client
    && c.keepAliveSender == d.keepAliveSender
    && c.incomingRequests == d.incomingRequests
  }

  /** The constructor: nothing is opened yet. */
  function NewConnection(httpUri: string, readTimeoutSeconds: int): (c: Connection)
    ensures Valid(c)
    ensures c.client.None? && c.keepAliveSender.None?
    ensures c.incomingRequests == [] && c.wire == []
    ensures c.wsUri == WsUri.WebSocketUri(httpUri) && c.readTimeoutSeconds == readTimeoutSeconds
  {
    Connection(WsUri.WebSocketUri(httpUri), readTimeoutSeconds, None, None, [], [])
  }

  /** `connect`: opens a client only when there is none. */
  function Connect(c: Connection): (r: Connection)
    ensures c.client.Some? ==> r == c
    ensures c.client.None? ==>
      && r.client == Some(ClientHandle(c.wsUri))
      && r.wire == c.wire + [Opened(c.wsUri, KEEPALIVE_TIMEOUT_SECONDS + 10, c.readTimeoutSeconds)]
      && r.keepAliveSender == c.keepAliveSender
      && r.incomingRequests == c.incomingRequests
      && r.wsUri == c.wsUri && r.readTimeoutSeconds == c.readTimeoutSeconds
    ensures r.client.Some?
    ensures Valid(r)
  {
    if c.client.None? then
      c.(client := Some(ClientHandle(c.wsUri)),
         wire := c.wire + [Opened(c.wsUri, KEEPALIVE_TIMEOUT_SECONDS + 10, c.readTimeoutSeconds)])
    else
      c
  }

  /** The teardown shared by `disconnect` and `onClose`: closes the client if
      any and drops both handles; queued requests stay queued. */
  function TearDown(c: Connection): (r: Connection)
    ensures r.client.None? && r.keepAliveSender.None?
    ensures r.incomingRequests == c.incomingRequests
    ensures r.wsUri == c.wsUri && r.readTimeoutSeconds == c.readTimeoutSeconds
    ensures r.wire == c.wire + (if c.client.Some? then [Closed] else [])
    ensures Valid(r)
  {
    var closed := if c.client.Some? then c.(client := None, wire := c.wire + [Closed]) else c;
    closed.(keepAliveSender := None)
  }

  /** `disconnect`: no handle survives and no queued request is lost. */
  function Disconnect(c: Connection): (r: Connection)
    ensures r.client.None? && r.keepAliveSender.None? && r.incomingRequests == c.incomingRequests
  {
    TearDown(c)
  }

  /** `onClose`: the remote close tears the session down exactly as `disconnect` does. */
  function OnClose(c: Connection): (r: Connection)
    ensures r == Disconnect(c)
  {
    TearDown(c)
  }

  /** `onConnected`: creates the heartbeat sender when a client exists and no sender does. */
  function OnConnected(c: Connection): (r: Connection)
    ensures c.client.Some? && c.keepAliveSender.None? ==>
      r == c.(keepAliveSender := Some(KeepAliveSender))
    ensures !(c.client.Some? && c.keepAliveSender.None?) ==> r == c
    ensures Valid(c) ==> Valid(r)
  {
    if c.client.Some? && c.keepAliveSender.None? then c.(keepAliveSender := Some(KeepAliveSender))
    else c
  }

  /** The request `onMessage` queues for `payload`, if any: only a parsed
      envelope whose type number is REQUEST contributes. */
  function Arrival(payload: Bytes, parse: Parser): (a: Option<RequestMessage>)
    ensures a.Some? <==> parse(payload).Some? && parse(payload).value.messageType.Number() == REQUEST_VALUE
    ensures a.Some? ==> a.value == parse(payload).value.GetRequest()
  {
    match parse(payload)
    case None => None
    case Some(message) =>
      if message.messageType.Number() == REQUEST_VALUE then Some(message.GetRequest()) else None
  }

  /** `onMessage`: appends a decoded request to the end of the queue; anything else
      (a response, an unknown type, a malformed payload) leaves the session as it was. */
  function OnMessage(c: Connection, payload: Bytes, parse: Parser): (r: Connection)
    ensures Arrival(payload, parse).Some? ==>
      r == c.(incomingRequests := c.incomingRequests + [Arrival(payload, parse).value])
    ensures Arrival(payload, parse).None? ==> r == c
    ensures r.client == c.client && r.keepAliveSender == c.keepAliveSender && r.wire == c.wire
  {
    match Arrival(payload, parse)
    case Some(request) => c.(incomingRequests := c.incomingRequests + [request])
    case None => c
  }

  /** `sendResponse`: fails when there is no client, otherwise writes one RESPONSE envelope. */
  function SendResponse(c: Connection, response: ResponseMessage): (r: Result<Connection, SessionError>)
    ensures c.client.None? <==> r == Failure(ConnectionClosed)
    ensures c.client.Some? ==> r.Success?
    ensures r.Success? ==>
      && SameSession(r.value, c)
      && r.value.wire == c.wire + [Sent(ResponseEnvelope(response))]
  {
    if c.client.None? then Failure(ConnectionClosed)
    else Success(c.(wire := c.wire + [Sent(ResponseEnvelope(response))]))
  }

  /** `sendKeepAlive`: silent without a heartbeat sender, otherwise writes one
      heartbeat REQUEST through the client (which fails if the client is absent). */
  function SendKeepAlive(c: Connection, clockMillis: int): (r: Result<Connection, SessionError>)
    ensures c.keepAliveSender.None? ==> r == Success(c)
    ensures c.keepAliveSender.Some? && c.client.None? ==> r == Failure(NullClient)
    ensures c.keepAliveSender.Some? && c.client.Some? ==>
      && r.Success?
      && SameSession(r.value, c)
      && r.value.wire == c.wire + [Sent(KeepAliveEnvelope(clockMillis))]
    ensures r.Failure? ==> r.error == NullClient && !Valid(c)
  {
    if c.keepAliveSender.None? then Success(c)
    else if c.client.None? then Failure(NullClient)
    else Success(c.(wire := c.wire + [Sent(KeepAliveEnvelope(clockMillis))]))
  }

  /** Everything that can happen to the session outside the consumer's read. */
  datatype Event =
    | ConnectCall
    | DisconnectCall
    | CloseNotice
    | ConnectedNotice
    | MessageNotice(payload: Bytes)
    | ResponseCall(response: ResponseMessage)
    | KeepAliveTick(clockMillis: int)

  /** One event's effect; a call that throws leaves the session as it was. */
  function Apply(c: Connection, e: Event, parse: Parser): Connection {
    match e
    case ConnectCall => Connect(c)
    case DisconnectCall => Disconnect(c)
    case CloseNotice => OnClose(c)
    case ConnectedNotice => OnConnected(c)
    case MessageNotice(payload) => OnMessage(c, payload, parse)
    case ResponseCall(response) => SendResponse(c, response).GetOr(c)
    case KeepAliveTick(clock) => SendKeepAlive(c, clock).GetOr(c)
  }

  function ApplyAll(c: Connection, es: seq<Event>, parse: Parser): Connection
    decreases |es|
  {
    if |es| == 0 then c else ApplyAll(Apply(c, es[0], parse), es[1..], parse)
  }

  /** The requests a sequence of events delivers, in arrival order. */
  function Arrivals(es: seq<Event>, parse: Parser): seq<RequestMessage>
    decreases |es|
  {
    if |es| == 0 then []
    else
      var first := if es[0].MessageNotice? then Arrival(es[0].payload, parse) else None;
      (if first.Some? then [first.value] else []) + Arrivals(es[1..], parse)
  }

  /** Whether the handler calls `notifyAll` on the session's monitor: only the
      three transport callbacks do; `onClose` always, `onConnected` exactly when it
      creates the heartbeat sender, `onMessage` for every envelope that parses,
      whatever its type. */
  function NotifiesWaiters(c: Connection, e: Event, parse: Parser): (r: bool)
    ensures r ==> e.CloseNotice? || e.ConnectedNotice? || e.MessageNotice?
    ensures e.CloseNotice? ==> r
    ensures e.ConnectedNotice? ==> (r <==> OnConnected(c) != c)
    ensures e.MessageNotice? ==> (r <==> parse(e.payload).Some?)
  {
    match e
    case ConnectCall => false
    case DisconnectCall => false
    case CloseNotice => true
    case ConnectedNotice => c.client.Some? && c.keepAliveSender.None?
    case MessageNotice(payload) => parse(payload).Some?
    case ResponseCall(_) => false
    case KeepAliveTick(_) => false
  }

  // ---------------------------------------------------------------------------
  // Properties of the transitions

  lemma ConnectIdempotent(c: Connection)
    ensures Connect(Connect(c)) == Connect(c)
  {
  }

  lemma DisconnectIdempotent(c: Connection)
    ensures Disconnect(Disconnect(c)) == Disconnect(c)
  {
  }

  lemma OnCloseIdempotent(c: Connection)
    ensures OnClose(OnClose(c)) == OnClose(c)
  {
  }

  /** `disconnect` and `onClose` change the session identically; only `onClose` wakes waiters. */
  lemma DisconnectIsSilentClose(c: Connection, parse: Parser)
    ensures Disconnect(c) == OnClose(c)
    ensures !NotifiesWaiters(c, DisconnectCall, parse) && NotifiesWaiters(c, CloseNotice, parse)
  {
  }

  /** A waiting reader (client present, empty queue) can only be released by an
      event that notifies it, except by `disconnect`, which does not notify. */
  lemma ReleasingEventsNotify(c: Connection, e: Event, parse: Parser)
    requires c.client.Some? && c.incomingRequests == []
    requires var d := Apply(c, e, parse); d.client.None? || d.incomingRequests != []
    ensures NotifiesWaiters(c, e, parse) || e == DisconnectCall
  {
  }

  /** Every transition preserves the invariant. */
  lemma ApplyValid(c: Connection, e: Event, parse: Parser)
    requires Valid(c)
    ensures Valid(Apply(c, e, parse))
  {
  }

  /** Under the invariant a heartbeat never dereferences an absent client. */
  lemma SendKeepAliveNeverFails(c: Connection, clockMillis: int)
    requires Valid(c)
    ensures SendKeepAlive(c, clockMillis).Success?
  {
  }

  lemma {:induction false} ApplyAllValid(c: Connection, es: seq<Event>, parse: Parser)
    requires Valid(c)
    ensures Valid(ApplyAll(c, es, parse))
    decreases |es|
  {
    if |es| > 0 {
      ApplyValid(c, es[0], parse);
      ApplyAllValid(Apply(c, es[0], parse), es[1..], parse);
    }
  }

  /** Only `onMessage` touches the queue, and only by appending. */
  lemma ApplyQueue(c: Connection, e: Event, parse: Parser)
    ensures Apply(c, e, parse).incomingRequests ==
      c.incomingRequests +
        (if e.MessageNotice? && Arrival(e.payload, parse).Some? then [Arrival(e.payload, parse).value] else [])
  {
  }

  /** The queue after a run of events is the old queue followed by the arrivals, in order. */
  lemma {:induction false} ApplyAllQueue(c: Connection, es: seq<Event>, parse: Parser)
    ensures ApplyAll(c, es, parse).incomingRequests == c.incomingRequests + Arrivals(es, parse)
    decreases |es|
  {
    if |es| > 0 {
      ApplyQueue(c, es[0], parse);
      ApplyAllQueue(Apply(c, es[0], parse), es[1..], parse);
    }
  }

  /** The configuration never changes. */
  lemma {:induction false} ApplyAllKeepsConfig(c: Connection, es: seq<Event>, parse: Parser)
    ensures ApplyAll(c, es, parse).wsUri == c.wsUri
    ensures ApplyAll(c, es, parse).readTimeoutSeconds == c.readTimeoutSeconds
    decreases |es|
  {
    if |es| > 0 {
      ApplyAllKeepsConfig(Apply(c, es[0], parse), es[1..], parse);
    }
  }

  /** Every state reached from a fresh connection satisfies the invariant. */
  lemma ReachableValid(httpUri: string, readTimeoutSeconds: int, es: seq<Event>, parse: Parser)
    ensures Valid(ApplyAll(NewConnection(httpUri, readTimeoutSeconds), es, parse))
  {
    ApplyAllValid(NewConnection(httpUri, readTimeoutSeconds), es, parse);
  }
}
