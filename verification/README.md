# libtextsecure websocket session and data message — a Dafny model

This project models two pieces of the libtextsecure Java client.

The first is the session manager `WebSocketConnection`. It keeps one websocket
client to the server and queues the requests the server pushes. A consumer
drains the queue with a blocking `readRequest` that has a deadline. The same
connection sends the consumer's responses and the heartbeat requests. Here the
Java monitor, the threads and the wall clock are removed. Each public method
becomes one atomic transition of an immutable `Connection` value. That value
holds:

- the client, present or absent;
- the heartbeat sender, present or absent;
- the FIFO queue of incoming requests;
- a log of what was asked of the transport: opened, sent envelope, closed.

`readRequest` is split into three parts:

- the entry check;
- a wait loop (`BlockingRead.AwaitRequest`), driven by a schedule of waits;
- the three-way result selection (`BlockingRead.Outcome`).

Each scheduled wait says which events other parties cause during it, and how
many milliseconds pass. It can also say that the wait fails. Each iteration's
`sleep` and `wakeup` callback calls and the wait itself (`Block`) are returned
as a trace, in the order they happen.

The second piece is the value object `TextSecureDataMessage`: its five
constructors, which normalise their inputs, `isGroupUpdate`, and its `Builder`.

Modules:

- `Wrappers` (wrappers.dfy): `Option` for nullable references and Guava
  `Optional`; `Result` for a call that returns or throws.
- `WsUri` (uri.dfy): Java's `String.replace`, and the websocket URI the
  constructor derives.
- `WireProtocol` (protocol.dfy): the request, response and envelope messages,
  and the envelopes the session writes.
- `WebSocketConnection` (connection.dfy): session state, transitions, events
  and the session invariant.
- `BlockingRead` (read_request.dfy): `readRequest`, the hook trace, and FIFO
  draining.
- `TextSecureDataMessage` (data_message.dfy): the message, its constructors
  and its builder.

Behaviours of the code that a reader might not expect, all kept in the model:

- `disconnect()` does not call `notifyAll`; `onClose`, `onConnected` and
  `onMessage` do. So `disconnect()` does not itself wake a blocked reader. The
  reader sees the closed session only when its wait next ends: at its timeout,
  on another callback's `notifyAll`, or spuriously.
  `WebSocketConnection.DisconnectIsSilentClose` and
  `WebSocketConnection.ReleasingEventsNotify` state this.
- `readRequest` reports "connection closed" at entry whenever the client is
  absent, even with requests still queued.
- `onConnected` creates the heartbeat sender but never starts it. Its presence
  is only a flag.
- `onMessage` notifies waiters for every envelope it parses, whatever its type.

## Model

| member | source | states |
|---|---|---|
| WsUri.ReplaceAllWithoutTarget | java/src/main/java/org/whispersystems/textsecure/internal/websocket/WebSocketConnection.java:40-41 | replacing a target that does not occur in the string leaves the string unchanged |
| WsUri.ReplaceAllKeepsPrefix | java/src/main/java/org/whispersystems/textsecure/internal/websocket/WebSocketConnection.java:40-41 | a prefix in which no occurrence of the target starts is copied through unchanged |
| WsUri.ReplaceAllLength | java/src/main/java/org/whispersystems/textsecure/internal/websocket/WebSocketConnection.java:40-41 | replacing by a string no longer than the target never lengthens the input, and by one of equal length keeps its length |
| WsUri.ReplaceAllAtFront | java/src/main/java/org/whispersystems/textsecure/internal/websocket/WebSocketConnection.java:40-41 | an occurrence of the target at the front is replaced and the scan resumes right after it |
| WsUri.WebSocketUri | java/src/main/java/org/whispersystems/textsecure/internal/websocket/WebSocketConnection.java:40-41 | the derived URI always ends with the fixed `/v1/websocket/?login=%s&password=%s` template |
| WsUri.PlainUriGetsPathOnly | java/src/main/java/org/whispersystems/textsecure/internal/websocket/WebSocketConnection.java:40-41 | a URI containing neither `https://` nor `http://` only gets the template appended |
| WsUri.HttpsBecomesWss | java/src/main/java/org/whispersystems/textsecure/internal/websocket/WebSocketConnection.java:40-41 | a leading `https://` becomes `wss://`, and the rest of the URI is rewritten independently |
| WsUri.HttpBecomesWs | java/src/main/java/org/whispersystems/textsecure/internal/websocket/WebSocketConnection.java:40-41 | a leading `http://` becomes `ws://` (the first replacement does not touch it), and the rest is rewritten independently |
| WireProtocol.ResponseEnvelope | java/src/main/java/org/whispersystems/textsecure/internal/websocket/WebSocketConnection.java:98-101 | the written envelope has type number RESPONSE and carries exactly the given response |
| WireProtocol.KeepAliveEnvelope | java/src/main/java/org/whispersystems/textsecure/internal/websocket/WebSocketConnection.java:108-115 | the heartbeat is a REQUEST envelope with verb GET, path /v1/keepalive and the clock as id |
| WebSocketConnection.NewConnection | java/src/main/java/org/whispersystems/textsecure/internal/websocket/WebSocketConnection.java:36-42 | a new session has no client, no heartbeat sender and an empty queue, satisfies the invariant, and stores the derived URI |
| WebSocketConnection.Connect | java/src/main/java/org/whispersystems/textsecure/internal/websocket/WebSocketConnection.java:44-51 | with no client, opens one on the session URI with connect timeout 55 + 10 s and the read timeout, leaving the heartbeat flag, queue, URI and read timeout as they were; with a client, changes nothing; afterwards a client exists |
| WebSocketConnection.ConnectIdempotent | java/src/main/java/org/whispersystems/textsecure/internal/websocket/WebSocketConnection.java:44-51 | connecting twice is the same as connecting once |
| WebSocketConnection.TearDown | java/src/main/java/org/whispersystems/textsecure/internal/websocket/WebSocketConnection.java:53-65 | both handles end absent, the queue is unchanged, and the transport is closed exactly when a client existed |
| WebSocketConnection.Disconnect | java/src/main/java/org/whispersystems/textsecure/internal/websocket/WebSocketConnection.java:53-65 | leaves client and heartbeat sender absent and keeps queued requests |
| WebSocketConnection.OnClose | java/src/main/java/org/whispersystems/textsecure/internal/websocket/WebSocketConnection.java:136-151 | changes the session exactly as disconnect does: both handles absent, queued requests kept |
| WebSocketConnection.DisconnectIdempotent | java/src/main/java/org/whispersystems/textsecure/internal/websocket/WebSocketConnection.java:53-65 | disconnecting twice is the same as disconnecting once |
| WebSocketConnection.OnCloseIdempotent | java/src/main/java/org/whispersystems/textsecure/internal/websocket/WebSocketConnection.java:136-151 | a second remote close changes nothing |
| WebSocketConnection.DisconnectIsSilentClose | java/src/main/java/org/whispersystems/textsecure/internal/websocket/WebSocketConnection.java:53-65 | disconnect and onClose change the session identically, but only onClose notifies waiters |
| WebSocketConnection.OnConnected | java/src/main/java/org/whispersystems/textsecure/internal/websocket/WebSocketConnection.java:153-160 | creates the heartbeat sender exactly when a client exists and no sender does, otherwise changes nothing; preserves the invariant |
| WebSocketConnection.Arrival | java/src/main/java/org/whispersystems/textsecure/internal/websocket/WebSocketConnection.java:122-128 | a payload yields a request exactly when it parses and its type number is REQUEST, and then it is the envelope's request |
| WebSocketConnection.OnMessage | java/src/main/java/org/whispersystems/textsecure/internal/websocket/WebSocketConnection.java:119-134 | a request is appended at the end of the queue; a response, another type or a malformed payload changes nothing; handles and transport log never change |
| WebSocketConnection.SendResponse | java/src/main/java/org/whispersystems/textsecure/internal/websocket/WebSocketConnection.java:93-104 | fails with connection closed exactly when there is no client; with a client it succeeds, writing one RESPONSE envelope with the response and changing nothing else |
| WebSocketConnection.SendKeepAlive | java/src/main/java/org/whispersystems/textsecure/internal/websocket/WebSocketConnection.java:106-117 | without a heartbeat sender sends nothing; with sender and client writes one heartbeat envelope; with a sender but no client fails with the null-client error, and that is its only failure, possible only when the invariant is broken |
| WebSocketConnection.SendKeepAliveNeverFails | java/src/main/java/org/whispersystems/textsecure/internal/websocket/WebSocketConnection.java:106-117 | under the invariant a heartbeat send never fails |
| WebSocketConnection.ReleasingEventsNotify | java/src/main/java/org/whispersystems/textsecure/internal/websocket/WebSocketConnection.java:119-160 | every event that could release a waiting reader calls notifyAll, except disconnect |
| WebSocketConnection.NotifiesWaiters | java/src/main/java/org/whispersystems/textsecure/internal/websocket/WebSocketConnection.java:119-160 | only onClose, onConnected and onMessage call notifyAll: onClose always, onConnected exactly when it changes the session, onMessage exactly when the payload parses |
| WebSocketConnection.ApplyValid | java/src/main/java/org/whispersystems/textsecure/internal/websocket/WebSocketConnection.java:44-160 | every transition preserves "heartbeat sender present implies client present" |
| WebSocketConnection.ApplyAllValid | java/src/main/java/org/whispersystems/textsecure/internal/websocket/WebSocketConnection.java:33-34 | every sequence of transitions preserves the invariant |
| WebSocketConnection.ReachableValid | java/src/main/java/org/whispersystems/textsecure/internal/websocket/WebSocketConnection.java:36-42 | every session reachable from the constructor satisfies the invariant |
| WebSocketConnection.ApplyQueue | java/src/main/java/org/whispersystems/textsecure/internal/websocket/WebSocketConnection.java:126-127 | only an arriving request changes the queue, by appending it |
| WebSocketConnection.ApplyAllQueue | java/src/main/java/org/whispersystems/textsecure/internal/websocket/WebSocketConnection.java:26 | after any events the queue is the old queue followed by the arrivals in order |
| WebSocketConnection.ApplyAllKeepsConfig | java/src/main/java/org/whispersystems/textsecure/internal/websocket/WebSocketConnection.java:28-31 | the URI and read timeout never change |
| BlockingRead.Outcome | java/src/main/java/org/whispersystems/textsecure/internal/websocket/WebSocketConnection.java:88-90 | closed exactly when the queue is empty and the client absent; timeout exactly when the queue is empty and the client present; otherwise the head is returned and the queue becomes its tail |
| BlockingRead.AwaitRequest | java/src/main/java/org/whispersystems/textsecure/internal/websocket/WebSocketConnection.java:76-86 | each iteration starts in the session the earlier scheduled waits leave, with a client, an empty queue and time left; the loop exits only with a request queued, the client gone, the time up or a failed wait, which can only be the last one used; the elapsed time is the sum of the waits taken, the last quiet one lasting `max(1, remaining)`; no wait when a request is already queued; the trace has each iteration's wait, with sleep right before and wakeup right after it exactly when a heartbeat sender exists, wakeup even when the wait fails |
| BlockingRead.WaitOnce | java/src/main/java/org/whispersystems/textsecure/internal/websocket/WebSocketConnection.java:77-85 | one iteration records sleep, the wait, then wakeup when a heartbeat sender exists, and the wait alone otherwise, also when the wait fails; a failed wait changes nothing, otherwise the round's events are applied |
| BlockingRead.FirstArrivalIsRead | java/src/main/java/org/whispersystems/textsecure/internal/websocket/WebSocketConnection.java:76-90 | when the first wait brings a request before the deadline, the loop does not fail and the selection returns the head of the entry queue followed by the arrivals |
| BlockingRead.ReadRequest | java/src/main/java/org/whispersystems/textsecure/internal/websocket/WebSocketConnection.java:67-91 | closed at entry without a client whatever is queued; a queued request is returned at once and only the queue's head is removed; otherwise the loop runs on the schedule as `AwaitRequest` states and the result is the three-way selection on the session it ends with; a failed wait ends the read with an error exactly when it happens; a request arriving during the first wait before the deadline is the one read; a timeout is never early; the request returned is the oldest of the entry queue and the arrivals; the invariant is preserved |
| BlockingRead.HookTraceBracketed | java/src/main/java/org/whispersystems/textsecure/internal/websocket/WebSocketConnection.java:77-85 | in the trace every sleep is followed at once by a wait and then wakeup, and every wakeup comes right after a wait that sleep preceded |
| BlockingRead.NoSenderNoHooks | java/src/main/java/org/whispersystems/textsecure/internal/websocket/WebSocketConnection.java:77-85 | without a heartbeat sender neither sleep nor wakeup is called: the trace is one bare wait per iteration |
| BlockingRead.TakeRequestsInOrder | java/src/main/java/org/whispersystems/textsecure/internal/websocket/WebSocketConnection.java:90 | successive reads return the queue from its front, none skipped or repeated |
| BlockingRead.ArrivalsAreReadInOrder | java/src/main/java/org/whispersystems/textsecure/internal/websocket/WebSocketConnection.java:119-134 | starting from an empty queue, as many reads as arrivals return exactly the arrivals in arrival order |
| TextSecureDataMessage.Create | java/src/main/java/org/whispersystems/textsecure/api/messages/TextSecureDataMessage.java:81-92 | attachments are absent exactly when the list is null or empty and otherwise the list unchanged; body and group are present exactly when given |
| TextSecureDataMessage.CreateGroup | java/src/main/java/org/whispersystems/textsecure/api/messages/TextSecureDataMessage.java:68-70 | delegates with endSession false |
| TextSecureDataMessage.CreateWithAttachments | java/src/main/java/org/whispersystems/textsecure/api/messages/TextSecureDataMessage.java:56-58 | delegates with no group and endSession false |
| TextSecureDataMessage.CreateWithAttachment | java/src/main/java/org/whispersystems/textsecure/api/messages/TextSecureDataMessage.java:45-47 | attachments present with exactly the one attachment |
| TextSecureDataMessage.CreateText | java/src/main/java/org/whispersystems/textsecure/api/messages/TextSecureDataMessage.java:41-43 | no attachments, no group, not end-session, the given body |
| TextSecureDataMessage.IsGroupUpdate | java/src/main/java/org/whispersystems/textsecure/api/messages/TextSecureDataMessage.java:130-132 | a group update is a message with a group of type UNKNOWN, UPDATE or QUIT |
| TextSecureDataMessage.GroupUpdateOfCreate | java/src/main/java/org/whispersystems/textsecure/api/messages/TextSecureDataMessage.java:130-132 | a message is a group update exactly when its group is present and not of type DELIVER |
| TextSecureDataMessage.GrouplessIsNotGroupUpdate | java/src/main/java/org/whispersystems/textsecure/api/messages/TextSecureDataMessage.java:130-132 | messages from the group-less constructors are never group updates |
| TextSecureDataMessage.RunAttachments | java/src/main/java/org/whispersystems/textsecure/api/messages/TextSecureDataMessage.java:154-162 | the builder holds the attachments of every withAttachment and withAttachments call, in call order |
| TextSecureDataMessage.RunEndSession | java/src/main/java/org/whispersystems/textsecure/api/messages/TextSecureDataMessage.java:169-177 | the last asEndSessionMessage call decides the flag (no argument means true) |
| TextSecureDataMessage.NewBuilder | java/src/main/java/org/whispersystems/textsecure/api/messages/TextSecureDataMessage.java:136-142 | a fresh builder has no attachments, timestamp 0, no group, no body and no end-session flag |
| TextSecureDataMessage.WithTimestamp | java/src/main/java/org/whispersystems/textsecure/api/messages/TextSecureDataMessage.java:144-147 | sets the timestamp and changes nothing else |
| TextSecureDataMessage.AsGroupMessage | java/src/main/java/org/whispersystems/textsecure/api/messages/TextSecureDataMessage.java:149-152 | sets the group and changes nothing else |
| TextSecureDataMessage.WithAttachment | java/src/main/java/org/whispersystems/textsecure/api/messages/TextSecureDataMessage.java:154-157 | appends the one attachment after the existing ones and changes nothing else |
| TextSecureDataMessage.WithAttachments | java/src/main/java/org/whispersystems/textsecure/api/messages/TextSecureDataMessage.java:159-162 | appends the list after the existing attachments and changes nothing else |
| TextSecureDataMessage.WithBody | java/src/main/java/org/whispersystems/textsecure/api/messages/TextSecureDataMessage.java:164-167 | sets the body and changes nothing else |
| TextSecureDataMessage.AsEndSessionMessage | java/src/main/java/org/whispersystems/textsecure/api/messages/TextSecureDataMessage.java:169-172 | sets the end-session flag and changes nothing else |
| TextSecureDataMessage.AsEndSessionMessageWith | java/src/main/java/org/whispersystems/textsecure/api/messages/TextSecureDataMessage.java:174-177 | sets the end-session flag to the argument and changes nothing else |
| TextSecureDataMessage.CallsOnDifferentFieldsCommute | java/src/main/java/org/whispersystems/textsecure/api/messages/TextSecureDataMessage.java:144-177 | builder calls that write different fields give the same builder in either order |
| TextSecureDataMessage.LaterCallOverrides | java/src/main/java/org/whispersystems/textsecure/api/messages/TextSecureDataMessage.java:144-177 | of two calls on the same field other than the attachments, the later one wins |
| TextSecureDataMessage.Build | java/src/main/java/org/whispersystems/textsecure/api/messages/TextSecureDataMessage.java:179-182 | a nonzero timestamp is kept and a zero one becomes the clock, also in the builder; the message is the full constructor applied to the builder's fields |
| TextSecureDataMessage.BuildWithoutAttachments | java/src/main/java/org/whispersystems/textsecure/api/messages/TextSecureDataMessage.java:136 | building from a fresh builder with no attachment added gives absent attachments |
| TextSecureDataMessage.BuildFromCalls | java/src/main/java/org/whispersystems/textsecure/api/messages/TextSecureDataMessage.java:134-182 | the message built from a fresh builder after any chain of calls holds the added attachments in call order (absent if none) and the flag of the last end-session call |
| TextSecureDataMessage.BuildAgainKeepsTimestamp | java/src/main/java/org/whispersystems/textsecure/api/messages/TextSecureDataMessage.java:180 | once a clock value is taken it sticks to the builder, so a second build gives the same message |

## Left out

- The transport client (`OkHttpClientWrapper`) is not part of this model. Its `connect`, `disconnect` and `sendMessage` calls are entries in the `wire` log. Their failures (`IOException`) are not modelled.
- Java monitor semantics (`synchronized`, `Util.wait`, `notifyAll`) and thread interleavings are left out. Each public method is one atomic transition. A wait is a round of other parties' events plus elapsed time; `notifyAll` is recorded only as `NotifiesWaiters`.
- `Util` is not part of this model. A failing wait is modelled as the error `WaitInterrupted`, which propagates out of `readRequest` after `wakeup` fires.
- The heartbeat thread's `run` loop, `Thread.sleep` and its `AtomicBoolean` stop flag are left out. The thread is never started, so `shutdown` has no visible effect.
- `System.currentTimeMillis` is an input: the elapsed milliseconds of each wait round, the heartbeat's clock value, and the clock passed to `Build`.
- Protobuf byte-level serialisation is left out. Decoding is a caller-supplied partial function on bytes; `None` stands for `InvalidProtocolBufferException`. Type numbers other than REQUEST and RESPONSE are folded into `Unknown`.
- Logging, `TrustStore`, `CredentialsProvider`, and the `%s` substitution of credentials into the URI are left out.
- `TextSecureAttachment` and `TextSecureGroup` are not part of this model. Attachments are opaque handles. A group is an id plus a type from {UNKNOWN, UPDATE, DELIVER, QUIT}, of which only DELIVER is inspected.
- Java `long` is modelled as an unbounded integer. The only arithmetic on it is the elapsed-time bookkeeping, which cannot overflow for realistic clocks.
- The builder hands its own `LinkedList` to the message it builds, so later builder calls would change that message's list. Aliasing of mutable lists is not modelled; the message holds a value copy.
- Null attachments are not modelled: `Attachment` has no null value. In Java, the single-attachment constructor and `withAttachment` accept a null attachment and give a present list holding it; `withAttachments(null)` throws `NullPointerException`.
- BlockingRead.ReadRequest: does not bound how late a timeout is reported. How long each scheduled wait lasts is an input; only a quiet wait after the schedule ends lasts exactly the remaining `max(1, remaining)` milliseconds.
- Competing readers are left out: the model has one consumer. In Java a second thread's `readRequest` could take the queue's head while the first one waits; that is not an `Event`, so `WebSocketConnection.ApplyQueue` ("only an arrival changes the queue") and `BlockingRead.ReadRequest` ("the oldest of the entry queue and the arrivals") hold for a single reader only.
- BlockingRead.WaitOnce: the callback's `sleep` and `wakeup` are assumed to return normally, and `BlockingRead.HookTraceBracketed` relies on it. In Java an exception from `sleep` (called outside the `try`) skips the wait and the `wakeup`; an exception from `wakeup` (in the `finally`) replaces the wait's own error.
- BlockingRead.AwaitRequest: the schedule of waits is finite. After it is used up the environment is assumed quiet, so unbounded spurious wakeups are not modelled.
