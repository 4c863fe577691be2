# Last-price service, modelled in Dafny

The last-price service keeps the latest price of each known instrument. A
client talks to it over an Aeron-style RPC runtime. It opens a connection
through a handshake: a CREATE_CONNECTION command goes to the server, and the
server sends back an acknowledgement carrying the new connection id. The
client then makes calls that are correlated by id. Over those calls a
producer can:

- start a batch run;
- upload chunks of price records into it;
- complete the batch, which merges its records into the market state;
- cancel it instead.

A consumer asks for the last price of one instrument.

This project models the core of that system and proves properties of the
model:

- **Wire codec.** The flyweights that read and write messages in byte
  buffers, in little-endian order, with Java's `int` and `long`
  two's-complement encodings written out. This covers the message header,
  the handshake messages, and the service's requests and responses. It
  also covers the price record, the price-records chunk and the upload
  request.
- **RPC runtime.**
  - The fixed-size pool of service clients.
  - The server publication, with its offer-retry loop.
  - The service client's call loop: it polls the inbound ring for the
    response that carries its correlation id, before a deadline.
  - The handshake client.
  - The gateway, which connects, registers clients, routes inbound
    fragments by client id, and closes.
  - The server: it dispatches to the handler, files new connections, drops
    messages from unknown connections, and evicts a connection whose send
    fails.
- **Last-price cache.**
  - The blocks of indexed price records: the market state and the batch
    runs, with the newer-or-equal update rule.
  - A batch run's merge into another block.
  - The batch-run repository: a free-index queue, an id map and a clean-up
    queue ordered by last update, with eviction of outdated runs.
  - The instrument indexer: a sorted array with binary search.
  - The request handler.
  - The last-price client, which maps response statuses to return values.

Code that updates state in place keeps that form. Flyweights, blocks, the
repository, the pool, the publications, the clients, the gateway, the
server and the handler are classes over `array<byte>` buffers, with
`modifies` frames. Each method's contract ties its new state to a
specification function of its old state. Lemmas then prove what the
system promises about those functions:

- encode/decode round trips;
- "nothing else changes";
- the repository's bookkeeping invariant;
- merge completeness;
- the meaning of the indexer's result;
- the handshake and the call protocol agreeing end to end;
- a price uploaded in a batch and completed being the price the last-price
  request then answers.

Where the source itself is wrong, the model keeps a member that does what
the code does as written, with a lemma that shows the defect. Beside it
is the corrected member, which the rest of the model uses. See
"## Findings".

Where the repository's description and its code disagree, the model
follows the code:

- `BatchRunRepositoryImpl.create` throws IndexOutOfBoundsException when no
  index is free, while its test expects IllegalStateException.
- The Aeron NOT_CONNECTED result counts as a retry in the client
  publication, and as a failure in the server's connection publication.

## Model

| member | source | states |
|---|---|---|
| Flyweight.Flyweight.constructor | core/common/src/main/java/com/xxx/core/protocol/Flyweight.java:13-17 | a new view is bound to no buffer, at offset 0 |
| Flyweight.Flyweight.WrapForWrite | core/common/src/main/java/com/xxx/core/protocol/Flyweight.java:27-31 | the view reads and writes the given buffer at the given offset |
| Flyweight.Flyweight.WrapForRead | core/common/src/main/java/com/xxx/core/protocol/Flyweight.java:33-37 | the view reads the given buffer at the offset and can no longer write |
| Flyweight.Flyweight.GetReadBuffer | core/common/src/main/java/com/xxx/core/protocol/Flyweight.java:39-41 | returns the buffer the view reads |
| Flyweight.Flyweight.GetOffset | core/common/src/main/java/com/xxx/core/protocol/Flyweight.java:43-45 | returns the view's offset |
| Flyweight.AllocateMemoryForFlyweight | core/common/src/main/java/com/xxx/core/protocol/Flyweight.java:19-25 | the view is bound for writing at 0 to a fresh buffer of the requested size, all zero |
| Flyweight.WriteBytes | last-price-service/messages/src/main/java/com/xxx/service/lastprice/messages/UploadChunkRequest.java:36-38 | a byte copy at the view's offset plus `rel`: the buffer becomes the old bytes with that range replaced, and nothing else changes |
| Flyweight.WriteInt | core/common/src/main/java/com/xxx/core/protocol/Message.java:31-33 | `putInt`: the 4 little-endian two's-complement bytes of the value replace that range and nothing else |
| Flyweight.WriteLong | core/common/src/main/java/com/xxx/core/protocol/Message.java:39-41 | `putLong`: the same for the 8 bytes of a `long` |
| Bytes.DecodeEncodeInt | core/common/src/main/java/com/xxx/core/protocol/Message.java:27-33 | an `int` written by `putInt` is read back unchanged by `getInt`, negative values included |
| Bytes.DecodeEncodeLong | core/common/src/main/java/com/xxx/core/protocol/Message.java:35-41 | a `long` written by `putLong` is read back unchanged by `getLong` |
| Bytes.EncodeDecodeInt | core/common/src/main/java/com/xxx/core/protocol/Message.java:27-33 | every 4 bytes are the encoding of exactly one `int`, so `getInt` loses nothing |
| Bytes.EncodeDecodeLong | core/common/src/main/java/com/xxx/core/protocol/Message.java:35-41 | every 8 bytes are the encoding of exactly one `long` |
| Bytes.GetPutInt | core/common/src/main/java/com/xxx/core/protocol/Message.java:43-49 | in a whole buffer, an `int` put at an index is read back at that index |
| Bytes.GetPutLong | core/common/src/main/java/com/xxx/core/protocol/Message.java:51-57 | the same for a `long` |
| Bytes.GetIntElsewhere | core/common/src/main/java/com/xxx/core/protocol/Message.java:43-49 | a write that does not overlap an `int` field leaves that field's value as it was |
| Bytes.GetLongElsewhere | core/common/src/main/java/com/xxx/core/protocol/Message.java:51-57 | the same for a `long` field |
| Bytes.ZeroLong | core/common/src/main/java/com/xxx/core/protocol/Flyweight.java:19-25 | a zero-filled buffer reads 0 from every `long` field |
| Message.HeaderRoundTrip | core/common/src/main/java/com/xxx/core/protocol/Message.java:12-16 | the header's four fields, laid out at offsets 0, 4, 12 and 16 (24 bytes), read back as written |
| Message.HeaderBytes | core/common/src/main/java/com/xxx/core/protocol/Message.java:12-16 | 24 header bytes are the encoding of the header they store, so the header layout loses no byte |
| Message.PutTypeAt | core/common/src/main/java/com/xxx/core/protocol/Message.java:27-33 | writing the type changes the header's type and no other header field |
| Message.PutConnectionIdAt | core/common/src/main/java/com/xxx/core/protocol/Message.java:35-41 | writing the connection id changes only that header field |
| Message.PutClientIdAt | core/common/src/main/java/com/xxx/core/protocol/Message.java:43-49 | writing the client id changes only that header field |
| Message.PutCorrelationIdAt | core/common/src/main/java/com/xxx/core/protocol/Message.java:51-57 | writing the correlation id changes only that header field |
| Message.HeaderAfterBodyWrite | core/common/src/main/java/com/xxx/core/protocol/Message.java:12-16 | a write past the header's 24 bytes leaves the header as it was |
| Message.SetType | core/common/src/main/java/com/xxx/core/protocol/Message.java:31-33 | the type field is replaced and the header's other fields are unchanged |
| Message.SetConnectionId | core/common/src/main/java/com/xxx/core/protocol/Message.java:39-41 | the connection id's 8 bytes are replaced and no other byte (its header meaning: PutConnectionIdAt) |
| Message.SetClientId | core/common/src/main/java/com/xxx/core/protocol/Message.java:47-49 | the client id's 4 bytes are replaced and no other byte (header meaning: PutClientIdAt) |
| Message.SetCorrelationId | core/common/src/main/java/com/xxx/core/protocol/Message.java:55-57 | the correlation id's 8 bytes are replaced and no other byte (header meaning: PutCorrelationIdAt) |
| Message.SetIntField | core/common/src/main/java/com/xxx/core/protocol/CreateConnectionCommand.java:18-20 | a body `int` field reads back and the header is untouched |
| Message.SetLongField | last-price-service/messages/src/main/java/com/xxx/service/lastprice/messages/UploadChunkRequest.java:32-34 | a body `long` field reads back and the header is untouched |
| Message.Init | core/common/src/main/java/com/xxx/core/protocol/Message.java:18-21 | bound for writing at the offset, with the message's own type stamped and only those 4 bytes changed |
| Message.AllocateMemoryForMessage | core/common/src/main/java/com/xxx/core/protocol/Message.java:23-25 | a fresh buffer of the message's size whose header is (own type, 0, 0, 0) and whose body is all zero |
| Message.ZeroHeader | core/common/src/main/java/com/xxx/core/protocol/Message.java:23-25 | a zero-filled buffer holds the all-zero header |
| CreateConnectionCommand.StringRoundTrip | core/common/src/main/java/com/xxx/core/protocol/CreateConnectionCommand.java:22-28 | a channel written as a 4-byte length and then its bytes reads back as the same bytes |
| CreateConnectionCommand.SetClientStreamId | core/common/src/main/java/com/xxx/core/protocol/CreateConnectionCommand.java:18-20 | the stream id's 4 bytes at offset 24 are replaced and no other byte |
| CreateConnectionCommand.SetClientChannel | core/common/src/main/java/com/xxx/core/protocol/CreateConnectionCommand.java:26-28 | no cap of its own: the write succeeds exactly when the prefixed string fits the buffer, and then it reads back and only its bytes change; otherwise IndexOutOfBoundsException and nothing is written |
| CreateConnectionCommand.CappedChannelFitsMessage | core/common/src/main/java/com/xxx/core/protocol/CreateConnectionCommand.java:10-12 | a channel within the cap reads back from the MESSAGE_SIZE bytes that are sent |
| ConnectionAckResponse.AckCarriesConnectionId | core/common/src/main/java/com/xxx/core/protocol/ConnectionAckResponse.java:6-18 | an acknowledgement is nothing but a header of its own type, so stamping its connection id makes the id and the ack type read back from the 24 bytes sent |
| ConnectionControlClient.AckHeader | core/common/src/main/java/com/xxx/core/protocol/ConnectionAckResponse.java:5-13 | the acknowledgement, a bare header, carries the connection id and the correlation id it was built with |
| ConnectionControlClient.AckedHandshake | core/client/src/main/java/com/xxx/core/client/ConnectionControlClient.java:45-48 | when the acknowledgement is waiting first in the ring, `connect` returns the connection id the server assigned, whatever the clock says |
| ConnectionControlClient.UnackedHandshake | core/client/src/main/java/com/xxx/core/client/ConnectionControlClient.java:39-48 | when nothing in the ring answers the correlation id, `connect` ends in ConnectionTimeoutException |
| ConnectionControlClient.CommandBuilt | core/client/src/main/java/com/xxx/core/client/ConnectionControlClient.java:34-36 | after the channel and then the stream id are written, both read back and the header is kept |
| ConnectionControlClient.HeaderChangeKeepsBody | core/client/src/main/java/com/xxx/core/client/ConnectionControlClient.java:45-48 | stamping the header for a call leaves the command's stream id and channel as they were |
| ConnectionControlClient.CommandStamped | core/client/src/main/java/com/xxx/core/client/ConnectionControlClient.java:45-48 | the command as sent: header stamped with client id -1, the correlation id and (when routed) the connection id; channel and stream id unchanged |
| ConnectionControlClient.NewCommand | core/client/src/main/java/com/xxx/core/client/ConnectionControlClient.java:34-36 | a fresh command buffer of exactly MESSAGE_SIZE bytes whose header is (CREATE_CONNECTION, 0, 0, 0); the channel is accepted exactly when its prefixed bytes fit the MAX_CHANNEL_LENGTH bytes reserved for it, and then the channel and the stream id read back as given; otherwise IndexOutOfBoundsException |
| ConnectionControlClient.ConnectionControlClient.constructor | core/client/src/main/java/com/xxx/core/client/ConnectionControlClient.java:23-37 | construction completes exactly when the channel fits the command, and otherwise throws IndexOutOfBoundsException; a completed one is a service client with the reserved id -1, the acknowledgement view over its response buffer, and the command holding the channel and stream id |
| ConnectionControlClient.ConnectionControlClient.Connect | core/client/src/main/java/com/xxx/core/client/ConnectionControlClient.java:45-48 | the command goes out with its header stamped; with no publication NullPointerException, with a closed one IllegalStateException; a sent command is logged once and the result is the connection id of the acknowledgement, or the call's timeout |
| InboundRing.Footprint | core/client/src/main/java/com/xxx/core/client/AbstractServiceClient.java:92-94 | the room a record takes in the inbound ring: its length plus the record header, rounded up to the alignment |
| InboundRing.UsedAppend | core/client/src/main/java/com/xxx/core/client/AbstractServiceClient.java:92-94 | queuing a record uses exactly its footprint more of the ring |
| InboundRing.RingBuffer.constructor | core/client/src/main/java/com/xxx/core/client/AbstractServiceGateway.java:89-91 | an empty ring of the given capacity |
| InboundRing.RingBuffer.Write | core/client/src/main/java/com/xxx/core/client/AbstractServiceClient.java:92-94 | `write` queues the record at the back exactly when its footprint fits the free room, and otherwise changes nothing and reports false |
| InboundRing.RingBuffer.Read | core/client/src/main/java/com/xxx/core/client/AbstractServiceClient.java:158 | `read(handler, 1)` takes the oldest record off the front, or nothing when the ring is empty |
| ServiceClient.Delivered | core/client/src/main/java/com/xxx/core/client/AbstractServiceClient.java:171-175 | `onMessage`'s copy: fails with IndexOutOfBoundsException exactly when the record is longer than the buffer; otherwise the record's bytes start the buffer and the rest is kept |
| ServiceClient.ReadRound | core/client/src/main/java/com/xxx/core/client/AbstractServiceClient.java:158-161 | one poll round: a matched round leaves the awaited correlation id in the buffer's header |
| ServiceClient.ExpiresLater | core/client/src/main/java/com/xxx/core/client/AbstractServiceClient.java:162-166 | a reading before the deadline leaves the expiry to the later readings, so the poll's loop terminates |
| ServiceClient.Poll | core/client/src/main/java/com/xxx/core/client/AbstractServiceClient.java:155-168 | the poll keeps the 512-byte response buffer and consumes records only from the front |
| ServiceClient.PollLeavesSuffix | core/client/src/main/java/com/xxx/core/client/AbstractServiceClient.java:155-168 | what a poll leaves in the ring is a suffix of what it found |
| ServiceClient.PollReceived | core/client/src/main/java/com/xxx/core/client/AbstractServiceClient.java:159-161 | a poll that reports RESPONSE_RECEIVED leaves in the buffer the last record it consumed, and that record carries the awaited correlation id |
| ServiceClient.PollTimedOut | core/client/src/main/java/com/xxx/core/client/AbstractServiceClient.java:162-165 | a poll that reports TIMEOUT took its last clock reading past the deadline (with wrapping `long` subtraction) and every earlier one before it |
| ServiceClient.WaitingResponseWins | core/client/src/main/java/com/xxx/core/client/AbstractServiceClient.java:157-161 | the ring is read before the clock, so a response already waiting first is taken even past the deadline |
| ServiceClient.UnansweredTimesOut | core/client/src/main/java/com/xxx/core/client/AbstractServiceClient.java:155-168 | when no queued record answers the call, the poll can only end in TIMEOUT |
| ServiceClient.AnswerIsTheResponse | core/client/src/main/java/com/xxx/core/client/AbstractServiceClient.java:74-82 | a call that returns normally returns the response to its own request: the buffer carries its correlation id |
| ServiceClient.UnansweredCallTimesOut | core/client/src/main/java/com/xxx/core/client/AbstractServiceClient.java:109-113 | a call none of whose queued records answers it ends in ConnectionTimeoutException |
| ServiceClient.StartedHeader | core/client/src/main/java/com/xxx/core/client/AbstractServiceClient.java:96-101 | `startOperation` sets exactly the client id and the correlation id of the request's header; no other byte changes |
| ServiceClient.RoutedHeader | core/client/src/main/java/com/xxx/core/client/AbstractServiceGateway.java:179-181 | a request sent through the gateway holds all three ids with its type kept; nothing past the header changes |
| ServiceClient.Registration.constructor | core/client/src/main/java/com/xxx/core/client/AbstractServiceGateway.java:55-57 | no publication is registered before the first connect |
| ServiceClient.Registration.Send | core/client/src/main/java/com/xxx/core/client/AbstractServiceGateway.java:179-181 | NullPointerException with no publication; IllegalStateException, nothing sent, with a closed one; otherwise the connection id is stamped, and the request is logged once exactly when the offers settle as accepted |
| ServiceClient.ResponsePoller.constructor | core/client/src/main/java/com/xxx/core/client/AbstractServiceClient.java:141-146 | a zero-filled 512-byte response buffer over the client's ring |
| ServiceClient.ResponsePoller.OnMessage | core/client/src/main/java/com/xxx/core/client/AbstractServiceClient.java:171-175 | the record is copied to the start of the buffer and its type and length kept, or IndexOutOfBoundsException with the buffer unchanged |
| ServiceClient.ResponsePoller.ReadRecord | core/client/src/main/java/com/xxx/core/client/AbstractServiceClient.java:158-159 | one ring read: the oldest record leaves the ring and is delivered; whether the round matched is whether the buffer now carries the awaited correlation id |
| ServiceClient.ResponsePoller.ReadCorrelationId | core/client/src/main/java/com/xxx/core/client/AbstractServiceClient.java:177-179 | the correlation id field of the buffer's header |
| ServiceClient.ResponsePoller.PollNextMessage | core/client/src/main/java/com/xxx/core/client/AbstractServiceClient.java:155-168 | the loop does what `Poll` says: status, ring, buffer and the number of clock readings taken |
| ServiceClient.ServiceClient.constructor | core/client/src/main/java/com/xxx/core/client/AbstractServiceClient.java:31-45 | a client with its id, wait timeout and a fresh poller over its ring |
| ServiceClient.ServiceClient.ReceiveMessage | core/client/src/main/java/com/xxx/core/client/AbstractServiceClient.java:92-94 | the record is offered to the ring, and a record the ring refuses is dropped without an error |
| ServiceClient.ServiceClient.StartOperation | core/client/src/main/java/com/xxx/core/client/AbstractServiceClient.java:96-101 | the request's bytes become the started request: client id and correlation id in the header, nothing else |
| ServiceClient.ServiceClient.CheckForErrors | core/client/src/main/java/com/xxx/core/client/AbstractServiceClient.java:109-113 | success exactly on RESPONSE_RECEIVED; a timeout becomes ConnectionTimeoutException |
| ServiceClient.ServiceClient.AwaitResponse | core/client/src/main/java/com/xxx/core/client/AbstractServiceClient.java:77-81 | the deadline is the first clock reading plus the wait timeout, and the result is the poll's answer |
| ServiceClient.ServiceClient.Dispatch | core/client/src/main/java/com/xxx/core/client/AbstractServiceClient.java:75-76 | `startOperation` then the gateway's send: the request is started (and routed when a publication is open) and logged once exactly when sent |
| ServiceClient.ServiceClient.MakeCall | core/client/src/main/java/com/xxx/core/client/AbstractServiceClient.java:74-82 | a failed send ends the call with its exception and leaves ring and buffer alone; a sent request is logged once and the call's result is the poll's answer: the response or ConnectionTimeoutException |
| AeronPublication.SentOutcome | core/client/src/main/java/com/xxx/core/client/ServerPublication.java:36-39 | a finished offer loop either returned with the bytes logged once and the publication open, or threw IllegalStateException with nothing logged and the publication closed |
| AeronPublication.OutcomeAt | core/client/src/main/java/com/xxx/core/client/ServerPublication.java:36-39 | the first transport answer that is not a retry decides how the send ends |
| AeronPublication.SentIsOutcome | core/server/src/main/java/com/xxx/core/server/ConnectionPublication.java:50-53 | a send returns normally exactly when the first answer that is not a retry is an acceptance |
| AeronPublication.VerdictsDifferOnlyOnNotConnected | core/server/src/main/java/com/xxx/core/server/ConnectionPublication.java:56-61 | the client's and the server's `checkResult` treat every answer alike except NOT_CONNECTED, which only the server's treats as fatal |
| ServerPublication.ServerPublication.constructor | core/client/src/main/java/com/xxx/core/client/ServerPublication.java:20-23 | the publication keeps the connection id it was given |
| ServerPublication.ServerPublication.SendRequest | core/client/src/main/java/com/xxx/core/client/ServerPublication.java:30-40 | a closed publication throws IllegalStateException before touching the message; otherwise exactly the connection id field is stamped and the stamped bytes are offered until accepted or a fatal answer throws |
| ServerPublication.ServerPublication.OfferLoop | core/client/src/main/java/com/xxx/core/client/ServerPublication.java:36-39 | the loop re-offers on every negative answer that `checkResult` lets through and stops at the first acceptance or fatal answer |
| ServerPublication.ServerPublication.CheckResult | core/client/src/main/java/com/xxx/core/client/ServerPublication.java:42-47 | CLOSED and MAX_POSITION_EXCEEDED close the publication and throw IllegalStateException; any other answer passes |
| ServerPublication.ServerPublication.Close | core/client/src/main/java/com/xxx/core/client/ServerPublication.java:50-52 | closing closes the transport publication and sends nothing |
| ConnectionPublication.Stamped | core/server/src/main/java/com/xxx/core/server/ConnectionPublication.java:47-49 | stamping the three ids keeps the buffer's length |
| ConnectionPublication.StampedHeader | core/server/src/main/java/com/xxx/core/server/ConnectionPublication.java:47-49 | after stamping, the header reads back the three ids and the original type; no byte outside the three id fields changes |
| ConnectionPublication.StampIds | core/server/src/main/java/com/xxx/core/server/ConnectionPublication.java:47-49 | the message's header becomes its old header with the three ids replaced |
| ConnectionPublication.ConnectionPublication.constructor | core/server/src/main/java/com/xxx/core/server/ConnectionPublication.java:22-25 | the publication keeps the connection id it was given |
| ConnectionPublication.ConnectionPublication.GetConnectionId | core/server/src/main/java/com/xxx/core/server/ConnectionPublication.java:31-33 | the id assigned at creation |
| ConnectionPublication.ConnectionPublication.SendResponse | core/server/src/main/java/com/xxx/core/server/ConnectionPublication.java:42-54 | a closed publication throws IllegalStateException before touching the message; otherwise the connection, client and correlation ids are stamped and the bytes are offered until accepted or a fatal answer throws |
| ConnectionPublication.ConnectionPublication.OfferLoop | core/server/src/main/java/com/xxx/core/server/ConnectionPublication.java:50-53 | the loop re-offers on every negative answer that `checkResult` lets through and stops at the first acceptance or fatal answer |
| ConnectionPublication.ConnectionPublication.CheckResult | core/server/src/main/java/com/xxx/core/server/ConnectionPublication.java:56-61 | CLOSED, MAX_POSITION_EXCEEDED and NOT_CONNECTED close the publication and throw IllegalStateException; any other answer passes |
| ConnectionPublication.ConnectionPublication.Close | core/server/src/main/java/com/xxx/core/server/ConnectionPublication.java:64-66 | closing closes the transport publication and sends nothing |
| FixSizeObjectPool.FixSizeObjectPool.constructor | core/client/src/main/java/com/xxx/core/client/pool/FixSizeObjectPool.java:17-25 | instance i is the factory's instance for i, and every id from 0 to size-1 is queued free in order, once |
| FixSizeObjectPool.FixSizeObjectPool.CheckIdBounds | core/client/src/main/java/com/xxx/core/client/pool/FixSizeObjectPool.java:51-55 | passes exactly for ids in [0, size); any other id throws IllegalArgumentException |
| FixSizeObjectPool.FixSizeObjectPool.GetInstance | core/client/src/main/java/com/xxx/core/client/pool/FixSizeObjectPool.java:29-32 | the instance created for the id, or IllegalArgumentException outside [0, size) |
| FixSizeObjectPool.FixSizeObjectPool.AcquireInstance | core/client/src/main/java/com/xxx/core/client/pool/FixSizeObjectPool.java:36-42 | null when no id is free; otherwise the oldest free id leaves the queue and its instance is returned, and it is no longer free |
| FixSizeObjectPool.FixSizeObjectPool.FreeInstanceAsWritten | core/client/src/main/java/com/xxx/core/client/pool/FixSizeObjectPool.java:45-49 | the release as written only checks the id: IllegalArgumentException outside [0, size), and nothing is re-queued |
| FixSizeObjectPool.FixSizeObjectPool.FreeInstance | core/client/src/main/java/com/xxx/core/client/pool/FixSizeObjectPool.java:45-49 | the corrected release: a valid id rejoins the end of the free queue, keeping every id free at most once; an invalid one throws IllegalArgumentException |
| FixSizeObjectPool.AcquireAll | core/client/src/main/java/com/xxx/core/client/pool/FixSizeObjectPool.java:36-42 | a pool of n hands out its n instances in id order and then null |
| FixSizeObjectPool.ReuseAfterFree | core/client/src/main/java/com/xxx/core/client/pool/FixSizeObjectPool.java:45-49 | with the corrected release, a freed instance is the next one acquired |
| FixSizeObjectPool.ReuseAfterFreeAsWritten | core/client/src/main/java/com/xxx/core/client/pool/FixSizeObjectPool.java:45-49 | with the release as written, a one-instance pool stays exhausted after its instance is freed |
| ServiceGateway.ReadCycleTask.constructor | core/client/src/main/java/com/xxx/core/client/AbstractServiceGateway.java:225-228 | a reader over the given subscription, not yet running |
| ServiceGateway.ReadCycleTask.Run | core/client/src/main/java/com/xxx/core/client/AbstractServiceGateway.java:231-236 | once started, the reader reports itself running |
| ServiceGateway.ReadCycleTask.IsRunning | core/client/src/main/java/com/xxx/core/client/AbstractServiceGateway.java:250-252 | the reader's running flag |
| ServiceGateway.ReadCycleTask.Stop | core/client/src/main/java/com/xxx/core/client/AbstractServiceGateway.java:254-257 | the reader stops running and its subscription is closed |
| ServiceGateway.ServiceGateway.constructor | core/client/src/main/java/com/xxx/core/client/AbstractServiceGateway.java:62-95 | a channel too long for the handshake command throws IndexOutOfBoundsException from the handshake client's construction; otherwise the handshake client carries the given client channel and stream id, its pool's client i has id i and sends through the gateway's registration, and nothing is connected yet |
| ServiceGateway.ServiceGateway.OnFragment | core/client/src/main/java/com/xxx/core/client/AbstractServiceGateway.java:242-248 | the fragment is queued on the inbound ring of the client its header's client id names (the handshake client for -1) when it fits, and dropped when it does not; an id outside the pool throws IllegalArgumentException and nothing is written |
| ServiceGateway.ServiceGateway.GetClient | core/client/src/main/java/com/xxx/core/client/AbstractServiceGateway.java:142-149 | the pool's acquire under the lock: the oldest free client, or null when all are handed out; the lock is released afterwards |
| ServiceGateway.ServiceGateway.CloseClient | core/client/src/main/java/com/xxx/core/client/AbstractServiceGateway.java:184-191 | corrected release of the client's id under the lock (the as-written `freeInstance` never re-queues, see "## Findings"): the id rejoins the free queue, or IllegalArgumentException for an id outside the pool |
| ServiceGateway.ServiceGateway.Connect | core/client/src/main/java/com/xxx/core/client/AbstractServiceGateway.java:111-135 | the previous reader is stopped and the previous publication closed; a new publication and subscription are opened and a new reader started; connect succeeds exactly when the handshake's command was accepted and the server answered with a connection id, which is then registered; otherwise what was opened is closed and ConnectionException is thrown; the lock is released either way |
| ServiceGateway.ServiceGateway.Open | core/client/src/main/java/com/xxx/core/client/AbstractServiceGateway.java:117-131 | the steps of `connect` after closing: a failure to open the publication or the subscription ends in ConnectionException with what was opened closed and the registration untouched |
| ServiceGateway.ServiceGateway.StartReader | core/client/src/main/java/com/xxx/core/client/AbstractServiceGateway.java:119-120 | a fresh reader over the new subscription is created and running |
| ServiceGateway.ServiceGateway.Register | core/client/src/main/java/com/xxx/core/client/AbstractServiceGateway.java:121-131 | a placeholder with connection id 0 is registered, the handshake command goes out through it once, and the server's connection id replaces it; a failed handshake leaves the placeholder and closes the new publication and subscription |
| ServiceGateway.ServiceGateway.Close | core/client/src/main/java/com/xxx/core/client/AbstractServiceGateway.java:152-159 | a running reader is stopped and its subscription closed, and the registered publication is closed without sending anything |
| Server.SentAck | core/server/src/main/java/com/xxx/core/server/Server.java:102-106 | the acknowledgement is exactly a message header's worth of bytes |
| Server.SentAckHeader | core/server/src/main/java/com/xxx/core/server/Server.java:102-106 | the acknowledgement reads back as an ack carrying the new connection id and the handshake's client and correlation ids |
| Server.AckCompletesHandshake | core/server/src/main/java/com/xxx/core/server/Server.java:96-113 | the two ends of the handshake agree: once the server's ack heads the handshake client's queue, that client's connect returns the connection id the server assigned |
| Server.Server.constructor | core/server/src/main/java/com/xxx/core/server/Server.java:46-55 | a running server with no connections and a freshly allocated acknowledgement message |
| Server.Server.OnMessage | core/server/src/main/java/com/xxx/core/server/Server.java:67-94 | CREATE_CONNECTION fragments go to `onConnect` and change no existing connection; any other fragment on an unknown connection is ignored; on a known one the handler's response is sent with the request's three ids, and a failing handler or send closes and forgets only that connection |
| Server.Server.OnConnect | core/server/src/main/java/com/xxx/core/server/Server.java:96-113 | an unreadable channel throws what reading it throws (NegativeArraySizeException for a negative length; on a fragment too short for the command the model chooses IndexOutOfBoundsException, where the source reads on into Aeron's buffer) and changes nothing; a publication that does not connect in time changes nothing; otherwise the new connection carries the ack for the handshake's client and call and is filed exactly when the ack was accepted, else closed |
| Server.Server.Accept | core/server/src/main/java/com/xxx/core/server/Server.java:101-111 | the ack is sent on the new connection; accepted, the connection is filed under its id and stays open; refused, it is closed and not filed |
| Server.Server.File | core/server/src/main/java/com/xxx/core/server/Server.java:107 | the connection is filed under its id; no other entry changes |
| Server.Server.Acknowledge | core/server/src/main/java/com/xxx/core/server/Server.java:102-106 | the new connection's publication carries exactly the ack, once, when the offers accept it, and nothing otherwise |
| Server.Server.CreateConnection | core/server/src/main/java/com/xxx/core/server/Server.java:115-135 | a connection with the given id over a fresh, empty, open publication when the publication connects in time, and nothing (the publication closed) otherwise |
| Server.Server.OnRequest | core/server/src/main/java/com/xxx/core/server/Server.java:72-93 | a request on an unknown connection changes nothing; on a known connection the response goes out stamped with the request's ids, or the connection is closed and forgotten; no other publication changes |
| Server.Server.Reply | core/server/src/main/java/com/xxx/core/server/Server.java:84 | the handler's response is sent on the request's connection: stamped with the connection id and the request's client and correlation ids, and logged once exactly when that publication was open and the offers accept it |
| Server.Server.Forget | core/server/src/main/java/com/xxx/core/server/Server.java:89-90 | the connection's publication is closed with nothing sent, and its id is removed from the map |
| Server.Server.Close | core/server/src/main/java/com/xxx/core/server/Server.java:138-143 | the server stops running and every known connection's publication is closed with nothing more sent |
| LastPriceServiceClient.CopiedResponse | core/client/src/main/java/com/xxx/core/client/AbstractServiceClient.java:171-175 | the response's bytes read back from the start of the response buffer after the copy |
| LastPriceServiceClient.AnsweredWith | last-price-service/client/src/main/java/com/xxx/service/lastprice/LastPriceServiceClient.java:64-125 | a call whose response heads the client's queue ends with that response at the start of the response buffer |
| LastPriceServiceClient.LastPriceAnswered | last-price-service/client/src/main/java/com/xxx/service/lastprice/LastPriceServiceClient.java:64-72 | answered by a response, `requestLastPrice` gives that response's record when its status is SUCCESS and null otherwise |
| LastPriceServiceClient.StartAnswered | last-price-service/client/src/main/java/com/xxx/service/lastprice/LastPriceServiceClient.java:80-83 | answered by a response, `startBatchRun` gives that response's batch id whatever its status |
| LastPriceServiceClient.StatusAnswered | last-price-service/client/src/main/java/com/xxx/service/lastprice/LastPriceServiceClient.java:93-125 | answered by a response, an upload, a cancel or a completion succeeds exactly when that response's status is SUCCESS |
| LastPriceServiceClient.ChunkBytes | last-price-service/messages/src/main/java/com/xxx/service/lastprice/messages/UploadChunkRequest.java:36-38 | the bytes an upload copies: `defineSize` of the chunk's count, starting with that count, and after a request header they fit the largest upload |
| LastPriceServiceClient.HeaderChangeKeepsTicker | last-price-service/messages/src/main/java/com/xxx/service/lastprice/messages/LastPriceRequest.java:27-30 | stamping a request's header leaves the ticker stored after it readable and unchanged |
| LastPriceServiceClient.LastPriceServiceClient.constructor | last-price-service/client/src/main/java/com/xxx/service/lastprice/LastPriceServiceClient.java:44-55 | the client's five request buffers are freshly allocated, each holding a zeroed request of its own type (the upload's sized to `maxSize`), and the response views read the poller's buffer |
| LastPriceServiceClient.LastPriceServiceClient.RequestLastPrice | last-price-service/client/src/main/java/com/xxx/service/lastprice/LastPriceServiceClient.java:64-72 | a ticker over the cap throws IllegalArgumentException before anything is sent; otherwise the request holding the ticker goes out once, stamped with the call's ids, and the result is the response's record on SUCCESS, null on any other status, or the call's exception |
| LastPriceServiceClient.LastPriceServiceClient.SendLastPrice | last-price-service/client/src/main/java/com/xxx/service/lastprice/LastPriceServiceClient.java:65-66 | the ticker is written, or IllegalArgumentException with nothing sent; then the call is made |
| LastPriceServiceClient.LastPriceServiceClient.Call | core/client/src/main/java/com/xxx/core/client/AbstractServiceClient.java:74-82 | `makeCall` on one of the client's request buffers: only the header changes; NullPointerException before connect, IllegalStateException on a closed publication, and otherwise the call's result over the request's `sizeInBytes` bytes |
| LastPriceServiceClient.LastPriceServiceClient.StartBatchRun | last-price-service/client/src/main/java/com/xxx/service/lastprice/LastPriceServiceClient.java:80-83 | the start request goes out once with the call's ids, and the result is the response's batch id field or the call's exception |
| LastPriceServiceClient.LastPriceServiceClient.CancelBatchRun | last-price-service/client/src/main/java/com/xxx/service/lastprice/LastPriceServiceClient.java:107-111 | the batch id is written and the request sent once; the result is whether the response's status is SUCCESS, or the call's exception |
| LastPriceServiceClient.LastPriceServiceClient.CompleteBatchRun | last-price-service/client/src/main/java/com/xxx/service/lastprice/LastPriceServiceClient.java:121-125 | the batch id is written and the request sent once; the result is whether the response's status is SUCCESS, or the call's exception |
| LastPriceServiceClient.LastPriceServiceClient.SendBatchId | last-price-service/client/src/main/java/com/xxx/service/lastprice/LastPriceServiceClient.java:108-109 | the batch id reads back from the request and the header carries the call's ids when it is sent |
| LastPriceServiceClient.LastPriceServiceClient.UploadChunk | last-price-service/client/src/main/java/com/xxx/service/lastprice/LastPriceServiceClient.java:93-98 | a chunk whose records overrun its buffer throws IndexOutOfBoundsException and nothing is sent; otherwise the header, batch id and whole chunk go out once and the result is whether the response's status is SUCCESS, or the call's exception |
| LastPriceServiceClient.LastPriceServiceClient.SendChunk | last-price-service/client/src/main/java/com/xxx/service/lastprice/LastPriceServiceClient.java:94-96 | the batch id and the chunk are written and the call made over the header plus the chunk's bytes |
| LastPriceServiceClient.LastPriceServiceClient.ReadStartedBatch | last-price-service/messages/src/main/java/com/xxx/service/lastprice/messages/StartBatchRunResponse.java:27-29 | the batch id field of the response buffer |
| LastPriceServiceClient.LastPriceServiceClient.ReadSucceeded | last-price-service/messages/src/main/java/com/xxx/service/lastprice/messages/UploadChunkResponse.java:19-21 | whether the response buffer's status field equals the given success status |
| LastPriceServiceClient.LastPriceServiceClient.ReadLastPrice | last-price-service/messages/src/main/java/com/xxx/service/lastprice/messages/LastPriceResponse.java:20-32 | on SUCCESS a record view reading the response buffer at the record's offset, whose record is the response's record; nothing otherwise |
| LastPriceServiceClient.WriteInstrument | last-price-service/messages/src/main/java/com/xxx/service/lastprice/messages/LastPriceRequest.java:32-46 | a ticker over INSTRUMENT_MAX_TICKER_LENGTH throws IllegalArgumentException and changes nothing; otherwise it reads back (exactly, for ASCII) with the header unchanged |
| LastPriceServiceClient.WriteBatchId | last-price-service/messages/src/main/java/com/xxx/service/lastprice/messages/CancelBatchRunRequest.java:18-20 | the batch id reads back and the header is unchanged |
| LastPriceServiceClient.WriteChunk | last-price-service/client/src/main/java/com/xxx/service/lastprice/LastPriceServiceClient.java:94-95 | the upload's batch id reads back; the chunk's count and records follow the header exactly when they lie inside the chunk's buffer, and IndexOutOfBoundsException otherwise |
| LastPriceServiceClient.ChunkPlaced | last-price-service/messages/src/main/java/com/xxx/service/lastprice/messages/UploadChunkRequest.java:36-44 | a chunk written after the upload header leaves the header and batch id alone, and the size computed from its count covers exactly the header and the chunk |
| LastPriceServiceClient.ChunkCountBytes | last-price-service/messages/src/main/java/com/xxx/service/lastprice/messages/PriceRecordsChunk.java:21-23 | the count at the head of a chunk's bytes is the chunk's record count |
| LastPriceServiceClient.WriteUploadBatchId | last-price-service/messages/src/main/java/com/xxx/service/lastprice/messages/UploadChunkRequest.java:32-34 | the batch id reads back and the header is unchanged |
| LastPriceServiceClient.PutChunkBytes | last-price-service/messages/src/main/java/com/xxx/service/lastprice/messages/UploadChunkRequest.java:36-38 | the chunk's bytes follow the upload header exactly when they lie inside the chunk's buffer; otherwise IndexOutOfBoundsException and nothing changes |
| LastPriceServiceClient.RequestSize | last-price-service/messages/src/main/java/com/xxx/service/lastprice/messages/UploadChunkRequest.java:41-44 | corrected `sizeInBytes` of the upload (see "## Findings"): the request header plus `defineSize` of the stored count, which includes the chunk's 4-byte record count |
| LastPriceServiceClient.NewRequest | core/common/src/main/java/com/xxx/core/protocol/Message.java:23-25 | a fresh zeroed buffer of the message's size with a request of the given type at its start |
| LastPriceServiceClient.BindRequest | core/common/src/main/java/com/xxx/core/protocol/Flyweight.java:27-31 | a fresh view bound for writing at the start of the buffer |
| LastPriceServiceClient.BindView | core/client/src/main/java/com/xxx/core/client/AbstractServiceClient.java:57-59 | a fresh view bound for reading at the start of the response buffer |
| StartBatchRunResponse.SetStatus | last-price-service/messages/src/main/java/com/xxx/service/lastprice/messages/StartBatchRunResponse.java:23-25 | the status reads back; the batch id and the header are unchanged, and no other byte changes |
| StartBatchRunResponse.SetBatchId | last-price-service/messages/src/main/java/com/xxx/service/lastprice/messages/StartBatchRunResponse.java:31-33 | the batch id reads back; the status and the header are unchanged, and no other byte changes |
| StatusResponse.SetStatus | last-price-service/messages/src/main/java/com/xxx/service/lastprice/messages/UploadChunkResponse.java:23-25 | the status of an upload, cancel or completion response reads back; the header and the bytes after the status are unchanged |
| BatchIdRequest.SetBatchId | last-price-service/messages/src/main/java/com/xxx/service/lastprice/messages/CancelBatchRunRequest.java:18-20 | the batch id of a cancel or completion request reads back and the header is unchanged |
| LastPriceRequest.SetInstrument | last-price-service/messages/src/main/java/com/xxx/service/lastprice/messages/LastPriceRequest.java:32-46 | a ticker over INSTRUMENT_MAX_TICKER_LENGTH throws IllegalArgumentException and changes nothing; otherwise its length and bytes are stored and read back (exactly, for an ASCII ticker) with the header unchanged |
| LastPriceResponse.SetStatus | last-price-service/messages/src/main/java/com/xxx/service/lastprice/messages/LastPriceResponse.java:34-36 | the status reads back; the header and the nested price record are unchanged |
| LastPriceResponse.PriceRecordView | last-price-service/messages/src/main/java/com/xxx/service/lastprice/messages/LastPriceResponse.java:20-23 | the shared record view reads the response's buffer at the record's offset |
| LastPriceResponse.PriceRecordForWrite | last-price-service/messages/src/main/java/com/xxx/service/lastprice/messages/LastPriceResponse.java:25-28 | the same view bound for writing at the same place, with room for a whole record |
| UploadChunkRequest.MaxSize | last-price-service/messages/src/main/java/com/xxx/service/lastprice/messages/UploadChunkRequest.java:46-48 | the largest upload is the request header plus a full chunk: `defineSize(MAX_CHUNK_SIZE)` |
| UploadChunkRequest.SizeAsWrittenCutsLastRecord | last-price-service/messages/src/main/java/com/xxx/service/lastprice/messages/UploadChunkRequest.java:41-44 | `sizeInBytes` as written is the true size minus the chunk's 4-byte count: the last record's final bytes are never sent, and an empty chunk's count is cut too |
| UploadChunkRequest.SizeCoversChunk | last-price-service/messages/src/main/java/com/xxx/service/lastprice/messages/UploadChunkRequest.java:41-48 | the corrected size covers every record and never exceeds `maxSize`, which a full chunk reaches |
| UploadChunkRequest.SetBatchId | last-price-service/messages/src/main/java/com/xxx/service/lastprice/messages/UploadChunkRequest.java:32-34 | the batch id reads back; the header and the chunk's count are unchanged |
| UploadChunkRequest.GetChunkToRead | last-price-service/messages/src/main/java/com/xxx/service/lastprice/messages/UploadChunkRequest.java:18-21 | the chunk view reads the request's buffer right after the request header, and its count is the request's count |
| UploadChunkRequest.GetChunk | last-price-service/messages/src/main/java/com/xxx/service/lastprice/messages/UploadChunkRequest.java:23-26 | the chunk view writes right after the request header and has room for a full chunk |
| UploadChunkRequest.PutChunk | last-price-service/messages/src/main/java/com/xxx/service/lastprice/messages/UploadChunkRequest.java:36-38 | the chunk's `sizeInBytes` bytes are copied after the request header and read back, when they lie inside the chunk's buffer; otherwise IndexOutOfBoundsException and nothing changes |
| UploadChunkRequest.CopiedChunkReads | last-price-service/messages/src/main/java/com/xxx/service/lastprice/messages/UploadChunkRequest.java:36-38 | the copied chunk bytes read back from the request |
| UploadChunkRequest.ChunkCopied | last-price-service/messages/src/main/java/com/xxx/service/lastprice/messages/UploadChunkRequest.java:36-38 | copying a chunk keeps the request's header and batch id and carries the chunk's count over |
| UploadChunkRequest.SizeInBytesAsWritten | last-price-service/messages/src/main/java/com/xxx/service/lastprice/messages/UploadChunkRequest.java:41-44 | the size as written from the stored count, with the chunk view re-bound for reading after the header |
| UploadChunkRequest.SizeInBytes | last-price-service/messages/src/main/java/com/xxx/service/lastprice/messages/UploadChunkRequest.java:41-44 | the corrected size: request header plus `defineSize` of the stored count |
| PriceRecord.RecordBytes | last-price-service/messages/src/main/java/com/xxx/service/lastprice/messages/PriceRecordsChunk.java:34-36 | running the three setters in turn keeps the buffer's length |
| PriceRecord.RecordRoundTrip | last-price-service/messages/src/main/java/com/xxx/service/lastprice/messages/PriceRecord.java:25-72 | a record written with an accepted ticker, timestamp and payload reads back with those values: the ticker (exactly, for ASCII), the timestamp, the payload size and bytes |
| PriceRecord.RecordBytesWithin | last-price-service/messages/src/main/java/com/xxx/service/lastprice/messages/PriceRecord.java:14-21 | writing a record changes only its SIZE_IN_BYTES bytes |
| PriceRecord.RecordAfterOutsideWrite | last-price-service/messages/src/main/java/com/xxx/service/lastprice/messages/PriceRecord.java:14-21 | a record lying wholly past a changed region reads the same |
| PriceRecord.RecordOnSuffix | last-price-service/messages/src/main/java/com/xxx/service/lastprice/messages/PriceRecord.java:14-21 | a record is read from the bytes at and after its position alone |
| PriceRecord.RecordKeepsInt | last-price-service/messages/src/main/java/com/xxx/service/lastprice/messages/PriceRecord.java:14-21 | writing a record leaves an `int` stored outside its slot as it was |
| PriceRecord.SetInstrument | last-price-service/messages/src/main/java/com/xxx/service/lastprice/messages/PriceRecord.java:38-44 | a ticker over INSTRUMENT_MAX_TICKER_LENGTH throws IllegalArgumentException and changes nothing; otherwise its length and its characters' low bytes are stored and read back (exactly, for ASCII) |
| PriceRecord.SetAsOfTimestamp | last-price-service/messages/src/main/java/com/xxx/service/lastprice/messages/PriceRecord.java:50-52 | the timestamp reads back and no other byte changes |
| PriceRecord.PutPayload | last-price-service/messages/src/main/java/com/xxx/service/lastprice/messages/PriceRecord.java:58-72 | a size over PRICE_MAX_PAYLOAD_SIZE throws IllegalArgumentException before any write; a range outside the source throws IndexOutOfBoundsException after the size is stored; otherwise the payload reads back as the source's range |
| PriceRecord.WriteResult | last-price-service/messages/src/main/java/com/xxx/service/lastprice/messages/PriceRecordsChunk.java:34-36 | the setters in turn keep the buffer's length |
| PriceRecord.WriteOutcome | last-price-service/messages/src/main/java/com/xxx/service/lastprice/messages/PriceRecordsChunk.java:34-36 | the setters succeed exactly on accepted arguments, where the record reads back as given; an over-long ticker fails before any write; in every case only the record's own bytes change |
| PriceRecord.Write | last-price-service/messages/src/main/java/com/xxx/service/lastprice/messages/PriceRecordsChunk.java:34-36 | the buffer and outcome are those `WriteResult` gives |
| PriceRecord.CheckedWriteResult | last-price-service/messages/src/main/java/com/xxx/service/lastprice/messages/PriceRecordsChunk.java:34-36 | the three setters with every put bounds-checked keep the buffer's length |
| PriceRecord.CheckedWriteOutcome | last-price-service/messages/src/main/java/com/xxx/service/lastprice/messages/PriceRecordsChunk.java:34-36 | with every put bounds-checked, the setters complete exactly on accepted arguments whose payload ends inside the buffer; an over-long ticker throws IllegalArgumentException before any write and every other failure is IndexOutOfBoundsException; nothing before the record changes; where the whole record fits they are the plain setters |
| PriceRecord.WriteChecked | last-price-service/messages/src/main/java/com/xxx/service/lastprice/messages/PriceRecordsChunk.java:34-36 | the ticker, timestamp and payload setters on a buffer that may end inside the record give what `CheckedWriteResult` gives |
| PriceRecord.GetPayload | last-price-service/messages/src/main/java/com/xxx/service/lastprice/messages/PriceRecord.java:65-67 | the stored payload is copied to the target at the given offset, or IndexOutOfBoundsException with the target unchanged when it does not fit |
| PriceRecordsChunk.DefineSize | last-price-service/messages/src/main/java/com/xxx/service/lastprice/messages/PriceRecordsChunk.java:55-57 | a chunk of n records takes at least its 4-byte count, and fewer than MAX_CHUNK_SIZE records leave room for one more |
| PriceRecordsChunk.RecordsAdjacent | last-price-service/messages/src/main/java/com/xxx/service/lastprice/messages/PriceRecordsChunk.java:33 | record i ends where record i + 1 begins, so slots never overlap |
| PriceRecordsChunk.Reset | last-price-service/messages/src/main/java/com/xxx/service/lastprice/messages/PriceRecordsChunk.java:17-19 | the count becomes 0 and the chunk's size its header; no other byte changes |
| PriceRecordsChunk.AddedBytes | last-price-service/messages/src/main/java/com/xxx/service/lastprice/messages/PriceRecordsChunk.java:29-37 | adding a record keeps the buffer's length |
| PriceRecordsChunk.AddedRecordCounted | last-price-service/messages/src/main/java/com/xxx/service/lastprice/messages/PriceRecordsChunk.java:31-32 | adding record n raises the count to n + 1 |
| PriceRecordsChunk.AddedRecordReadsBack | last-price-service/messages/src/main/java/com/xxx/service/lastprice/messages/PriceRecordsChunk.java:33-36 | the added record reads back from slot n as given |
| PriceRecordsChunk.AddedRecordKeepsOthers | last-price-service/messages/src/main/java/com/xxx/service/lastprice/messages/PriceRecordsChunk.java:29-37 | adding record n leaves the records before it and every byte after its slot unchanged |
| PriceRecordsChunk.AddRecordAsWritten | last-price-service/messages/src/main/java/com/xxx/service/lastprice/messages/PriceRecordsChunk.java:29-37 | as written: a full chunk throws IllegalStateException unchanged; otherwise the count is raised before the setters run, so a rejected ticker or payload still counts a record; the setters' puts are bounds-checked, so on a buffer ending inside the slot the first put past the end throws IndexOutOfBoundsException and the record is still counted; the call completes exactly for accepted arguments whose payload ends inside the buffer, and when the whole slot fits the chunk is then the added chunk |
| PriceRecordsChunk.AddedAsWritten | last-price-service/messages/src/main/java/com/xxx/service/lastprice/messages/PriceRecordsChunk.java:29-37 | as written, adding a record keeps the buffer's length |
| PriceRecordsChunk.CountThenWrite | last-price-service/messages/src/main/java/com/xxx/service/lastprice/messages/PriceRecordsChunk.java:32-36 | the count goes up, then the bounds-checked setters run on slot n, as `AddedAsWritten` gives |
| PriceRecordsChunk.CountedAsWritten | last-price-service/messages/src/main/java/com/xxx/service/lastprice/messages/PriceRecordsChunk.java:32-36 | the count written before the setters survives them whatever they do; they complete exactly on accepted arguments whose payload ends inside the buffer; an over-long ticker throws IllegalArgumentException and every other failure is IndexOutOfBoundsException |
| PriceRecordsChunk.CountedInRoom | last-price-service/messages/src/main/java/com/xxx/service/lastprice/messages/PriceRecordsChunk.java:32-36 | where slot n lies inside the buffer, the count write and the bounds-checked setters are the count write and the plain setters, and a completed write gives the chunk with the record added |
| PriceRecordsChunk.AddRecord | last-price-service/messages/src/main/java/com/xxx/service/lastprice/messages/PriceRecordsChunk.java:29-37 | corrected: every argument is checked before anything is written; a full chunk throws IllegalStateException, a bad ticker or payload size IllegalArgumentException, a bad payload range or a slot running past the chunk's buffer IndexOutOfBoundsException, each with the chunk unchanged; otherwise the record is added and counted |
| PriceRecordsChunk.Append | last-price-service/messages/src/main/java/com/xxx/service/lastprice/messages/PriceRecordsChunk.java:31-36 | with accepted arguments and slot n inside the buffer, the chunk becomes the added chunk and the count rises by one |
| PriceRecordsChunk.AppendWrites | last-price-service/messages/src/main/java/com/xxx/service/lastprice/messages/PriceRecordsChunk.java:31-36 | the count write followed by the setters is the chunk with the record added |
| PriceRecordsChunk.PriceRecordAt | last-price-service/messages/src/main/java/com/xxx/service/lastprice/messages/PriceRecordsChunk.java:39-42 | the record view reads slot i at `defineSize(i)`, without checking i, and reads record i when the slot is inside the buffer |
| PriceRecordsChunk.OverlongTickerAsWritten | last-price-service/messages/src/main/java/com/xxx/service/lastprice/messages/PriceRecordsChunk.java:29-37 | an 11-character ticker added to an empty chunk throws IllegalArgumentException and yet the chunk counts one record |
| PriceRecordsChunk.OverlongTicker | last-price-service/messages/src/main/java/com/xxx/service/lastprice/messages/PriceRecordsChunk.java:29-37 | with the check first, the same call throws and the chunk stays empty |
| PriceRecordsChunk.SecondRecordPastEndAsWritten | last-price-service/messages/src/main/java/com/xxx/service/lastprice/messages/PriceRecordsChunk.java:29-37 | a chunk sized for one record given a second: as written, the count reaches two and the setters throw IndexOutOfBoundsException |
| PriceRecordsChunk.SecondRecordPastEnd | last-price-service/messages/src/main/java/com/xxx/service/lastprice/messages/PriceRecordsChunk.java:29-37 | with the room checked first, the second record is refused with IndexOutOfBoundsException and the chunk keeps one |
| Ticker.EncodeTicker | last-price-service/messages/src/main/java/com/xxx/service/lastprice/messages/PriceRecord.java:41-43 | narrowing keeps the ticker's length |
| Ticker.DecodeTicker | last-price-service/messages/src/main/java/com/xxx/service/lastprice/messages/PriceRecord.java:33-36 | widening keeps the bytes' length |
| Ticker.AsciiRoundTrip | last-price-service/messages/src/main/java/com/xxx/service/lastprice/messages/PriceRecord.java:33-44 | an ASCII ticker survives the `(byte)` narrowing and the `(char)` widening unchanged |
| Ticker.PutTickerBytes | last-price-service/messages/src/main/java/com/xxx/service/lastprice/messages/PriceRecord.java:38-44 | a ticker write keeps the buffer's length |
| Ticker.TickerRoundTrip | last-price-service/messages/src/main/java/com/xxx/service/lastprice/messages/PriceRecord.java:33-44 | a stored ticker reads back as its narrowed-then-widened characters, and as itself when ASCII |
| Ticker.TickerElsewhere | last-price-service/messages/src/main/java/com/xxx/service/lastprice/messages/PriceRecord.java:33-36 | a write that misses the length field and the stored characters leaves the ticker as it was |
| Ticker.TickerAfterOutsideWrite | last-price-service/messages/src/main/java/com/xxx/service/lastprice/messages/PriceRecord.java:33-36 | a ticker lying wholly past a changed region reads the same |
| Ticker.PutTickerBytesWithin | last-price-service/messages/src/main/java/com/xxx/service/lastprice/messages/PriceRecord.java:38-44 | a ticker write changes nothing outside a region holding its length and character fields |
| Ticker.SpliceExtend | last-price-service/messages/src/main/java/com/xxx/service/lastprice/messages/PriceRecord.java:41-43 | writing one more byte just past a copied range extends the copy by that byte |
| Ticker.EncodeTickerPrefix | last-price-service/messages/src/main/java/com/xxx/service/lastprice/messages/PriceRecord.java:41-43 | encoding one more character appends its narrowed byte |
| Ticker.WriteTickerChars | last-price-service/messages/src/main/java/com/xxx/service/lastprice/messages/PriceRecord.java:41-43 | the per-character loop stores byte i of the narrowed ticker at position i; the first character past the buffer's end throws IndexOutOfBoundsException with the characters before it stored and nothing else changed |
| Ticker.WriteTicker | last-price-service/messages/src/main/java/com/xxx/service/lastprice/messages/LastPriceRequest.java:32-46 | a ticker over INSTRUMENT_MAX_TICKER_LENGTH throws IllegalArgumentException and changes nothing; otherwise the length and the narrowed characters are stored |
| Ticker.CheckedTickerBytes | last-price-service/messages/src/main/java/com/xxx/service/lastprice/messages/PriceRecord.java:38-44 | a ticker write with every put bounds-checked keeps the buffer's length |
| Ticker.CheckedTickerOutcome | last-price-service/messages/src/main/java/com/xxx/service/lastprice/messages/PriceRecord.java:38-44 | with every put bounds-checked, the ticker write completes exactly when the ticker is within its cap and ends inside the buffer; it throws IllegalArgumentException for an over-long ticker and IndexOutOfBoundsException otherwise; where the whole field fits it is the plain write; nothing before the length field changes |
| Ticker.WriteTickerChecked | last-price-service/messages/src/main/java/com/xxx/service/lastprice/messages/PriceRecord.java:38-44 | `instrument(CharSequence)` on a buffer that may end inside the field: the cap check, the bounds-checked length put and the character loop give what `CheckedTickerBytes` gives |
| PayloadField.PayloadAfterOutsideWrite | last-price-service/messages/src/main/java/com/xxx/service/lastprice/messages/PriceRecord.java:65-67 | a payload lying wholly past a changed region reads the same |
| PayloadField.PutPayloadBytes | last-price-service/messages/src/main/java/com/xxx/service/lastprice/messages/PriceRecord.java:58-72 | a payload write keeps the buffer's length |
| PayloadField.PayloadRoundTrip | last-price-service/messages/src/main/java/com/xxx/service/lastprice/messages/PriceRecord.java:65-72 | a payload write that completes reads back as the copied bytes |
| PayloadField.PayloadElsewhere | last-price-service/messages/src/main/java/com/xxx/service/lastprice/messages/PriceRecord.java:65-67 | a write that misses the size field and the stored bytes leaves the payload as it was |
| PayloadField.PutPayloadBytesWithin | last-price-service/messages/src/main/java/com/xxx/service/lastprice/messages/PriceRecord.java:58-72 | a payload write, complete or not, changes nothing outside a region holding its size and payload fields |
| PayloadField.PutPayload | last-price-service/messages/src/main/java/com/xxx/service/lastprice/messages/PriceRecord.java:58-72 | a size over PRICE_MAX_PAYLOAD_SIZE throws IllegalArgumentException with nothing written; the write completes exactly when the size and the source range are valid, and then reads back as the copied bytes |
| PayloadField.StorePayload | last-price-service/messages/src/main/java/com/xxx/service/lastprice/messages/PriceRecord.java:62-71 | the size is stored, then the bytes are copied: the copy completes exactly for a valid range, and then reads back |
| PayloadField.PayloadWritten | last-price-service/messages/src/main/java/com/xxx/service/lastprice/messages/PriceRecord.java:69-72 | the two writes `putPayload` makes are what `PutPayloadBytes` computes, and they read back |
| PayloadField.CheckedPayloadBytes | last-price-service/messages/src/main/java/com/xxx/service/lastprice/messages/PriceRecord.java:58-72 | a payload write with every put bounds-checked keeps the buffer's length |
| PayloadField.CheckedPayloadOutcome | last-price-service/messages/src/main/java/com/xxx/service/lastprice/messages/PriceRecord.java:58-72 | with every put bounds-checked, the payload write completes exactly for a size within the cap, a valid source range and bytes ending inside the buffer; a size over the cap throws IllegalArgumentException with nothing written and every other failure is IndexOutOfBoundsException; where the whole field fits it is the plain write; nothing before the size field changes |
| PayloadField.PutPayloadChecked | last-price-service/messages/src/main/java/com/xxx/service/lastprice/messages/PriceRecord.java:58-72 | `putPayload` on a buffer that may end inside the field: the cap check, the bounds-checked size put and the bounds-checked copy give what `CheckedPayloadBytes` gives |
| PayloadField.GetPayload | last-price-service/messages/src/main/java/com/xxx/service/lastprice/messages/PriceRecord.java:65-67 | the stored payload is copied to the target at the given offset when both ranges are valid; otherwise IndexOutOfBoundsException and the target is unchanged |
| IndexedPriceRecord.UpdateBytes | last-price-service/server/src/main/java/com/xxx/service/lastprice/BaseIndexedPriceRecordsBlock.java:84-87 | an update keeps the buffer's length |
| IndexedPriceRecord.UpdateWithin | last-price-service/server/src/main/java/com/xxx/service/lastprice/BaseIndexedPriceRecordsBlock.java:84-87 | an update touches only its own record |
| IndexedPriceRecord.UpdateOutcome | last-price-service/server/src/main/java/com/xxx/service/lastprice/BaseIndexedPriceRecordsBlock.java:84-87 | an older timestamp changes nothing; a newer-or-equal one is stored and its payload put; the stored timestamp never goes back |
| IndexedPriceRecord.UpdatePayload | last-price-service/server/src/main/java/com/xxx/service/lastprice/BaseIndexedPriceRecordsBlock.java:84-87 | a completed update of a newer-or-equal price reads back the copied payload |
| IndexedPriceRecord.UpdateLocal | last-price-service/server/src/main/java/com/xxx/service/lastprice/BaseIndexedPriceRecordsBlock.java:84-87 | an update depends only on the record's own bytes |
| IndexedPriceRecord.SetIndex | last-price-service/server/src/main/java/com/xxx/service/lastprice/IndexedPriceRecord.java:31-33 | the index reads back; the timestamp and the payload bytes are unchanged |
| IndexedPriceRecord.SetTimestamp | last-price-service/server/src/main/java/com/xxx/service/lastprice/IndexedPriceRecord.java:39-41 | the timestamp reads back; the index and the payload bytes are unchanged |
| IndexedPriceRecord.PutPayload | last-price-service/server/src/main/java/com/xxx/service/lastprice/IndexedPriceRecord.java:47-65 | a size over PRICE_MAX_PAYLOAD_SIZE throws IllegalArgumentException with nothing written; the write completes exactly for a valid size and range, reads back, and keeps the index and timestamp |
| IndexedPriceRecord.GetPayload | last-price-service/server/src/main/java/com/xxx/service/lastprice/IndexedPriceRecord.java:54-56 | the stored payload is copied to the target at the given offset, or IndexOutOfBoundsException with the target unchanged |
| RecordsBlock.SlotPos | last-price-service/server/src/main/java/com/xxx/service/lastprice/BaseIndexedPriceRecordsBlock.java:124-126 | record i starts i records past the base |
| RecordsBlock.SlotsApart | last-price-service/server/src/main/java/com/xxx/service/lastprice/BaseIndexedPriceRecordsBlock.java:124-126 | an earlier record ends before a later one starts |
| RecordsBlock.SlotInside | last-price-service/server/src/main/java/com/xxx/service/lastprice/BaseIndexedPriceRecordsBlock.java:114-126 | record i of n lies inside the records area |
| RecordsBlock.ResetBytes | last-price-service/server/src/main/java/com/xxx/service/lastprice/BaseIndexedPriceRecordsBlock.java:46-50 | `reset` keeps the buffer's length |
| RecordsBlock.ZeroOwnTimestamp | last-price-service/server/src/main/java/com/xxx/service/lastprice/BaseIndexedPriceRecordsBlock.java:48 | zeroing a record's timestamp clears it: 0, same index, same payload |
| RecordsBlock.SameRecord | last-price-service/server/src/main/java/com/xxx/service/lastprice/BaseIndexedPriceRecordsBlock.java:124-126 | two buffers that agree on a record agree on its index, timestamp and payload |
| RecordsBlock.ZeroOtherTimestamp | last-price-service/server/src/main/java/com/xxx/service/lastprice/BaseIndexedPriceRecordsBlock.java:48 | zeroing one record's timestamp leaves a record apart from it as it was |
| RecordsBlock.ResetUntouched | last-price-service/server/src/main/java/com/xxx/service/lastprice/BaseIndexedPriceRecordsBlock.java:46-50 | a reset of the first k records leaves every later record as it was |
| RecordsBlock.ResetClearsLast | last-price-service/server/src/main/java/com/xxx/service/lastprice/BaseIndexedPriceRecordsBlock.java:46-50 | the last record a reset reaches is cleared by it |
| RecordsBlock.ResetCleared | last-price-service/server/src/main/java/com/xxx/service/lastprice/BaseIndexedPriceRecordsBlock.java:46-50 | after a reset of the first k records each of them is cleared |
| RecordsBlock.ResetStep | last-price-service/server/src/main/java/com/xxx/service/lastprice/BaseIndexedPriceRecordsBlock.java:47-49 | one more record reset is one more timestamp zeroed |
| RecordsBlock.ResetWithin | last-price-service/server/src/main/java/com/xxx/service/lastprice/BaseIndexedPriceRecordsBlock.java:46-50 | a reset writes nothing outside the records it resets: the header and what follows are untouched |
| RecordsBlock.ResetClearsTimestamps | last-price-service/server/src/main/java/com/xxx/service/lastprice/BaseIndexedPriceRecordsBlock.java:43-50 | after `reset` every record's timestamp is 0 and its index and payload are kept, and nothing outside the records changes |
| RecordsBlock.UpdateSelected | last-price-service/server/src/main/java/com/xxx/service/lastprice/BaseIndexedPriceRecordsBlock.java:84-87 | the selected record is updated as `UpdateBytes` says |
| RecordsBlock.Block.constructor | last-price-service/server/src/main/java/com/xxx/service/lastprice/BaseIndexedPriceRecordsBlock.java:38-41 | a block with the given record count and header size, not yet bound to a buffer |
| RecordsBlock.Block.WrapForWrite | last-price-service/server/src/main/java/com/xxx/service/lastprice/BaseIndexedPriceRecordsBlock.java:60-70 | binds the block exactly when the buffer's room past the offset holds the whole block; otherwise IllegalArgumentException and the block is not bound |
| RecordsBlock.Block.SelectRecord | last-price-service/server/src/main/java/com/xxx/service/lastprice/BaseIndexedPriceRecordsBlock.java:124-126 | the record view moves to record i's slot, without checking i |
| RecordsBlock.Block.GetPriceRecord | last-price-service/server/src/main/java/com/xxx/service/lastprice/BaseIndexedPriceRecordsBlock.java:96-100 | record i's view for 0 <= i < recordsNumber; otherwise IndexOutOfBoundsException and the view stays where it was |
| RecordsBlock.Block.TryUpdateRecord | last-price-service/server/src/main/java/com/xxx/service/lastprice/BaseIndexedPriceRecordsBlock.java:81-88 | an index out of range throws IndexOutOfBoundsException and changes nothing; otherwise record i is updated as `UpdateBytes` says: newer-or-equal timestamps win |
| RecordsBlock.Block.ZeroTimestamp | last-price-service/server/src/main/java/com/xxx/service/lastprice/BaseIndexedPriceRecordsBlock.java:48 | the timestamp of record i is zeroed and nothing else changes |
| RecordsBlock.Block.Reset | last-price-service/server/src/main/java/com/xxx/service/lastprice/BaseIndexedPriceRecordsBlock.java:46-50 | the buffer becomes `ResetBytes` over every record |
| MarketState.NewMarketState | last-price-service/server/src/main/java/com/xxx/service/lastprice/MarketState.java:11-13 | a block with no header over the given number of records |
| MarketState.MarketStateLayout | last-price-service/server/src/main/java/com/xxx/service/lastprice/MarketState.java:11-13 | with no header the block is exactly its records, and record i starts i records past the offset |
| BatchRun.IdClobberedAsWritten | last-price-service/server/src/main/java/com/xxx/service/lastprice/BatchRun.java:20-22 | with the header as laid out (an 8-byte id at 0, the last-update time at 4), storing id 1 and then time 1 makes the id read back as 2^32 + 1 |
| BatchRun.HeaderFieldsApart | last-price-service/server/src/main/java/com/xxx/service/lastprice/BatchRun.java:69-98 | with each field 8 bytes wide, the id and the last-update time each read back whatever is written after the other |
| BatchRun.HashOf | last-price-service/server/src/main/java/com/xxx/service/lastprice/BatchRun.java:130-133 | `Objects.hash(index)` is 31 + index whenever that fits a Java `int` |
| BatchRun.MergeStep | last-price-service/server/src/main/java/com/xxx/service/lastprice/BatchRun.java:144-152 | a merge step keeps the target buffer's length |
| BatchRun.MergeStepUnfold | last-price-service/server/src/main/java/com/xxx/service/lastprice/BatchRun.java:144-152 | a merge step hands the source record's timestamp and payload to the target's `tryUpdateRecord`, which throws IndexOutOfBoundsException for an index past the target's records |
| BatchRun.OtherRecordsKept | last-price-service/server/src/main/java/com/xxx/service/lastprice/BatchRun.java:144-152 | a write confined to record j leaves every other target record, the header and the bytes past the records as they were |
| BatchRun.MergeStepOnRecord | last-price-service/server/src/main/java/com/xxx/service/lastprice/BatchRun.java:144-152 | a merge step's outcome and its effect on record j depend only on that record's bytes, and it writes nothing outside the record |
| BatchRun.MergeStepLocal | last-price-service/server/src/main/java/com/xxx/service/lastprice/BatchRun.java:105-110 | merge steps over distinct records commute: applying step j after earlier steps gives record j what it gets from the original target |
| BatchRun.UntouchedGrow | last-price-service/server/src/main/java/com/xxx/service/lastprice/BatchRun.java:105-110 | records untouched outside a set are untouched outside any larger set |
| BatchRun.AllCompleteStep | last-price-service/server/src/main/java/com/xxx/service/lastprice/BatchRun.java:105-110 | one more completed merge step extends the completed set |
| BatchRun.NotAllComplete | last-price-service/server/src/main/java/com/xxx/service/lastprice/BatchRun.java:105-110 | a step that throws keeps the whole merge from completing |
| BatchRun.MergedRecord | last-price-service/server/src/main/java/com/xxx/service/lastprice/BatchRun.java:55-58 | after a complete merge each included target record keeps its index and holds the newer-or-equal of its own and the source's timestamp, taking the source's payload when the source's timestamp wins |
| BatchRun.UpdatedRecord | last-price-service/server/src/main/java/com/xxx/service/lastprice/BaseIndexedPriceRecordsBlock.java:84-87 | after a successful update the record's timestamp is the newer-or-equal of the two, its index is kept, and its payload is the source's when the source wins and unchanged otherwise |
| BatchRun.PayloadOnRecord | last-price-service/server/src/main/java/com/xxx/service/lastprice/IndexedPriceRecord.java:54-56 | a payload that fits its record reads the same from any buffer holding the same record |
| BatchRun.BatchRun.constructor | last-price-service/server/src/main/java/com/xxx/service/lastprice/BatchRun.java:35-39 | a run with the given pool index and record count, the run header's size and nothing included |
| BatchRun.BatchRun.SetId | last-price-service/server/src/main/java/com/xxx/service/lastprice/BatchRun.java:78-80 | the id reads back and the last-update time is kept |
| BatchRun.BatchRun.SetLastUpdateTimestamp | last-price-service/server/src/main/java/com/xxx/service/lastprice/BatchRun.java:96-98 | the last-update time reads back and the id is kept |
| BatchRun.BatchRun.TryUpdateRecordAsWritten | last-price-service/server/src/main/java/com/xxx/service/lastprice/BatchRun.java:44-47 | as written: the index joins the included set even when the block then throws IndexOutOfBoundsException for it |
| BatchRun.BatchRun.TryUpdateRecord | last-price-service/server/src/main/java/com/xxx/service/lastprice/BatchRun.java:44-47 | corrected: an index outside the block throws IndexOutOfBoundsException and changes nothing; otherwise it is included and its record updated by the newer-or-equal rule |
| BatchRun.BatchRun.Reset | last-price-service/server/src/main/java/com/xxx/service/lastprice/BatchRun.java:115-118 | nothing is included any more and every record's timestamp is zeroed; the header is kept |
| BatchRun.BatchRun.MergeRecord | last-price-service/server/src/main/java/com/xxx/service/lastprice/BatchRun.java:144-152 | one record merged into the target as `MergeStep` says |
| BatchRun.BatchRun.MergeTo | last-price-service/server/src/main/java/com/xxx/service/lastprice/BatchRun.java:55-58 | target records outside the included set, its header and the rest of its buffer are untouched; the merge completes exactly when every included record merges, and then each included record holds its merge; otherwise the exception is one an included record's step throws; the records handed to the target are all the included ones when it completes, and included ones otherwise |
| BatchRun.BatchRun.MergeToRun | last-price-service/server/src/main/java/com/xxx/service/lastprice/BatchRun.java:44-58 | `mergeTo` a run: the target's `tryUpdateRecord` takes each record, so on top of `MergeTo`'s promise the target's included set grows by exactly this run's included set when the merge completes, and by at most that set otherwise |
| BatchRun.EqualsByIndex | last-price-service/server/src/main/java/com/xxx/service/lastprice/BatchRun.java:123-133 | `equals` goes by the pool index alone, is an equivalence, and equal runs hash alike |
| Bytes.SubLong | last-price-service/server/src/main/java/com/xxx/service/lastprice/BatchRunRepositoryImpl.java:91 | Java's `long` subtraction: the result is congruent to the difference modulo 2^64 and equals it when it fits |
| BatchRunRepository.RegionsApart | last-price-service/server/src/main/java/com/xxx/service/lastprice/BatchRunRepositoryImpl.java:111-117 | run i's region, i runs into the pool's memory, ends before run j's begins and inside the pool |
| BatchRunRepository.Upto | last-price-service/server/src/main/java/com/xxx/service/lastprice/BatchRunRepositoryImpl.java:121-127 | the initial free queue holds 0 to n - 1 in order |
| BatchRunRepository.OldestExists | last-price-service/server/src/main/java/com/xxx/service/lastprice/BatchRunRepositoryImpl.java:40-42 | a non-empty set of live runs has one with the least last-update time, the clean-up queue's head |
| BatchRunRepository.IdsAt | last-price-service/server/src/main/java/com/xxx/service/lastprice/BatchRunRepositoryImpl.java:29 | the ids held by the runs at the given pool indexes, and no others |
| BatchRunRepository.BooksAfterCreate | last-price-service/server/src/main/java/com/xxx/service/lastprice/BatchRunRepositoryImpl.java:46-57 | `create` keeps the bookkeeping: the first free index goes live under the new id |
| BatchRunRepository.BooksAfterRemove | last-price-service/server/src/main/java/com/xxx/service/lastprice/BatchRunRepositoryImpl.java:70-75 | `remove` keeps the bookkeeping: the live index goes back to the free queue and its id is unmapped |
| BatchRunRepository.FreePlusLive | last-price-service/server/src/main/java/com/xxx/service/lastprice/BatchRunRepositoryImpl.java:121-127 | free indexes and live runs together are exactly the pool's MAX_ACTIVE_BATCHES_NUMBER runs |
| BatchRunRepository.MapGrows | last-price-service/server/src/main/java/com/xxx/service/lastprice/BatchRunRepositoryImpl.java:54 | mapping a new id grows `size` by one |
| BatchRunRepository.RangeCard | last-price-service/server/src/main/java/com/xxx/service/lastprice/BatchRunRepositoryImpl.java:121-127 | the pool's indexes number MAX_ACTIVE_BATCHES_NUMBER |
| BatchRunRepository.DistinctCard | last-price-service/server/src/main/java/com/xxx/service/lastprice/BatchRunRepositoryImpl.java:121-127 | a queue without repeats has as many members as entries |
| BatchRunRepository.NewRun | last-price-service/server/src/main/java/com/xxx/service/lastprice/BatchRunRepositoryImpl.java:111-117 | run i with n records, bound for writing in a zero-filled buffer of its size, with nothing included |
| BatchRunRepository.NewPool | last-price-service/server/src/main/java/com/xxx/service/lastprice/BatchRunRepositoryImpl.java:111-119 | the pool holds MAX_ACTIVE_BATCHES_NUMBER runs, run k with index k, each in place |
| BatchRunRepository.Repository.constructor | last-price-service/server/src/main/java/com/xxx/service/lastprice/BatchRunRepositoryImpl.java:34-43 | every index is free, in order, no id is mapped and nothing is queued for clean-up |
| BatchRunRepository.Repository.WriteHeader | last-price-service/server/src/main/java/com/xxx/service/lastprice/BatchRunRepositoryImpl.java:52-53 | run k's header takes the id and time; every other run and the bookkeeping are unchanged |
| BatchRunRepository.Repository.WriteRunHeader | last-price-service/server/src/main/java/com/xxx/service/lastprice/BatchRunRepositoryImpl.java:52-53 | run k reads back the new header and every other run its old one |
| BatchRunRepository.Repository.Create | last-price-service/server/src/main/java/com/xxx/service/lastprice/BatchRunRepositoryImpl.java:46-57 | with no free index, IndexOutOfBoundsException and nothing changes; otherwise the first free index leaves the queue, its run takes the id and the clock reading, the id maps to it and it joins the clean-up queue; no other run changes |
| BatchRunRepository.Repository.Get | last-price-service/server/src/main/java/com/xxx/service/lastprice/BatchRunRepositoryImpl.java:60-67 | the run the id maps to, which is live and holds that id, or null for an unmapped id |
| BatchRunRepository.Repository.Size | last-price-service/server/src/main/java/com/xxx/service/lastprice/BatchRunRepositoryImpl.java:85-87 | the number of mapped ids, never more than the live runs |
| BatchRunRepository.Repository.IdsInjective | last-price-service/server/src/main/java/com/xxx/service/lastprice/BatchRunRepositoryImpl.java:85-87 | distinct ids map to distinct live runs |
| BatchRunRepository.Repository.Capacity | last-price-service/server/src/main/java/com/xxx/service/lastprice/BatchRunRepositoryImpl.java:121-127 | free indexes and live runs together fill the pool |
| BatchRunRepository.Repository.RemoveAll | last-price-service/server/src/main/java/com/xxx/service/lastprice/BatchRunRepository.java:71-74 | every live run is removed: no id stays mapped and every index is free |
| BatchRunRepository.Repository.Remove | last-price-service/server/src/main/java/com/xxx/service/lastprice/BatchRunRepositoryImpl.java:70-75 | the run is reset with its header kept, its index goes to the back of the free queue, it leaves the clean-up queue and its id is unmapped; no other run changes |
| BatchRunRepository.Repository.Save | last-price-service/server/src/main/java/com/xxx/service/lastprice/BatchRunRepositoryImpl.java:78-82 | the run's last-update time becomes the clock reading; its id, its records and the bookkeeping are unchanged |
| BatchRunRepository.Repository.WriteRunTime | last-price-service/server/src/main/java/com/xxx/service/lastprice/BatchRunRepositoryImpl.java:80 | run k reads back the new time and its old id, and every other run its old header |
| BatchRunRepository.Repository.OldestLive | last-price-service/server/src/main/java/com/xxx/service/lastprice/BatchRunRepositoryImpl.java:94 | the clean-up queue's head is a live run with the oldest last-update time |
| BatchRunRepository.Repository.RemoveOutdated | last-price-service/server/src/main/java/com/xxx/service/lastprice/BatchRunRepositoryImpl.java:90-103 | at most `limit` runs are removed, oldest first, each live and last updated no later than `now - evictionTime` (wrapping), and handed on in order; stopping short of the limit means no live run is outdated |
| BatchRunRepository.Repository.PopOutdated | last-price-service/server/src/main/java/com/xxx/service/lastprice/BatchRunRepositoryImpl.java:94-100 | the oldest live run is removed when outdated; otherwise nothing changes and no live run is outdated |
| BatchRunRepository.Repository.OldestTime | last-price-service/server/src/main/java/com/xxx/service/lastprice/BatchRunRepositoryImpl.java:94-95 | the head's ghost time is the least among the live runs |
| BatchRunRepository.Repository.RemoveOutdatedOne | last-price-service/server/src/main/java/com/xxx/service/lastprice/BatchRunRepository.java:57-59 | true exactly when one outdated live run was removed, that run being the oldest queued one (the clean-up queue's head), and then the bookkeeping moved exactly that run; false leaves everything as it was, with no live run outdated |
| BatchRunRepository.Repository.ResetRun | last-price-service/server/src/main/java/com/xxx/service/lastprice/BatchRunRepositoryImpl.java:71 | run k is reset with nothing included; every header and every other run are unchanged |
| BatchRunRepository.SweptAtMostOne | last-price-service/server/src/main/java/com/xxx/service/lastprice/BatchRunRepository.java:57-59 | a sweep that removed none left every queue as it was; one that removed one moved exactly that run, which was no newer than any run queued before the sweep |
| BatchRunRepository.SweptStep | last-price-service/server/src/main/java/com/xxx/service/lastprice/BatchRunRepositoryImpl.java:93-100 | removing the oldest queued run, when outdated, extends the sweep by it |
| BatchRunRepository.SweptBooksStep | last-price-service/server/src/main/java/com/xxx/service/lastprice/BatchRunRepositoryImpl.java:98 | the bookkeeping of one more removal |
| BatchRunRepository.SweptOrderStep | last-price-service/server/src/main/java/com/xxx/service/lastprice/BatchRunRepositoryImpl.java:94-96 | the removal order stays oldest first |
| BatchRunRepository.MapSize | last-price-service/server/src/main/java/com/xxx/service/lastprice/BatchRunRepositoryImpl.java:85-87 | a map whose entries name pool runs by their ids is no larger than the set of runs it names |
| RepositoryAsWritten.CreatedHeader | last-price-service/server/src/main/java/com/xxx/service/lastprice/BatchRunRepositoryImpl.java:52-53 | with the source's header offsets the time stored last reads back |
| RepositoryAsWritten.Create | last-price-service/server/src/main/java/com/xxx/service/lastprice/BatchRunRepositoryImpl.java:46-57 | IndexOutOfBoundsException exactly when no index is free; otherwise the first free slot takes the id |
| RepositoryAsWritten.Remove | last-price-service/server/src/main/java/com/xxx/service/lastprice/BatchRunRepositoryImpl.java:70-75 | the slot is re-queued and only the id the header then reads is unmapped |
| RepositoryAsWritten.RemoveMissesClobberedId | last-price-service/server/src/main/java/com/xxx/service/lastprice/BatchRunRepositoryImpl.java:70-75 | when the header no longer reads a mapped id, `remove` frees the slot but unmaps nothing, so `size` stays |
| RepositoryAsWritten.StaleMappingAfterRemove | last-price-service/server/src/main/java/com/xxx/service/lastprice/BatchRunRepositoryImpl.java:46-75 | creating batch 1 at time 1 and removing it leaves batch 1 mapped to a freed slot and `size` at 1 |
| InstrumentIndexer.CompareAnti | last-price-service/server/src/main/java/com/xxx/service/lastprice/InstrumentIndexer.java:18 | `CharSequence::compare` is antisymmetric: swapping the tickers negates it |
| InstrumentIndexer.CompareZero | last-price-service/server/src/main/java/com/xxx/service/lastprice/InstrumentIndexer.java:18 | two tickers compare as 0 exactly when they are equal |
| InstrumentIndexer.CompareTrans | last-price-service/server/src/main/java/com/xxx/service/lastprice/InstrumentIndexer.java:18 | the order is transitive |
| InstrumentIndexer.Insert | last-price-service/server/src/main/java/com/xxx/service/lastprice/InstrumentIndexer.java:18 | inserting into a sorted sequence keeps it sorted and adds exactly the one ticker |
| InstrumentIndexer.Sort | last-price-service/server/src/main/java/com/xxx/service/lastprice/InstrumentIndexer.java:18 | the result is sorted and a permutation of the input |
| InstrumentIndexer.NewIndexer | last-price-service/server/src/main/java/com/xxx/service/lastprice/InstrumentIndexer.java:15-19 | the indexer holds every ticker of the collection, sorted, and no other |
| InstrumentIndexer.Search | last-price-service/server/src/main/java/com/xxx/service/lastprice/InstrumentIndexer.java:22 | a non-negative result is a position holding the ticker; a negative one is `-(p + 1)` for the insertion point `p` |
| InstrumentIndexer.DefineIndexMeaning | last-price-service/server/src/main/java/com/xxx/service/lastprice/InstrumentIndexer.java:21-23 | the index is non-negative exactly for a known ticker and then names it; an unknown ticker gets `-(insertion point + 1)` |
| InstrumentIndexer.IndexesFollowOrder | last-price-service/server/src/main/java/com/xxx/service/lastprice/InstrumentIndexer.java:21-23 | known tickers are indexed in their sorted order |
| InstrumentIndexer.Unknown | last-price-service/server/src/main/java/com/xxx/service/lastprice/InstrumentIndexer.java:21-23 | a ticker the indexer does not hold gets a negative index |
| InstrumentIndexer.KnownAt | last-price-service/server/src/main/java/com/xxx/service/lastprice/InstrumentIndexer.java:21-23 | a ticker held at position `i` is indexed `i` |
| InstrumentIndexer.ThreeSorted | last-price-service/server/src/test/java/com/xxx/service/lastprice/InstrumentIndexerTest.java:19-23 | the indexer built from AAPL, AMZN and MSFT holds them in that order |
| InstrumentIndexer.ThreeTickers | last-price-service/server/src/test/java/com/xxx/service/lastprice/InstrumentIndexerTest.java:17-28 | AAPL, AMZN and MSFT get the indexes 0, 1 and 2, and DNKN a negative one |
| LastPriceServiceHandler.ResponseFollowsRequest | last-price-service/server/src/main/java/com/xxx/service/lastprice/LastPriceServiceHandler.java:80-97 | each served request type is answered by the response type one above it |
| LastPriceServiceHandler.CopiedPayloadStored | last-price-service/server/src/main/java/com/xxx/service/lastprice/LastPriceServiceHandler.java:121 | the payload copy fails, and with which exception, exactly as the response record's `putPayload` does, and when it succeeds it holds the bytes stored |
| LastPriceServiceHandler.LastPriceStatus | last-price-service/server/src/main/java/com/xxx/service/lastprice/LastPriceServiceHandler.java:105-125 | WRONG_INSTRUMENT exactly for an unknown ticker, PRICE_NOT_AVAILABLE exactly for a known ticker whose record has timestamp 0, and SUCCESS otherwise, also when the copy throws |
| LastPriceServiceHandler.LastPriceAnswer | last-price-service/server/src/main/java/com/xxx/service/lastprice/LastPriceServiceHandler.java:116-122 | a SUCCESS that completes carries the asked ticker, which the indexer knows, the record's non-zero timestamp and the payload the record holds |
| LastPriceServiceHandler.CopyPriceDone | last-price-service/server/src/main/java/com/xxx/service/lastprice/LastPriceServiceHandler.java:117-121 | a completed copy carries the ticker, the timestamp and the record's payload |
| LastPriceServiceHandler.CopiedPayloadRead | last-price-service/server/src/main/java/com/xxx/service/lastprice/LastPriceServiceHandler.java:121 | a record's payload that copies without error is the payload the record holds |
| LastPriceServiceHandler.Stage | last-price-service/server/src/main/java/com/xxx/service/lastprice/LastPriceServiceHandler.java:145-161 | staging keeps the run's size and includes only indexes of known instruments |
| LastPriceServiceHandler.StageMeaning | last-price-service/server/src/main/java/com/xxx/service/lastprice/LastPriceServiceHandler.java:145-161 | staging ends on an unknown ticker exactly when the chunk has one; a chunk staged to the end includes exactly its records' indexes; records of other instruments never change |
| LastPriceServiceHandler.StageFirst | last-price-service/server/src/main/java/com/xxx/service/lastprice/LastPriceServiceHandler.java:148-160 | the first record of a known ticker is updated, and an update that throws ends the staging |
| LastPriceServiceHandler.IndexesOfFirst | last-price-service/server/src/main/java/com/xxx/service/lastprice/LastPriceServiceHandler.java:148-150 | a chunk's indexes are its first record's and the rest's |
| LastPriceServiceHandler.UpdateOtherRecord | last-price-service/server/src/main/java/com/xxx/service/lastprice/LastPriceServiceHandler.java:156-159 | updating one record leaves every other record's bytes as they were |
| LastPriceServiceHandler.JoinJoin | last-price-service/server/src/main/java/com/xxx/service/lastprice/LastPriceServiceHandler.java:148-161 | joining two included sets in turn is joining their union |
| LastPriceServiceHandler.MergeChunk | last-price-service/server/src/main/java/com/xxx/service/lastprice/LastPriceServiceHandler.java:163 | the live run's records outside the included set and its header are kept, the merge completes exactly when every included record merges, and then each holds its merge and the live run's included set grows by exactly the scratch run's; a merge that throws adds at most those |
| LastPriceServiceHandler.SavedRecords | last-price-service/server/src/main/java/com/xxx/service/lastprice/LastPriceServiceHandler.java:164 | saving a merged run rewrites its header only, so the merged and the kept records stay |
| LastPriceServiceHandler.UploadToRun | last-price-service/server/src/main/java/com/xxx/service/lastprice/LastPriceServiceHandler.java:144-165 | the chunk is staged; one staged to the end is merged, its records joining the run's included set, and the run is saved at `now` exactly when the merge completes; the bookkeeping is kept |
| LastPriceServiceHandler.MergeAndSave | last-price-service/server/src/main/java/com/xxx/service/lastprice/LastPriceServiceHandler.java:162-165 | the scratch run is merged into the live run, whose included set grows by exactly the scratch run's when the merge completes, and which is then saved at `now` |
| LastPriceServiceHandler.UploadChunk | last-price-service/server/src/main/java/com/xxx/service/lastprice/LastPriceServiceHandler.java:139-168 | an unmapped batch id is not found and nothing changes, included sets too; otherwise the upload goes to the run the id maps to, whose included set grows as `Uploaded` says |
| LastPriceServiceHandler.UploadSuccessNotWritten | last-price-service/server/src/main/java/com/xxx/service/lastprice/LastPriceServiceHandler.java:139-168 | as written, a merged and saved chunk answers whatever status the response held before (BATCH_RUN_NOT_FOUND, INSTRUMENT_NOT_FOUND); the corrected status is SUCCESS exactly for a chunk merged and saved |
| LastPriceServiceHandler.StageChunk | last-price-service/server/src/main/java/com/xxx/service/lastprice/LastPriceServiceHandler.java:145-161 | the scratch run is reset, then it holds the bytes, the included set and the outcome `Stage` gives on the reset bytes |
| LastPriceServiceHandler.StageRecord | last-price-service/server/src/main/java/com/xxx/service/lastprice/LastPriceServiceHandler.java:149-159 | one pass of the staging loop: the record's index, with nothing changed for an unknown ticker and the run's `tryUpdateRecord` for a known one |
| LastPriceServiceHandler.ReadPrice | last-price-service/server/src/main/java/com/xxx/service/lastprice/LastPriceServiceHandler.java:105-125 | reading through the market state's record view gives what `LastPrice` gives on its bytes |
| LastPriceServiceHandler.CopyPriceOf | last-price-service/server/src/main/java/com/xxx/service/lastprice/LastPriceServiceHandler.java:117-121 | the SUCCESS branch through the record view is what `CopyPrice` gives |
| LastPriceServiceHandler.StartRun | last-price-service/server/src/main/java/com/xxx/service/lastprice/LastPriceServiceHandler.java:127-137 | with every id slot taken nothing is created; otherwise `create`, which throws only when no index is free, and never while every live run has its own id |
| LastPriceServiceHandler.MergeRunToMarket | last-price-service/server/src/main/java/com/xxx/service/lastprice/LastPriceServiceHandler.java:176 | the market state's records outside the run's included set are kept, the merge completes exactly when every included record merges and then each holds its merge; the run is unchanged |
| LastPriceServiceHandler.CompleteRun | last-price-service/server/src/main/java/com/xxx/service/lastprice/LastPriceServiceHandler.java:176-178 | the run is merged into the market state and removed exactly when the merge completes; a merge that throws keeps it |
| LastPriceServiceHandler.CompleteBatch | last-price-service/server/src/main/java/com/xxx/service/lastprice/LastPriceServiceHandler.java:170-181 | an unmapped batch id is not found and nothing changes; otherwise `CompleteRun` on the run the id maps to |
| LastPriceServiceHandler.CancelBatch | last-price-service/server/src/main/java/com/xxx/service/lastprice/LastPriceServiceHandler.java:183-191 | the run the id maps to, if any, is removed and its index freed; either way the id is no longer mapped |
| LastPriceServiceHandler.ShortRunRefuses | last-price-service/server/src/main/java/com/xxx/service/lastprice/LastPriceServiceHandler.java:65 | runs of MAX_ACTIVE_BATCHES_NUMBER records refuse to merge any staged instrument indexed at or past that number |
| LastPriceServiceHandler.RunCoversStaged | last-price-service/server/src/main/java/com/xxx/service/lastprice/LastPriceServiceHandler.java:65 | with one record per instrument, merging each staged record is the record update, never the out-of-range refusal |
| LastPriceServiceHandler.StartReplies | last-price-service/server/src/main/java/com/xxx/service/lastprice/LastPriceServiceHandler.java:127-137 | the start reply for what `StartRun` did; no other response changes |
| LastPriceServiceHandler.StartAnswered | last-price-service/server/src/main/java/com/xxx/service/lastprice/LastPriceServiceHandler.java:127-137 | `StartRun`'s outcome answered by `StartReplies` is `onStartBatchRun`: CAN_NOT_CREATE_BATCH when full, SUCCESS with the new id otherwise |
| LastPriceServiceHandler.Answer | last-price-service/server/src/main/java/com/xxx/service/lastprice/LastPriceServiceHandler.java:72-103 | a request that completes answers its response type; one that throws answers its exception |
| LastPriceServiceHandler.Handler.constructor | last-price-service/server/src/main/java/com/xxx/service/lastprice/LastPriceServiceHandler.java:62-69 | the indexer of the instruments, runs of one record per instrument, nothing mapped, no instrument with a price, zero-filled responses |
| LastPriceServiceHandler.Handler.AsWritten | last-price-service/server/src/main/java/com/xxx/service/lastprice/LastPriceServiceHandler.java:62-69 | as written, the repository's runs get MAX_ACTIVE_BATCHES_NUMBER records instead of one per instrument |
| LastPriceServiceHandler.Handler.OnLastPrice | last-price-service/server/src/main/java/com/xxx/service/lastprice/LastPriceServiceHandler.java:105-125 | the reply is `LastPrice` on the market state's bytes; only the last-price response changes |
| LastPriceServiceHandler.Handler.OnStartBatchRun | last-price-service/server/src/main/java/com/xxx/service/lastprice/LastPriceServiceHandler.java:127-137 | CAN_NOT_CREATE_BATCH with every id slot taken; otherwise a run created under the generated id at `now` and SUCCESS with that id; it never throws while ids and live runs match |
| LastPriceServiceHandler.Handler.OnUploadChunk | last-price-service/server/src/main/java/com/xxx/service/lastprice/LastPriceServiceHandler.java:139-168 | BATCH_RUN_NOT_FOUND for an unmapped id; otherwise the chunk staged and merged, its records joining the run's included set when the merge completes, the run saved exactly then, and the status of how it ended; the bookkeeping is kept |
| LastPriceServiceHandler.Handler.Upload | last-price-service/server/src/main/java/com/xxx/service/lastprice/LastPriceServiceHandler.java:139-168 | the repository's and the scratch run's part of `onUploadChunk`, including the growth of the live run's included set |
| LastPriceServiceHandler.Handler.OnCompleteBatch | last-price-service/server/src/main/java/com/xxx/service/lastprice/LastPriceServiceHandler.java:170-181 | BATCH_RUN_NOT_FOUND for an unmapped id; otherwise the run merged into the market state, removed with SUCCESS exactly when the merge completes |
| LastPriceServiceHandler.Handler.Complete | last-price-service/server/src/main/java/com/xxx/service/lastprice/LastPriceServiceHandler.java:170-181 | the repository's and the market state's part of `onCompleteBatch` |
| LastPriceServiceHandler.Handler.OnCancelBatchRun | last-price-service/server/src/main/java/com/xxx/service/lastprice/LastPriceServiceHandler.java:183-191 | SUCCESS whether or not the id is mapped; a mapped id's run is removed |
| LastPriceServiceHandler.Handler.CleanUpCycle | last-price-service/server/src/main/java/com/xxx/service/lastprice/LastPriceServiceHandler.java:193-195 | at most one outdated run is evicted, and only the oldest queued one; the replies, the market state and the scratch run are kept |
| LastPriceServiceHandler.EvictsOldestFirst | last-price-service/server/src/main/java/com/xxx/service/lastprice/BatchRunRepositoryImpl.java:94-98 | of two outdated queued runs, a clean-up cycle keeps the newer one queued and evicts exactly one run |
| LastPriceServiceHandler.Handler.Serve | last-price-service/server/src/main/java/com/xxx/service/lastprice/LastPriceServiceHandler.java:79-98 | each supported type goes to its operation as that operation's contract says (an upload's merged records join its run's included set, which a complete then merges into the market state); an unsupported type throws IllegalArgumentException and changes nothing |
| LastPriceServiceHandler.Handler.HandleRequest | last-price-service/server/src/main/java/com/xxx/service/lastprice/LastPriceServiceHandler.java:72-103 | the request is served as `Serve` says, with the run's included set as the operation left it, and answers its response type or its exception; a clean-up cycle follows whatever happened, evicting the oldest queued run when it is outdated |
| LastPriceServiceHandler.StagedOne | last-price-service/server/src/main/java/com/xxx/service/lastprice/LastPriceServiceHandler.java:145-161 | staging one record of a known ticker that does not throw, over a record that is not newer, includes exactly its index, and the record then holds the uploaded timestamp and payload |
| LastPriceServiceHandler.UploadedOne | last-price-service/server/src/main/java/com/xxx/service/lastprice/LastPriceServiceHandler.java:139-165 | a one-record upload of a known ticker that completes was staged whole, its index joins the run's included set, and the run's record holds the uploaded timestamp and payload when it held nothing newer |
| LastPriceServiceHandler.MergedWins | last-price-service/server/src/main/java/com/xxx/service/lastprice/BatchRun.java:55-58 | after a completed merge, a target record that held nothing newer than an included source record holds that record's timestamp and payload |
| LastPriceServiceHandler.LastPriceOfRecord | last-price-service/server/src/main/java/com/xxx/service/lastprice/LastPriceServiceHandler.java:105-125 | a known ticker whose market record has a non-zero timestamp and a stored payload is answered SUCCESS with that ticker, timestamp and payload |
| LastPriceServiceHandler.UploadedPriceServed | last-price-service/server/src/main/java/com/xxx/service/lastprice/LastPriceServiceHandler.java:105-181 | end to end, as the handler's test expects: after a one-record upload answered SUCCESS and a complete answered SUCCESS, the last price of that ticker answers SUCCESS with the ticker, the uploaded timestamp and the uploaded payload, when neither the run nor the market held a newer price |
| HandlerWiring.CreateOperationalBatchRun | last-price-service/server/src/main/java/com/xxx/service/lastprice/LastPriceServiceHandler.java:197-202 | the scratch run has index -1, one record per instrument and nothing included, bound at 0 to a fresh zero-filled buffer of its size |
| HandlerWiring.NoPriceYet | last-price-service/server/src/main/java/com/xxx/service/lastprice/LastPriceServiceHandler.java:68 | a zero-filled market state holds no price |
| HandlerWiring.Assemble | last-price-service/server/src/main/java/com/xxx/service/lastprice/LastPriceServiceHandler.java:62-69 | the market state, indexer, repository and scratch run fit together, nothing is mapped and no instrument has a price |
| HandlerWiring.Unbound | last-price-service/server/src/main/java/com/xxx/service/lastprice/LastPriceServiceHandler.java:63-66 | every part but the market state's buffer, fresh and apart |
| HandlerWiring.BindMarket | last-price-service/server/src/main/java/com/xxx/service/lastprice/LastPriceServiceHandler.java:68 | the market state is bound at 0 to a fresh zero-filled buffer of its size |

## Left out

- I/O, threads and locks are not modelled. The reader thread, the gateway's lock and the atomic `running` flag are sequential state. The SPSC inbound ring is a sequence the poller consumes.
- Aeron itself is not part of this model. `Publication` and `Subscription` are stand-ins:
  - an offer's result comes from an input sequence of offer codes;
  - whether a publication connects in time is an input;
  - a publication records the messages it accepted.
- `createServerPublication`/`createClientPublication` wait loops: their idle-strategy polling is replaced by that connect-in-time input.
- ReadCycleTask's polling loop is not modelled as a loop; its idle strategy and thread start are left out too. `Run` models one read cycle.
- `Server.start` is left out. Dispatch is modelled per inbound fragment.
- Clock readings, `aeron.nextCorrelationId` and the handler's id generator are parameters or input sequences.
- Offer loops on publications (`Settles`): the retry loops require that the offer codes eventually leave the retry set. Because of this the model does not capture one behaviour of the source: an endless run of BACK_PRESSURED or ADMIN_ACTION results makes `sendRequest`/`sendResponse` spin forever. This liveness gap is real in the source.
- BatchRunRepository.Repository.RemoveAll: modelled from the interface's description. The implementation in `BatchRunRepositoryImpl` has no `removeAll`.
- BatchRunRepository.NewPool: each run gets its own buffer of its size. The source slices one shared buffer at `i * size`; `RegionsApart` proves the source's regions never overlap, so both layouts behave alike. Aliasing through the shared buffer is not modelled.
- The handler's response messages are modelled as the values their setters are given (`Replies`), not as views over their allocated buffers. Request views are modelled by the values they read (`Request`, `ChunkRecord`).
- Tickers are `seq<char>`. Storing narrows each character to its low byte and reading widens the byte back (`Ticker.EncodeTicker`, `Ticker.DecodeTicker`); the round trip is proved for ASCII tickers only, since a wider character does not survive the narrowing.
- Message views are bound per call (`BindRequest`, `BindView`) instead of being kept wrapped from one call to the next.
- `UploadChunkRequest`'s chunk is read through the request's own buffer. The separate `uploadChunkBuffer` the client copies into is not modelled.
- Setters state their effect as a byte splice. What each field reads back is stated in separate lemmas, not in the setters' own ensures.
- `Valid` on a message does not carry the message type. Only the handler's dispatch on the header's type is modelled.
- System-property overrides of the configuration values are not modelled. Only the defaults are.
- `Object.hashCode`: `BatchRun.hashCode` is modelled as a function of the index alone; the value Java computes is not modelled.
- Exceptions are `Status`/`Result` values. `printStackTrace` and logging are left out.
- Exception messages are not modelled, only their types: for instance a client channel whose length prefix is negative makes `Server.Server.OnConnect` report NegativeArraySizeException without the JVM's message.
- Server.Server.OnConnect, Server.Server.OnMessage and ServiceGateway.ServiceGateway.OnFragment: the subscription is modelled as delivering each fragment as a buffer of exactly the fragment's length. In the source, the `FragmentAssembler` hands over Aeron's term buffer, or for a reassembled message its own expandable buffer, at an offset. So the source's reads past the end of a short fragment (a CREATE_CONNECTION command too short for its stream id or channel, or a fragment shorter than a message header) land in bytes of that term or reassembly buffer and in general do not throw. The source's behaviour on such fragments is not modelled: `OnMessage` and `OnConnect` require a full message header and `OnFragment` the bytes up to the client id, and on a command too short for its body it chooses to report IndexOutOfBoundsException.
- InboundRing.RingBuffer.Write: the padding record Agrona's ring inserts when a record would wrap past the end of the buffer is not modelled, so near the wrap `Footprint` undercounts the room a write takes and the model can accept a record the source's ring refuses.
- LastPriceServiceHandler.CopyPrice: when copying the payload throws, the reply keeps its previous payload value; the response bytes the source's `putPayload` may already have written before it throws (the new size field) are not modelled.
- ConnectionControlClient.NewCommand, and the handshake client's and the gateway's constructors, take a channel of at most 2^31 - 1 bytes, the longest byte array Java can hold.
- Channels are modelled as their UTF-8 bytes (`seq<byte>`): the encoding of a Java `String` by `putStringUtf8` and its decoding by `getStringUtf8`, including the replacement characters Java substitutes for malformed input and unpaired surrogates, are not modelled. This concerns CreateConnectionCommand.SetClientChannel, ConnectionControlClient.NewCommand, the ConnectionControlClient and ServiceGateway constructors and Server.Server.OnConnect.
- LastPriceServiceHandler.Handler.HandleRequest takes one `now` for the whole request. In the source the batch-run repository reads its `EpochClock` on each call, so the operation and the clean-up cycle in the `finally` block may see different times; the model does not let the two readings differ.
- Ticker.TickerAt reports IndexOutOfBounds for a negative stored length. Agrona's `AsciiSequenceView.wrap` accepts any length without a check and the failure only comes when the view is read; a negative length is never written by `PriceRecord`'s setter, which stores `instrument.length()`.
- InboundRing.RingBuffer.Write does not model Agrona's `checkTypeId` (a message type below 1) or `checkMsgLength` (a record longer than an eighth of the capacity) IllegalArgumentExceptions; every message type this system writes is positive and every message it writes is far shorter than the limit.

## Findings

| source | as written | input that shows it | evidently intended | confidence | as-written member | corrected member |
|---|---|---|---|---|---|---|
| core/client/src/main/java/com/xxx/core/client/pool/FixSizeObjectPool.java:45-49 | `freeInstance` checks the id but never puts it back in the free queue | a pool of size 1: acquire, free, acquire again: the pool is empty | the freed id joins the free queue and can be acquired again | not executed | FixSizeObjectPool.ReuseAfterFreeAsWritten | FixSizeObjectPool.ReuseAfterFree |
| last-price-service/server/src/main/java/com/xxx/service/lastprice/BatchRun.java:20-22 | the id is 8 bytes at offset 0, but the last-update time is written at offset 4, over the id's high half | create id 1 at time 1, then remove it: the id reads 2^32 + 1, so id 1 stays mapped to a freed run and `size` never drops | the time follows the id at offset 8 | not executed | RepositoryAsWritten.StaleMappingAfterRemove | BatchRunRepository.Repository.Remove |
| last-price-service/server/src/main/java/com/xxx/service/lastprice/LastPriceServiceHandler.java:65 | the repository's runs are built with MAX_ACTIVE_BATCHES_NUMBER records, not one per instrument | 101 instruments: a chunk for the instrument indexed 100 never merges into its run | runs hold one record per instrument | not executed | LastPriceServiceHandler.ShortRunRefuses | LastPriceServiceHandler.RunCoversStaged |
| last-price-service/server/src/main/java/com/xxx/service/lastprice/BatchRun.java:44-47 | `tryUpdateRecord` adds the index to the included set before the block's bounds check | index equal to the record count: IndexOutOfBoundsException, yet the index joins the included set | the index is included only after the update | not executed | BatchRun.BatchRun.TryUpdateRecordAsWritten | BatchRun.BatchRun.TryUpdateRecord |
| last-price-service/server/src/main/java/com/xxx/service/lastprice/LastPriceServiceHandler.java:139-168 | `onUploadChunk` never writes SUCCESS | an upload to an unknown batch, then a valid upload: the second answers BATCH_RUN_NOT_FOUND | SUCCESS exactly for a chunk merged and saved | not executed | LastPriceServiceHandler.UploadSuccessNotWritten | LastPriceServiceHandler.Handler.OnUploadChunk |
| last-price-service/messages/src/main/java/com/xxx/service/lastprice/messages/PriceRecordsChunk.java:29-37 | `addRecord` raises the record count before the setters validate the record | an 11-character ticker added to an empty chunk: IllegalArgumentException, yet the chunk counts one record | the count rises only for a record written in full | not executed | PriceRecordsChunk.OverlongTickerAsWritten | PriceRecordsChunk.OverlongTicker |
| last-price-service/messages/src/main/java/com/xxx/service/lastprice/messages/UploadChunkRequest.java:41-44 | `sizeInBytes` leaves out the chunk's 4-byte record count | a chunk of one record: the last 4 bytes of the record are not sent | header plus the chunk's full size | not executed | UploadChunkRequest.SizeAsWrittenCutsLastRecord | UploadChunkRequest.SizeCoversChunk |
