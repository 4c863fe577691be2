/**
  The gateway's internal handshake client (`ConnectionControlClient`): a
  service client with the reserved client id -1 whose only call sends the
  create-connection command and reads the connection id the server put in
  the acknowledgement.
*/
module ConnectionControlClient {
  import opened Bytes
  import opened Errors
  import opened Flyweight
  import opened Message
  import opened AeronPublication
  import opened ServerPublication
  import opened InboundRing
  import opened ServiceClient
  import opened ProtocolConfiguration
  import opened SystemMessageTypes
  import CreateConnectionCommand

  /** The client id reserved for the handshake client; pool ids are never negative. */
  const CONNECTION_CONTROL_CLIENT_ID: int32 := -1

  /** The handshake waits one second (in nanoseconds) for the acknowledgement. */
  const WAIT_TIMEOUT_NS: int64 := 1_000_000_000

  /** The handshake call as a whole: the acknowledgement that ends it, or the exception it ends with. */
  function Handshake(queue: seq<InboundRecord>, buffer: seq<byte>, clock: seq<int64>, correlationId: int64): Result<int64>
    requires |buffer| == MAX_RESPONSE_SIZE && CallReady(clock, WAIT_TIMEOUT_NS)
  {
    var a := Answer(Await(queue, buffer, clock, WAIT_TIMEOUT_NS, correlationId));
    if a.Err? then Err(a.error) else Ok(GetLong(a.value, CONNECTION_ID_FIELD_OFFSET))
  }

  /** A connection-acknowledgement as the server sends it: a bare header of type CONNECTION_ACK_MESSAGE_TYPE. */
  function AckBytes(connectionId: int64, correlationId: int64): (r: seq<byte>)
    ensures |r| == MESSAGE_HEADER_LENGTH
  {
    EncodeHeader(Header(CONNECTION_ACK_MESSAGE_TYPE, connectionId, CONNECTION_CONTROL_CLIENT_ID, correlationId))
  }

  /** The acknowledgement's header reads back the ids it was built from. */
  lemma AckHeader(connectionId: int64, correlationId: int64)
    ensures GetLong(AckBytes(connectionId, correlationId), CONNECTION_ID_FIELD_OFFSET) == connectionId
    ensures GetLong(AckBytes(connectionId, correlationId), CORRELATION_ID_FIELD_OFFSET) == correlationId
  {
    var a := AckBytes(connectionId, correlationId);
    assert a[CONNECTION_ID_FIELD_OFFSET..CONNECTION_ID_FIELD_OFFSET + SIZE_OF_LONG] == EncodeLong(connectionId);
    assert a[CORRELATION_ID_FIELD_OFFSET..CORRELATION_ID_FIELD_OFFSET + SIZE_OF_LONG] == EncodeLong(correlationId);
    DecodeEncodeLong(connectionId);
    DecodeEncodeLong(correlationId);
  }

  /**
    A handshake whose acknowledgement is already waiting in the client's
    ring returns the connection id the server put in it, whatever the clock
    says.
  */
  lemma AckedHandshake(rest: seq<InboundRecord>, buffer: seq<byte>, clock: seq<int64>, connectionId: int64, correlationId: int64)
    requires |buffer| == MAX_RESPONSE_SIZE && CallReady(clock, WAIT_TIMEOUT_NS)
    ensures Handshake([InboundRecord(CONNECTION_ACK_MESSAGE_TYPE, AckBytes(connectionId, correlationId))] + rest, buffer, clock, correlationId)
         == Ok(connectionId)
  {
    var ack := AckBytes(connectionId, correlationId);
    var queue := [InboundRecord(CONNECTION_ACK_MESSAGE_TYPE, ack)] + rest;
    AckHeader(connectionId, correlationId);
    WaitingResponseWins(queue, buffer, clock[1..], AddLong(clock[0], WAIT_TIMEOUT_NS), correlationId);
    var b := Splice(buffer, 0, ack);
    SpliceAt(buffer, 0, ack);
    assert b[CONNECTION_ID_FIELD_OFFSET..CONNECTION_ID_FIELD_OFFSET + SIZE_OF_LONG]
        == ack[CONNECTION_ID_FIELD_OFFSET..CONNECTION_ID_FIELD_OFFSET + SIZE_OF_LONG];
  }

  /** A handshake whose ring holds no acknowledgement for it ends in ConnectionTimeoutException. */
  lemma UnackedHandshake(queue: seq<InboundRecord>, buffer: seq<byte>, clock: seq<int64>, correlationId: int64)
    requires |buffer| == MAX_RESPONSE_SIZE && CallReady(clock, WAIT_TIMEOUT_NS)
    requires forall k | 0 <= k < |queue| :: Unrelated(queue[k], correlationId)
    ensures Handshake(queue, buffer, clock, correlationId) == Err(ConnectionTimeout)
  {
    UnansweredCallTimesOut(queue, buffer, clock, WAIT_TIMEOUT_NS, correlationId);
  }

  /** Writing the stream id leaves the channel that follows it as it was. */
  lemma StreamIdKeepsChannel(s: seq<byte>, v: int32)
    requires |s| >= CreateConnectionCommand.MESSAGE_SIZE
    ensures var t := Splice(s, CreateConnectionCommand.CLIENT_STREAM_ID_FIELD_OFFSET, EncodeInt(v));
      CreateConnectionCommand.StringAt(t, CreateConnectionCommand.CLIENT_CHANNEL_FIELD_OFFSET)
      == CreateConnectionCommand.StringAt(s, CreateConnectionCommand.CLIENT_CHANNEL_FIELD_OFFSET)
  {
    var pos := CreateConnectionCommand.CLIENT_CHANNEL_FIELD_OFFSET;
    var t := Splice(s, CreateConnectionCommand.CLIENT_STREAM_ID_FIELD_OFFSET, EncodeInt(v));
    SpliceElsewhere(s, CreateConnectionCommand.CLIENT_STREAM_ID_FIELD_OFFSET, EncodeInt(v), pos, |s| - pos);
    assert t[pos..pos + SIZE_OF_INT] == t[pos..][..SIZE_OF_INT] == s[pos..][..SIZE_OF_INT] == s[pos..pos + SIZE_OF_INT];
    var len := GetInt(s, pos);
    if 0 <= len && pos + SIZE_OF_INT + len <= |s| {
      assert t[pos + SIZE_OF_INT..pos + SIZE_OF_INT + len] == t[pos..][SIZE_OF_INT..SIZE_OF_INT + len];
      assert s[pos + SIZE_OF_INT..pos + SIZE_OF_INT + len] == s[pos..][SIZE_OF_INT..SIZE_OF_INT + len];
    }
  }

  /** The command's bytes once the channel and then the stream id are written past a header: both read back, and the header is kept. */
  lemma CommandBuilt(s0: seq<byte>, channel: seq<byte>, v: int32)
    requires |s0| >= CreateConnectionCommand.MESSAGE_SIZE && SIZE_OF_INT + |channel| <= MAX_CHANNEL_LENGTH
    ensures var t := Splice(Splice(s0, CreateConnectionCommand.CLIENT_CHANNEL_FIELD_OFFSET, CreateConnectionCommand.EncodeString(channel)),
                            CreateConnectionCommand.CLIENT_STREAM_ID_FIELD_OFFSET, EncodeInt(v));
      && HeaderAt(t, 0) == HeaderAt(s0, 0)
      && CreateConnectionCommand.StringAt(t, CreateConnectionCommand.CLIENT_CHANNEL_FIELD_OFFSET) == Ok(channel)
      && GetInt(t, CreateConnectionCommand.CLIENT_STREAM_ID_FIELD_OFFSET) == v
  {
    var pos := CreateConnectionCommand.CLIENT_CHANNEL_FIELD_OFFSET;
    var s1 := Splice(s0, pos, CreateConnectionCommand.EncodeString(channel));
    CreateConnectionCommand.StringRoundTrip(s0, pos, channel);
    HeaderAfterBodyWrite(s0, 0, pos, CreateConnectionCommand.EncodeString(channel));
    HeaderAfterBodyWrite(s1, 0, CreateConnectionCommand.CLIENT_STREAM_ID_FIELD_OFFSET, EncodeInt(v));
    GetPutInt(s1, CreateConnectionCommand.CLIENT_STREAM_ID_FIELD_OFFSET, v);
    StreamIdKeepsChannel(s1, v);
  }

  /** A change confined to the header leaves the stream id and the channel of the command as they were. */
  lemma HeaderChangeKeepsBody(s: seq<byte>, t: seq<byte>)
    requires |s| >= CreateConnectionCommand.MESSAGE_SIZE && SameOutside(s, t, 0, MESSAGE_HEADER_LENGTH)
    ensures GetInt(t, CreateConnectionCommand.CLIENT_STREAM_ID_FIELD_OFFSET) == GetInt(s, CreateConnectionCommand.CLIENT_STREAM_ID_FIELD_OFFSET)
    ensures CreateConnectionCommand.StringAt(t, CreateConnectionCommand.CLIENT_CHANNEL_FIELD_OFFSET)
         == CreateConnectionCommand.StringAt(s, CreateConnectionCommand.CLIENT_CHANNEL_FIELD_OFFSET)
  {
    var pos := CreateConnectionCommand.CLIENT_CHANNEL_FIELD_OFFSET;
    SameOutsideInt(s, t, 0, MESSAGE_HEADER_LENGTH, CreateConnectionCommand.CLIENT_STREAM_ID_FIELD_OFFSET);
    SameOutsideInt(s, t, 0, MESSAGE_HEADER_LENGTH, pos);
    var len := GetInt(s, pos);
    if 0 <= len && pos + SIZE_OF_INT + len <= |s| {
      SameOutsideSlice(s, t, 0, MESSAGE_HEADER_LENGTH, pos + SIZE_OF_INT, pos + SIZE_OF_INT + len);
    }
  }

  /**
    The command's bytes once the call has stamped it, sent through a
    publication (`routed`) or not: the header of a routed command holds the
    three ids, and its stream id and channel are kept either way.
  */
  lemma CommandStamped(s0: seq<byte>, s: seq<byte>, routed: bool, connectionId: int64, correlationId: int64)
    requires |s0| >= CreateConnectionCommand.MESSAGE_SIZE
    requires routed ==> s == Routed(s0, 0, connectionId, CONNECTION_CONTROL_CLIENT_ID, correlationId)
    requires !routed ==> s == Started(s0, 0, CONNECTION_CONTROL_CLIENT_ID, correlationId)
    ensures routed ==> HeaderAt(s, 0) == HeaderAt(s0, 0).(connectionId := connectionId, clientId := CONNECTION_CONTROL_CLIENT_ID, correlationId := correlationId)
    ensures GetInt(s, CreateConnectionCommand.CLIENT_STREAM_ID_FIELD_OFFSET) == GetInt(s0, CreateConnectionCommand.CLIENT_STREAM_ID_FIELD_OFFSET)
    ensures CreateConnectionCommand.StringAt(s, CreateConnectionCommand.CLIENT_CHANNEL_FIELD_OFFSET)
         == CreateConnectionCommand.StringAt(s0, CreateConnectionCommand.CLIENT_CHANNEL_FIELD_OFFSET)
  {
    if routed {
      RoutedHeader(s0, 0, connectionId, CONNECTION_CONTROL_CLIENT_ID, correlationId);
    } else {
      StartedHeader(s0, 0, CONNECTION_CONTROL_CLIENT_ID, correlationId);
    }
    HeaderChangeKeepsBody(s0, s);
  }

  /**
    The create-connection command in a buffer of exactly its message size,
    carrying the channel and the stream id. The channel setter has no cap of
    its own, so a channel whose prefixed bytes do not fit the MESSAGE_SIZE
    buffer fails Agrona's bounds check with IndexOutOfBoundsException, and
    the stream id is then not written.
  */
  method NewCommand(clientChannel: seq<byte>, clientStreamId: int32) returns (m: Flyweight, r: Status)
    requires |clientChannel| <= CreateConnectionCommand.MAX_STRING_BYTES
    ensures fresh(m) && fresh(m.writeBuffer)
    ensures CanWrite(m, 0, CreateConnectionCommand.MESSAGE_SIZE) && m.offset == 0
    ensures HeaderOf(m) == Header(CREATE_CONNECTION_MESSAGE_TYPE, 0, 0, 0)
    ensures r == Done <==> SIZE_OF_INT + |clientChannel| <= MAX_CHANNEL_LENGTH
    ensures r != Done ==> r == Thrown(IndexOutOfBounds)
    ensures r == Done ==> CreateConnectionCommand.ClientChannel(m) == Ok(clientChannel)
    ensures r == Done ==> CreateConnectionCommand.ClientStreamId(m) == clientStreamId
  {
    m := new Flyweight();
    AllocateMemoryForMessage(m, CreateConnectionCommand.SizeInBytes(), CreateConnectionCommand.UniqueType());
    ghost var s0 := m.writeBuffer[..];
    r := CreateConnectionCommand.SetClientChannel(m, clientChannel);
    if r != Done {
      return;
    }
    CommandBuilt(s0, clientChannel, clientStreamId);
    CreateConnectionCommand.SetClientStreamId(m, clientStreamId);
  }

  class ConnectionControlClient {
    const client: ServiceClient
    /** The create-connection command, built once. */
    const command: Flyweight
    /** The acknowledgement view over the client's response buffer. */
    const ack: Flyweight
    /** How construction ended: a constructor that throws leaves no client to use. */
    const built: Status

    ghost predicate Valid()
      reads client.poller.ring, command, ack
    {
      && built == Done
      && client.Valid() && client.clientId == CONNECTION_CONTROL_CLIENT_ID && client.waitTimeoutNs == WAIT_TIMEOUT_NS
      && CanWrite(command, 0, CreateConnectionCommand.MESSAGE_SIZE) && command.offset == 0
      && command.writeBuffer != client.poller.buffer
      && ack.readBuffer == client.poller.buffer && ack.offset == 0
    }

    /**
      Builds the command once: the message is allocated, and the channel
      and stream id the server should answer on are written into it. A
      channel too long for the command's buffer throws
      IndexOutOfBoundsException (`built`), and the client is not usable.
    */
    constructor (clientChannel: seq<byte>, clientStreamId: int32, registration: Registration, ring: RingBuffer)
      requires ring.Valid() && |clientChannel| <= CreateConnectionCommand.MAX_STRING_BYTES
      ensures built == Done <==> SIZE_OF_INT + |clientChannel| <= MAX_CHANNEL_LENGTH
      ensures built != Done ==> built == Thrown(IndexOutOfBounds)
      ensures built == Done ==> Valid()
      ensures client.registration == registration && client.poller.ring == ring
      ensures fresh(client) && fresh(client.poller) && fresh(client.poller.buffer) && fresh(command.writeBuffer)
      ensures CanWrite(command, 0, CreateConnectionCommand.MESSAGE_SIZE) && command.offset == 0
      ensures HeaderOf(command) == Header(CREATE_CONNECTION_MESSAGE_TYPE, 0, 0, 0)
      ensures built == Done ==> CreateConnectionCommand.ClientChannel(command) == Ok(clientChannel)
      ensures built == Done ==> CreateConnectionCommand.ClientStreamId(command) == clientStreamId
    {
      var c := new ServiceClient(CONNECTION_CONTROL_CLIENT_ID, registration, WAIT_TIMEOUT_NS, ring);
      var view := new Flyweight();
      view.WrapForRead(c.poller.buffer, 0);
      var m, r := NewCommand(clientChannel, clientStreamId);
      client, command, ack, built := c, m, view, r;
    }

    /**
      `connect`: the command goes out stamped with the handshake client's
      id and the correlation id, and the connection id is read from the
      acknowledgement the call ends with; a failed send or a timeout ends
      it with that exception instead. The command's channel and stream id
      survive for the next connect.
    */
    method Connect(correlationId: int64, clock: seq<int64>, offers: seq<int>) returns (r: Result<int64>, ghost sent: Status)
      requires Valid() && CallReady(clock, WAIT_TIMEOUT_NS)
      requires client.registration.publication != null && !client.registration.publication.publication.closed ==> Settles(offers, true)
      modifies command.writeBuffer, client.poller, client.poller.buffer, client.poller.ring
      modifies if client.registration.publication != null then {client.registration.publication.publication} else {}
      ensures Valid()
      ensures client.registration.publication == null || old(client.registration.publication.publication.closed) ==>
        command.writeBuffer[..] == Started(old(command.writeBuffer[..]), 0, CONNECTION_CONTROL_CLIENT_ID, correlationId)
      ensures client.registration.publication != null && !old(client.registration.publication.publication.closed) ==>
        command.writeBuffer[..] == Routed(old(command.writeBuffer[..]), 0, client.registration.publication.connectionId,
                                          CONNECTION_CONTROL_CLIENT_ID, correlationId)
      ensures client.registration.publication == null ==> sent == Thrown(NullPointer)
      ensures client.registration.publication != null && old(client.registration.publication.publication.closed) ==> sent == Thrown(IllegalState)
      ensures sent == Done || sent == Thrown(NullPointer) || sent == Thrown(IllegalState)
      ensures client.registration.publication != null && !old(client.registration.publication.publication.closed) ==>
        (sent == Done <==> Outcome(offers, true) == Accepted)
      ensures sent != Done ==> r == Err(sent.error)
      ensures sent == Done ==>
        && client.registration.publication != null
        && client.registration.publication.publication.log
           == old(client.registration.publication.publication.log) + [command.writeBuffer[..CreateConnectionCommand.MESSAGE_SIZE]]
        && r == Handshake(old(client.poller.ring.records), old(client.poller.buffer[..]), clock, correlationId)
    {
      ghost var q0, b0 := client.poller.ring.records, client.poller.buffer[..];
      var status;
      status, sent := client.MakeCall(command, CreateConnectionCommand.MESSAGE_SIZE, correlationId, clock, offers);
      if status.Err? {
        return Err(status.error), sent;
      }
      assert client.poller.buffer[..] == Answer(Await(q0, b0, clock, WAIT_TIMEOUT_NS, correlationId)).value;
      r := Ok(ConnectionId(ack));
    }
  }
}
