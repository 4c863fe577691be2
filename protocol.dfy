/** Message types reserved by the runtime itself for the connection handshake. */
module SystemMessageTypes {
  const CREATE_CONNECTION_MESSAGE_TYPE := 1
  const CONNECTION_ACK_MESSAGE_TYPE := 2
}

/** Runtime limits (their property-file overrides are not modelled). */
module ProtocolConfiguration {
  const MAX_CHANNEL_LENGTH: nat := 256
}

/**
  The handshake command a client sends to open a connection: the stream id
  and channel on which the server should publish its responses. The channel
  is stored as a length-prefixed string: a 4-byte length and then its bytes
  (the model takes the channel as its already UTF-8-encoded bytes).
*/
module CreateConnectionCommand {
  import opened Bytes
  import opened Errors
  import opened Flyweight
  import opened Message
  import opened SystemMessageTypes
  import opened ProtocolConfiguration

  const CLIENT_STREAM_ID_FIELD_OFFSET: nat := MESSAGE_HEADER_LENGTH
  const CLIENT_CHANNEL_FIELD_OFFSET: nat := CLIENT_STREAM_ID_FIELD_OFFSET + SIZE_OF_INT
  const MESSAGE_SIZE: nat := CLIENT_CHANNEL_FIELD_OFFSET + MAX_CHANNEL_LENGTH

  const MAX_STRING_BYTES: nat := 0x7FFF_FFFF

  /** A length-prefixed string as Agrona's `putStringUtf8` lays it out. */
  function EncodeString(bytes: seq<byte>): (r: seq<byte>)
    requires |bytes| <= MAX_STRING_BYTES
    ensures |r| == SIZE_OF_INT + |bytes|
  {
    EncodeInt(|bytes|) + bytes
  }

  /**
    Agrona's `getStringUtf8`: the length at `pos`, then that many bytes; a
    negative length fails allocating the byte array
    (NegativeArraySizeException), and one that runs past the buffer is out
    of bounds.
  */
  function StringAt(s: seq<byte>, pos: int): Result<seq<byte>>
    requires 0 <= pos && pos + SIZE_OF_INT <= |s|
  {
    var len := GetInt(s, pos);
    if len < 0 then Err(NegativeArraySize)
    else if pos + SIZE_OF_INT + len > |s| then Err(IndexOutOfBounds)
    else Ok(s[pos + SIZE_OF_INT..pos + SIZE_OF_INT + len])
  }

  /** A string written at `pos` reads back as the same bytes. */
  lemma StringRoundTrip(s: seq<byte>, pos: int, bytes: seq<byte>)
    requires |bytes| <= MAX_STRING_BYTES
    requires 0 <= pos && pos + SIZE_OF_INT + |bytes| <= |s|
    ensures StringAt(Splice(s, pos, EncodeString(bytes)), pos) == Ok(bytes)
  {
    var t := Splice(s, pos, EncodeString(bytes));
    var e := EncodeString(bytes);
    SpliceAt(s, pos, e);
    assert t[pos..pos + |e|] == e;
    assert t[pos..pos + SIZE_OF_INT] == e[..SIZE_OF_INT] == EncodeInt(|bytes|);
    assert t[pos + SIZE_OF_INT..pos + |e|] == e[SIZE_OF_INT..] == bytes;
    DecodeEncodeInt(|bytes|);
  }

  function ClientStreamId(m: Flyweight): int32
    reads m, m.readBuffer
    requires CanRead(m, CLIENT_STREAM_ID_FIELD_OFFSET, SIZE_OF_INT)
  {
    ReadInt(m, CLIENT_STREAM_ID_FIELD_OFFSET)
  }

  function ClientChannel(m: Flyweight): Result<seq<byte>>
    reads m, m.readBuffer
    requires CanRead(m, CLIENT_CHANNEL_FIELD_OFFSET, SIZE_OF_INT)
  {
    StringAt(m.readBuffer[..], m.offset + CLIENT_CHANNEL_FIELD_OFFSET)
  }

  /** The stream id is stored at 24; the header and the channel bytes stay as they were. */
  method SetClientStreamId(m: Flyweight, v: int32)
    requires CanWrite(m, 0, CLIENT_CHANNEL_FIELD_OFFSET)
    modifies m.writeBuffer
    ensures m.writeBuffer[..] == Splice(old(m.writeBuffer[..]), m.offset + CLIENT_STREAM_ID_FIELD_OFFSET, EncodeInt(v))
  {
    WriteInt(m, CLIENT_STREAM_ID_FIELD_OFFSET, v);
  }

  /**
    The channel setter: no check against MAX_CHANNEL_LENGTH of its own, only
    Agrona's check that the prefixed string fits the buffer.
  */
  method SetClientChannel(m: Flyweight, channel: seq<byte>) returns (r: Status)
    requires |channel| <= MAX_STRING_BYTES
    requires CanWrite(m, 0, CLIENT_CHANNEL_FIELD_OFFSET)
    modifies m.writeBuffer
    ensures r == Done <==> m.offset + CLIENT_CHANNEL_FIELD_OFFSET + SIZE_OF_INT + |channel| <= m.writeBuffer.Length
    ensures r == Done ==> m.writeBuffer[..] == Splice(old(m.writeBuffer[..]), m.offset + CLIENT_CHANNEL_FIELD_OFFSET, EncodeString(channel))
    ensures r == Done ==> ClientChannel(m) == Ok(channel)
    ensures r != Done ==> r == Thrown(IndexOutOfBounds) && m.writeBuffer[..] == old(m.writeBuffer[..])
  {
    var pos := m.offset + CLIENT_CHANNEL_FIELD_OFFSET;
    if pos + SIZE_OF_INT + |channel| > m.writeBuffer.Length {
      return Thrown(IndexOutOfBounds);
    }
    ghost var before := m.writeBuffer[..];
    StringRoundTrip(before, pos, channel);
    WriteBytes(m, CLIENT_CHANNEL_FIELD_OFFSET, EncodeString(channel));
    assert m.readBuffer == m.writeBuffer;
    r := Done;
  }

  /** A channel within the cap lies inside the MESSAGE_SIZE bytes that are sent. */
  lemma CappedChannelFitsMessage(s: seq<byte>, channel: seq<byte>)
    requires SIZE_OF_INT + |channel| <= MAX_CHANNEL_LENGTH && |s| >= MESSAGE_SIZE
    ensures StringAt(Splice(s, CLIENT_CHANNEL_FIELD_OFFSET, EncodeString(channel))[..MESSAGE_SIZE], CLIENT_CHANNEL_FIELD_OFFSET) == Ok(channel)
  {
    var e := EncodeString(channel);
    var t := Splice(s, CLIENT_CHANNEL_FIELD_OFFSET, e);
    var u := Splice(s[..MESSAGE_SIZE], CLIENT_CHANNEL_FIELD_OFFSET, e);
    StringRoundTrip(s[..MESSAGE_SIZE], CLIENT_CHANNEL_FIELD_OFFSET, channel);
    SpliceAt(s, CLIENT_CHANNEL_FIELD_OFFSET, e);
    SpliceAt(s[..MESSAGE_SIZE], CLIENT_CHANNEL_FIELD_OFFSET, e);
    forall k | 0 <= k < MESSAGE_SIZE
      ensures t[..MESSAGE_SIZE][k] == u[k]
    {
    }
    assert t[..MESSAGE_SIZE] == u;
  }

  function SizeInBytes(): nat { MESSAGE_SIZE }

  function UniqueType(): int32 { CREATE_CONNECTION_MESSAGE_TYPE }
}

/**
  The server's answer to a handshake: a bare header whose connectionId field
  carries the id the server assigned to the new connection.
*/
module ConnectionAckResponse {
  import opened Bytes
  import opened Message
  import opened SystemMessageTypes

  const MESSAGE_SIZE: nat := MESSAGE_HEADER_LENGTH

  function SizeInBytes(): nat { MESSAGE_SIZE }

  function UniqueType(): int32 { CONNECTION_ACK_MESSAGE_TYPE }

  /**
    The ack is exactly a header, so everything it says is in the header: an
    ack whose connectionId is stamped with `id` reads back `id` and its type.
  */
  lemma AckCarriesConnectionId(s: seq<byte>, base: int, id: int64)
    requires 0 <= base && base + MESSAGE_SIZE <= |s|
    requires HeaderAt(s, base).msgType == UniqueType()
    ensures HeaderAt(Splice(s, base + CONNECTION_ID_FIELD_OFFSET, EncodeLong(id)), base).connectionId == id
    ensures HeaderAt(Splice(s, base + CONNECTION_ID_FIELD_OFFSET, EncodeLong(id)), base).msgType == CONNECTION_ACK_MESSAGE_TYPE
  {
    PutConnectionIdAt(s, base, id);
  }
}
