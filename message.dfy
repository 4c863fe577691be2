/**
  The common header every message of the system starts with: the message
  type, the server-side connection id, the client id and the correlation id
  that pairs a response with its request. A concrete message is a flyweight
  whose own fields follow the header.
*/
module Message {
  import opened Bytes
  import opened Flyweight

  const TYPE_FIELD_OFFSET: nat := 0
  const CONNECTION_ID_FIELD_OFFSET: nat := TYPE_FIELD_OFFSET + SIZE_OF_INT
  const CLIENT_ID_FIELD_OFFSET: nat := CONNECTION_ID_FIELD_OFFSET + SIZE_OF_LONG
  const CORRELATION_ID_FIELD_OFFSET: nat := CLIENT_ID_FIELD_OFFSET + SIZE_OF_INT
  const MESSAGE_HEADER_LENGTH: nat := CORRELATION_ID_FIELD_OFFSET + SIZE_OF_LONG

  datatype Header = Header(msgType: int32, connectionId: int64, clientId: int32, correlationId: int64)

  /** The header stored at `base` in a buffer's bytes. */
  function HeaderAt(s: seq<byte>, base: int): Header
    requires 0 <= base && base + MESSAGE_HEADER_LENGTH <= |s|
  {
    Header(GetInt(s, base + TYPE_FIELD_OFFSET), GetLong(s, base + CONNECTION_ID_FIELD_OFFSET),
           GetInt(s, base + CLIENT_ID_FIELD_OFFSET), GetLong(s, base + CORRELATION_ID_FIELD_OFFSET))
  }

  /** A header as its bytes on the wire. */
  function EncodeHeader(h: Header): (r: seq<byte>)
    ensures |r| == MESSAGE_HEADER_LENGTH
  {
    EncodeInt(h.msgType) + EncodeLong(h.connectionId) + EncodeInt(h.clientId) + EncodeLong(h.correlationId)
  }

  /** An encoded header reads back as the header it encodes. */
  lemma HeaderRoundTrip(h: Header)
    ensures HeaderAt(EncodeHeader(h), 0) == h
  {
    var s := EncodeHeader(h);
    assert s[TYPE_FIELD_OFFSET..CONNECTION_ID_FIELD_OFFSET] == EncodeInt(h.msgType);
    assert s[CONNECTION_ID_FIELD_OFFSET..CLIENT_ID_FIELD_OFFSET] == EncodeLong(h.connectionId);
    assert s[CLIENT_ID_FIELD_OFFSET..CORRELATION_ID_FIELD_OFFSET] == EncodeInt(h.clientId);
    assert s[CORRELATION_ID_FIELD_OFFSET..MESSAGE_HEADER_LENGTH] == EncodeLong(h.correlationId);
    DecodeEncodeInt(h.msgType);
    DecodeEncodeLong(h.connectionId);
    DecodeEncodeInt(h.clientId);
    DecodeEncodeLong(h.correlationId);
  }

  /** A header's bytes are the encoding of the header they store, and nothing else encodes it. */
  lemma HeaderBytes(s: seq<byte>)
    requires |s| == MESSAGE_HEADER_LENGTH
    ensures EncodeHeader(HeaderAt(s, 0)) == s
  {
    HeaderFields(s);
    EncodeDecoded(s[TYPE_FIELD_OFFSET..CONNECTION_ID_FIELD_OFFSET], s[CONNECTION_ID_FIELD_OFFSET..CLIENT_ID_FIELD_OFFSET],
                  s[CLIENT_ID_FIELD_OFFSET..CORRELATION_ID_FIELD_OFFSET], s[CORRELATION_ID_FIELD_OFFSET..MESSAGE_HEADER_LENGTH]);
  }

  /** A header's bytes are its four fields' bytes in order, and each field decodes from its own bytes. */
  lemma HeaderFields(s: seq<byte>)
    requires |s| == MESSAGE_HEADER_LENGTH
    ensures var a, b := s[TYPE_FIELD_OFFSET..CONNECTION_ID_FIELD_OFFSET], s[CONNECTION_ID_FIELD_OFFSET..CLIENT_ID_FIELD_OFFSET];
      var c, d := s[CLIENT_ID_FIELD_OFFSET..CORRELATION_ID_FIELD_OFFSET], s[CORRELATION_ID_FIELD_OFFSET..MESSAGE_HEADER_LENGTH];
      HeaderAt(s, 0) == Header(DecodeInt(a), DecodeLong(b), DecodeInt(c), DecodeLong(d)) && s == a + b + c + d
  {
  }

  /** Four fields' bytes, decoded into a header, encode back to the same bytes. */
  lemma EncodeDecoded(a: seq<byte>, b: seq<byte>, c: seq<byte>, d: seq<byte>)
    requires |a| == |c| == SIZE_OF_INT && |b| == |d| == SIZE_OF_LONG
    ensures EncodeHeader(Header(DecodeInt(a), DecodeLong(b), DecodeInt(c), DecodeLong(d))) == a + b + c + d
  {
    EncodeDecodeInt(a);
    EncodeDecodeLong(b);
    EncodeDecodeInt(c);
    EncodeDecodeLong(d);
  }

  /** Writing one header field changes that field of the header and no other. */
  lemma PutTypeAt(s: seq<byte>, base: int, v: int32)
    requires 0 <= base && base + MESSAGE_HEADER_LENGTH <= |s|
    ensures HeaderAt(Splice(s, base + TYPE_FIELD_OFFSET, EncodeInt(v)), base) == HeaderAt(s, base).(msgType := v)
  {
    var p, e := base + TYPE_FIELD_OFFSET, EncodeInt(v);
    GetPutInt(s, p, v);
    GetLongElsewhere(s, p, e, base + CONNECTION_ID_FIELD_OFFSET);
    GetIntElsewhere(s, p, e, base + CLIENT_ID_FIELD_OFFSET);
    GetLongElsewhere(s, p, e, base + CORRELATION_ID_FIELD_OFFSET);
  }

  lemma PutConnectionIdAt(s: seq<byte>, base: int, v: int64)
    requires 0 <= base && base + MESSAGE_HEADER_LENGTH <= |s|
    ensures HeaderAt(Splice(s, base + CONNECTION_ID_FIELD_OFFSET, EncodeLong(v)), base) == HeaderAt(s, base).(connectionId := v)
  {
    var p, e := base + CONNECTION_ID_FIELD_OFFSET, EncodeLong(v);
    GetIntElsewhere(s, p, e, base + TYPE_FIELD_OFFSET);
    GetPutLong(s, p, v);
    GetIntElsewhere(s, p, e, base + CLIENT_ID_FIELD_OFFSET);
    GetLongElsewhere(s, p, e, base + CORRELATION_ID_FIELD_OFFSET);
  }

  lemma PutClientIdAt(s: seq<byte>, base: int, v: int32)
    requires 0 <= base && base + MESSAGE_HEADER_LENGTH <= |s|
    ensures HeaderAt(Splice(s, base + CLIENT_ID_FIELD_OFFSET, EncodeInt(v)), base) == HeaderAt(s, base).(clientId := v)
  {
    var p, e := base + CLIENT_ID_FIELD_OFFSET, EncodeInt(v);
    GetIntElsewhere(s, p, e, base + TYPE_FIELD_OFFSET);
    GetLongElsewhere(s, p, e, base + CONNECTION_ID_FIELD_OFFSET);
    GetPutInt(s, p, v);
    GetLongElsewhere(s, p, e, base + CORRELATION_ID_FIELD_OFFSET);
  }

  lemma PutCorrelationIdAt(s: seq<byte>, base: int, v: int64)
    requires 0 <= base && base + MESSAGE_HEADER_LENGTH <= |s|
    ensures HeaderAt(Splice(s, base + CORRELATION_ID_FIELD_OFFSET, EncodeLong(v)), base) == HeaderAt(s, base).(correlationId := v)
  {
    var p, e := base + CORRELATION_ID_FIELD_OFFSET, EncodeLong(v);
    GetIntElsewhere(s, p, e, base + TYPE_FIELD_OFFSET);
    GetLongElsewhere(s, p, e, base + CONNECTION_ID_FIELD_OFFSET);
    GetIntElsewhere(s, p, e, base + CLIENT_ID_FIELD_OFFSET);
    GetPutLong(s, p, v);
  }

  /** A write past the header leaves the header as it was. */
  lemma HeaderAfterBodyWrite(s: seq<byte>, base: int, pos: int, bytes: seq<byte>)
    requires 0 <= base && base + MESSAGE_HEADER_LENGTH <= |s|
    requires base + MESSAGE_HEADER_LENGTH <= pos && pos + |bytes| <= |s|
    ensures HeaderAt(Splice(s, pos, bytes), base) == HeaderAt(s, base)
  {
    GetIntElsewhere(s, pos, bytes, base + TYPE_FIELD_OFFSET);
    GetLongElsewhere(s, pos, bytes, base + CONNECTION_ID_FIELD_OFFSET);
    GetIntElsewhere(s, pos, bytes, base + CLIENT_ID_FIELD_OFFSET);
    GetLongElsewhere(s, pos, bytes, base + CORRELATION_ID_FIELD_OFFSET);
  }

  /** A header below a changed region reads the same. */
  lemma HeaderOutside(s: seq<byte>, t: seq<byte>, base: int, lo: int, hi: int)
    requires SameOutside(s, t, lo, hi)
    requires 0 <= base && base + MESSAGE_HEADER_LENGTH <= lo
    ensures HeaderAt(t, base) == HeaderAt(s, base)
  {
    SameOutsideSlice(s, t, lo, hi, base + TYPE_FIELD_OFFSET, base + TYPE_FIELD_OFFSET + SIZE_OF_INT);
    SameOutsideSlice(s, t, lo, hi, base + CONNECTION_ID_FIELD_OFFSET, base + CONNECTION_ID_FIELD_OFFSET + SIZE_OF_LONG);
    SameOutsideSlice(s, t, lo, hi, base + CLIENT_ID_FIELD_OFFSET, base + CLIENT_ID_FIELD_OFFSET + SIZE_OF_INT);
    SameOutsideSlice(s, t, lo, hi, base + CORRELATION_ID_FIELD_OFFSET, base + CORRELATION_ID_FIELD_OFFSET + SIZE_OF_LONG);
  }

  /** The header of a message view lies inside its buffer. */
  predicate HasHeader(m: Flyweight)
    reads m
  {
    CanRead(m, 0, MESSAGE_HEADER_LENGTH)
  }

  predicate HeaderWritable(m: Flyweight)
    reads m
  {
    CanWrite(m, 0, MESSAGE_HEADER_LENGTH)
  }

  function HeaderOf(m: Flyweight): Header
    reads m, m.readBuffer
    requires HasHeader(m)
  {
    HeaderAt(m.readBuffer[..], m.offset)
  }

  function Type(m: Flyweight): int32
    reads m, m.readBuffer
    requires HasHeader(m)
  {
    ReadInt(m, TYPE_FIELD_OFFSET)
  }

  function ConnectionId(m: Flyweight): int64
    reads m, m.readBuffer
    requires HasHeader(m)
  {
    ReadLong(m, CONNECTION_ID_FIELD_OFFSET)
  }

  function ClientId(m: Flyweight): int32
    reads m, m.readBuffer
    requires HasHeader(m)
  {
    ReadInt(m, CLIENT_ID_FIELD_OFFSET)
  }

  function CorrelationId(m: Flyweight): int64
    reads m, m.readBuffer
    requires HasHeader(m)
  {
    ReadLong(m, CORRELATION_ID_FIELD_OFFSET)
  }

  method SetType(m: Flyweight, v: int32)
    requires HeaderWritable(m)
    modifies m.writeBuffer
    ensures m.writeBuffer[..] == Splice(old(m.writeBuffer[..]), m.offset + TYPE_FIELD_OFFSET, EncodeInt(v))
    ensures HeaderOf(m) == old(HeaderOf(m)).(msgType := v)
  {
    PutTypeAt(m.writeBuffer[..], m.offset, v);
    WriteInt(m, TYPE_FIELD_OFFSET, v);
  }

  method SetConnectionId(m: Flyweight, v: int64)
    requires HeaderWritable(m)
    modifies m.writeBuffer
    ensures m.writeBuffer[..] == Splice(old(m.writeBuffer[..]), m.offset + CONNECTION_ID_FIELD_OFFSET, EncodeLong(v))
  {
    WriteLong(m, CONNECTION_ID_FIELD_OFFSET, v);
  }

  method SetClientId(m: Flyweight, v: int32)
    requires HeaderWritable(m)
    modifies m.writeBuffer
    ensures m.writeBuffer[..] == Splice(old(m.writeBuffer[..]), m.offset + CLIENT_ID_FIELD_OFFSET, EncodeInt(v))
  {
    WriteInt(m, CLIENT_ID_FIELD_OFFSET, v);
  }

  method SetCorrelationId(m: Flyweight, v: int64)
    requires HeaderWritable(m)
    modifies m.writeBuffer
    ensures m.writeBuffer[..] == Splice(old(m.writeBuffer[..]), m.offset + CORRELATION_ID_FIELD_OFFSET, EncodeLong(v))
  {
    WriteLong(m, CORRELATION_ID_FIELD_OFFSET, v);
  }

  /**
    A message's own `int` field past the header: the value reads back and the
    header is untouched.
  */
  method SetIntField(m: Flyweight, rel: int, v: int32)
    requires HeaderWritable(m) && CanWrite(m, rel, SIZE_OF_INT) && MESSAGE_HEADER_LENGTH <= rel
    modifies m.writeBuffer
    ensures m.writeBuffer[..] == Splice(old(m.writeBuffer[..]), m.offset + rel, EncodeInt(v))
    ensures ReadInt(m, rel) == v && HeaderOf(m) == old(HeaderOf(m))
  {
    GetPutInt(m.writeBuffer[..], m.offset + rel, v);
    HeaderAfterBodyWrite(m.writeBuffer[..], m.offset, m.offset + rel, EncodeInt(v));
    WriteInt(m, rel, v);
  }

  /** A message's own `long` field past the header. */
  method SetLongField(m: Flyweight, rel: int, v: int64)
    requires HeaderWritable(m) && CanWrite(m, rel, SIZE_OF_LONG) && MESSAGE_HEADER_LENGTH <= rel
    modifies m.writeBuffer
    ensures m.writeBuffer[..] == Splice(old(m.writeBuffer[..]), m.offset + rel, EncodeLong(v))
    ensures ReadLong(m, rel) == v && HeaderOf(m) == old(HeaderOf(m))
  {
    GetPutLong(m.writeBuffer[..], m.offset + rel, v);
    HeaderAfterBodyWrite(m.writeBuffer[..], m.offset, m.offset + rel, EncodeLong(v));
    WriteLong(m, rel, v);
  }

  /** Binds `m` for writing at `offset` of `buffer` and stamps the message's own type. */
  method Init(m: Flyweight, buffer: array<byte>, offset: int, uniqueType: int32)
    requires 0 <= offset && offset + MESSAGE_HEADER_LENGTH <= buffer.Length
    modifies m, buffer
    ensures m.Valid() && m.readBuffer == buffer && m.writeBuffer == buffer && m.offset == offset
    ensures buffer[..] == Splice(old(buffer[..]), offset + TYPE_FIELD_OFFSET, EncodeInt(uniqueType))
    ensures Type(m) == uniqueType
  {
    m.WrapForWrite(buffer, offset);
    SetType(m, uniqueType);
    PutTypeAt(old(buffer[..]), offset, uniqueType);
  }

  /**
    Gives `m` a fresh zero-filled buffer of the message's size and stamps its
    type: the header then holds the type and zero ids.
  */
  method AllocateMemoryForMessage(m: Flyweight, sizeInBytes: nat, uniqueType: int32)
    requires MESSAGE_HEADER_LENGTH <= sizeInBytes
    modifies m
    ensures m.Valid() && m.writeBuffer != null && fresh(m.writeBuffer)
    ensures m.writeBuffer.Length == sizeInBytes && m.offset == 0
    ensures HeaderOf(m) == Header(uniqueType, 0, 0, 0)
    ensures forall i | MESSAGE_HEADER_LENGTH <= i < sizeInBytes :: m.writeBuffer[i] == 0
  {
    var buffer := new byte[sizeInBytes](_ => 0);
    ghost var zeroes := buffer[..];
    ZeroHeader(zeroes);
    Init(m, buffer, 0, uniqueType);
    PutTypeAt(zeroes, 0, uniqueType);
    SpliceAt(zeroes, 0, EncodeInt(uniqueType));
  }

  lemma ZeroHeader(s: seq<byte>)
    requires MESSAGE_HEADER_LENGTH <= |s|
    requires forall i | 0 <= i < |s| :: s[i] == 0
    ensures HeaderAt(s, 0) == Header(0, 0, 0, 0)
  {
    var z4: seq<byte>, z8: seq<byte> := [0, 0, 0, 0], [0, 0, 0, 0, 0, 0, 0, 0];
    assert s[0..4] == z4 && s[12..16] == z4;
    assert s[4..12] == z8 && s[16..24] == z8;
    assert EncodeInt(0) == z4;
    assert EncodeLong(0) == z8;
    DecodeEncodeInt(0);
    DecodeEncodeLong(0);
  }
}
