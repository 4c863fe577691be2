/**
  A price record as the server stores it inside a records block: the
  instrument's index, the price timestamp, the payload size and a payload
  area of `PRICE_MAX_PAYLOAD_SIZE` bytes. The functions over `seq<byte>`
  describe the record starting at position `p` of a buffer; the view-level
  members read and write it through a flyweight.
*/
module IndexedPriceRecord {
  import opened Bytes
  import opened Errors
  import opened Flyweight
  import opened Configuration
  import PayloadField

  const INDEX_FIELD_OFFSET: nat := 0
  const TIMESTAMP_FIELD_OFFSET: nat := INDEX_FIELD_OFFSET + SIZE_OF_INT
  const PAYLOAD_SIZE_FIELD_OFFSET: nat := TIMESTAMP_FIELD_OFFSET + SIZE_OF_LONG
  const PAYLOAD_FIELD_OFFSET: nat := PAYLOAD_SIZE_FIELD_OFFSET + SIZE_OF_INT
  const MESSAGE_SIZE: nat := PAYLOAD_FIELD_OFFSET + PRICE_MAX_PAYLOAD_SIZE

  /** The record starting at `p` lies inside `s`. */
  predicate InBounds(s: seq<byte>, p: int)
  {
    0 <= p && p + MESSAGE_SIZE <= |s|
  }

  function IndexAt(s: seq<byte>, p: int): int32
    requires InBounds(s, p)
  {
    GetInt(s, p + INDEX_FIELD_OFFSET)
  }

  function TimestampAt(s: seq<byte>, p: int): int64
    requires InBounds(s, p)
  {
    GetLong(s, p + TIMESTAMP_FIELD_OFFSET)
  }

  function PayloadAt(s: seq<byte>, p: int): Result<seq<byte>>
    requires InBounds(s, p)
  {
    PayloadField.PayloadAt(s, p + PAYLOAD_SIZE_FIELD_OFFSET, p + PAYLOAD_FIELD_OFFSET)
  }

  /**
    What a block's `tryUpdateRecord` does to the record at `p` once the
    index is known to be in range: an older timestamp leaves everything as it
    was; a newer or equal one is stored and then the payload is put, which
    can still throw.
  */
  function UpdateBytes(s: seq<byte>, p: int, timestamp: int64, from: seq<byte>, fromOffset: int, size: int32)
    : (r: (seq<byte>, Status))
    requires InBounds(s, p)
    ensures |r.0| == |s|
  {
    if timestamp < TimestampAt(s, p) then (s, Done)
    else
      PayloadField.PutPayloadBytes(Splice(s, p + TIMESTAMP_FIELD_OFFSET, EncodeLong(timestamp)),
        p + PAYLOAD_SIZE_FIELD_OFFSET, p + PAYLOAD_FIELD_OFFSET, from, fromOffset, size)
  }

  /** An update touches only its own record. */
  lemma UpdateWithin(s: seq<byte>, p: int, timestamp: int64, from: seq<byte>, fromOffset: int, size: int32)
    requires InBounds(s, p)
    ensures SameOutside(s, UpdateBytes(s, p, timestamp, from, fromOffset, size).0, p, p + MESSAGE_SIZE)
  {
    if timestamp >= TimestampAt(s, p) {
      var t := Splice(s, p + TIMESTAMP_FIELD_OFFSET, EncodeLong(timestamp));
      SpliceWithin(s, p + TIMESTAMP_FIELD_OFFSET, EncodeLong(timestamp), p, p + MESSAGE_SIZE);
      PayloadField.PutPayloadBytesWithin(t, p + PAYLOAD_SIZE_FIELD_OFFSET, p + PAYLOAD_FIELD_OFFSET,
        from, fromOffset, size, p, p + MESSAGE_SIZE);
      SameOutsideTrans(s, t, UpdateBytes(s, p, timestamp, from, fromOffset, size).0, p, p + MESSAGE_SIZE);
    }
  }

  /**
    Newer-or-equal wins: an older timestamp changes nothing; otherwise the
    stored timestamp becomes the new one (ties overwrite), the index stays,
    and the update completes exactly when the payload size is within the cap
    and the source range exists. The stored timestamp never moves backwards.
  */
  lemma UpdateOutcome(s: seq<byte>, p: int, timestamp: int64, from: seq<byte>, fromOffset: int, size: int32)
    requires InBounds(s, p)
    ensures timestamp < TimestampAt(s, p) ==> UpdateBytes(s, p, timestamp, from, fromOffset, size) == (s, Done)
    ensures timestamp >= TimestampAt(s, p) ==>
      && TimestampAt(UpdateBytes(s, p, timestamp, from, fromOffset, size).0, p) == timestamp
      && IndexAt(UpdateBytes(s, p, timestamp, from, fromOffset, size).0, p) == IndexAt(s, p)
      && (UpdateBytes(s, p, timestamp, from, fromOffset, size).1 == Done <==>
            0 <= size <= PRICE_MAX_PAYLOAD_SIZE as int && 0 <= fromOffset && fromOffset + size <= |from|)
    ensures TimestampAt(UpdateBytes(s, p, timestamp, from, fromOffset, size).0, p) >= TimestampAt(s, p)
  {
    if timestamp >= TimestampAt(s, p) {
      var tsPos, sizePos := p + TIMESTAMP_FIELD_OFFSET, p + PAYLOAD_SIZE_FIELD_OFFSET;
      var t := Splice(s, tsPos, EncodeLong(timestamp));
      GetPutLong(s, tsPos, timestamp);
      GetIntElsewhere(s, tsPos, EncodeLong(timestamp), p);
      var u := UpdateBytes(s, p, timestamp, from, fromOffset, size).0;
      PayloadField.PutPayloadBytesWithin(t, sizePos, p + PAYLOAD_FIELD_OFFSET, from, fromOffset, size, sizePos, p + MESSAGE_SIZE);
      SameOutsideSlice(t, u, sizePos, p + MESSAGE_SIZE, tsPos, tsPos + SIZE_OF_LONG);
      SameOutsideInt(t, u, sizePos, p + MESSAGE_SIZE, p);
    }
  }

  /** A completed update of a newer-or-equal price reads back the copied payload. */
  lemma UpdatePayload(s: seq<byte>, p: int, timestamp: int64, from: seq<byte>, fromOffset: int, size: int32)
    requires InBounds(s, p) && timestamp >= TimestampAt(s, p)
    requires UpdateBytes(s, p, timestamp, from, fromOffset, size).1 == Done
    ensures PayloadAt(UpdateBytes(s, p, timestamp, from, fromOffset, size).0, p) == Ok(from[fromOffset..fromOffset + size])
  {
    var t := Splice(s, p + TIMESTAMP_FIELD_OFFSET, EncodeLong(timestamp));
    PayloadField.PayloadRoundTrip(t, p + PAYLOAD_SIZE_FIELD_OFFSET, p + PAYLOAD_FIELD_OFFSET, from, fromOffset, size);
  }

  /** An update depends only on the record's own bytes. */
  lemma UpdateLocal(s: seq<byte>, t: seq<byte>, p: int, timestamp: int64, from: seq<byte>, fromOffset: int, size: int32)
    requires InBounds(s, p) && |t| == |s| && s[p..p + MESSAGE_SIZE] == t[p..p + MESSAGE_SIZE]
    ensures UpdateBytes(s, p, timestamp, from, fromOffset, size).1 == UpdateBytes(t, p, timestamp, from, fromOffset, size).1
    ensures UpdateBytes(s, p, timestamp, from, fromOffset, size).0[p..p + MESSAGE_SIZE]
         == UpdateBytes(t, p, timestamp, from, fromOffset, size).0[p..p + MESSAGE_SIZE]
  {
    var hi, tsPos, sizePos, payloadPos := p + MESSAGE_SIZE, p + TIMESTAMP_FIELD_OFFSET, p + PAYLOAD_SIZE_FIELD_OFFSET, p + PAYLOAD_FIELD_OFFSET;
    SliceInside(s, t, p, hi, tsPos, tsPos + SIZE_OF_LONG);
    if timestamp >= TimestampAt(s, p) {
      var s1, t1 := Splice(s, tsPos, EncodeLong(timestamp)), Splice(t, tsPos, EncodeLong(timestamp));
      SpliceLocal(s, t, p, hi, tsPos, EncodeLong(timestamp));
      if size <= PRICE_MAX_PAYLOAD_SIZE as int {
        var s2, t2 := Splice(s1, sizePos, EncodeInt(size)), Splice(t1, sizePos, EncodeInt(size));
        SpliceLocal(s1, t1, p, hi, sizePos, EncodeInt(size));
        if 0 <= size && 0 <= fromOffset && fromOffset + size <= |from| {
          SpliceLocal(s2, t2, p, hi, payloadPos, from[fromOffset..fromOffset + size]);
        }
      }
    }
  }

  /** The view covers a whole record. */
  predicate Readable(f: Flyweight)
    reads f
  {
    CanRead(f, 0, MESSAGE_SIZE)
  }

  predicate Writable(f: Flyweight)
    reads f
  {
    CanWrite(f, 0, MESSAGE_SIZE)
  }

  function Index(f: Flyweight): int32
    reads f, f.readBuffer
    requires Readable(f)
  {
    IndexAt(f.readBuffer[..], f.offset)
  }

  function Timestamp(f: Flyweight): int64
    reads f, f.readBuffer
    requires Readable(f)
  {
    TimestampAt(f.readBuffer[..], f.offset)
  }

  function PayloadSize(f: Flyweight): int32
    reads f, f.readBuffer
    requires Readable(f)
  {
    ReadInt(f, PAYLOAD_SIZE_FIELD_OFFSET)
  }

  function Payload(f: Flyweight): Result<seq<byte>>
    reads f, f.readBuffer
    requires Readable(f)
  {
    PayloadAt(f.readBuffer[..], f.offset)
  }

  /** The payload area's place in the whole buffer. */
  function AbsolutePayloadOffset(f: Flyweight): int
    reads f
  {
    f.offset + PAYLOAD_FIELD_OFFSET
  }

  function SizeInBytes(): nat { MESSAGE_SIZE }

  /** The index reads back; the timestamp and the payload's bytes are untouched. */
  method SetIndex(f: Flyweight, index: int32)
    requires Writable(f)
    modifies f.writeBuffer
    ensures f.writeBuffer[..] == Splice(old(f.writeBuffer[..]), f.offset + INDEX_FIELD_OFFSET, EncodeInt(index))
    ensures Index(f) == index && Timestamp(f) == old(Timestamp(f))
    ensures f.writeBuffer[f.offset + PAYLOAD_SIZE_FIELD_OFFSET..f.offset + MESSAGE_SIZE]
         == old(f.writeBuffer[f.offset + PAYLOAD_SIZE_FIELD_OFFSET..f.offset + MESSAGE_SIZE])
  {
    WriteInt(f, INDEX_FIELD_OFFSET, index);
    ghost var s := old(f.writeBuffer[..]);
    GetPutInt(s, f.offset + INDEX_FIELD_OFFSET, index);
    GetLongElsewhere(s, f.offset, EncodeInt(index), f.offset + TIMESTAMP_FIELD_OFFSET);
    SpliceElsewhere(s, f.offset, EncodeInt(index), f.offset + PAYLOAD_SIZE_FIELD_OFFSET, MESSAGE_SIZE - PAYLOAD_SIZE_FIELD_OFFSET);
  }

  /** The timestamp reads back; the index and the payload's bytes are untouched. */
  method SetTimestamp(f: Flyweight, timestamp: int64)
    requires Writable(f)
    modifies f.writeBuffer
    ensures f.writeBuffer[..] == Splice(old(f.writeBuffer[..]), f.offset + TIMESTAMP_FIELD_OFFSET, EncodeLong(timestamp))
    ensures Timestamp(f) == timestamp && Index(f) == old(Index(f))
    ensures f.writeBuffer[f.offset + PAYLOAD_SIZE_FIELD_OFFSET..f.offset + MESSAGE_SIZE]
         == old(f.writeBuffer[f.offset + PAYLOAD_SIZE_FIELD_OFFSET..f.offset + MESSAGE_SIZE])
  {
    WriteLong(f, TIMESTAMP_FIELD_OFFSET, timestamp);
    ghost var s := old(f.writeBuffer[..]);
    GetPutLong(s, f.offset + TIMESTAMP_FIELD_OFFSET, timestamp);
    GetIntElsewhere(s, f.offset + TIMESTAMP_FIELD_OFFSET, EncodeLong(timestamp), f.offset);
    SpliceElsewhere(s, f.offset + TIMESTAMP_FIELD_OFFSET, EncodeLong(timestamp),
      f.offset + PAYLOAD_SIZE_FIELD_OFFSET, MESSAGE_SIZE - PAYLOAD_SIZE_FIELD_OFFSET);
  }

  /**
    `putPayload`: a size above the cap throws IllegalArgumentException before
    anything is written; otherwise the size is stored and the bytes copied,
    which fails out of bounds on a negative size or a missing source range.
    The index and timestamp are never touched.
  */
  method PutPayload(f: Flyweight, from: seq<byte>, fromOffset: int, size: int32) returns (r: Status)
    requires Writable(f)
    modifies f.writeBuffer
    ensures (f.writeBuffer[..], r) == PayloadField.PutPayloadBytes(old(f.writeBuffer[..]),
      f.offset + PAYLOAD_SIZE_FIELD_OFFSET, f.offset + PAYLOAD_FIELD_OFFSET, from, fromOffset, size)
    ensures r == Done <==> 0 <= size <= PRICE_MAX_PAYLOAD_SIZE as int && 0 <= fromOffset && fromOffset + size <= |from|
    ensures size > PRICE_MAX_PAYLOAD_SIZE as int ==> r == Thrown(IllegalArgument) && f.writeBuffer[..] == old(f.writeBuffer[..])
    ensures r == Done ==> Payload(f) == Ok(from[fromOffset..fromOffset + size])
    ensures Index(f) == old(Index(f)) && Timestamp(f) == old(Timestamp(f))
  {
    ghost var s := f.writeBuffer[..];
    r := PayloadField.PutPayload(f, PAYLOAD_SIZE_FIELD_OFFSET, PAYLOAD_FIELD_OFFSET, from, fromOffset, size);
    var sizePos := f.offset + PAYLOAD_SIZE_FIELD_OFFSET;
    PayloadField.PutPayloadBytesWithin(s, sizePos, f.offset + PAYLOAD_FIELD_OFFSET, from, fromOffset, size, sizePos, f.offset + MESSAGE_SIZE);
    SameOutsideSlice(s, f.writeBuffer[..], sizePos, f.offset + MESSAGE_SIZE, f.offset, sizePos);
    assert f.writeBuffer[..][f.offset..f.offset + SIZE_OF_INT] == s[f.offset..f.offset + SIZE_OF_INT];
    assert f.writeBuffer[..][f.offset + TIMESTAMP_FIELD_OFFSET..sizePos] == s[f.offset + TIMESTAMP_FIELD_OFFSET..sizePos];
  }

  /** `getPayload`: copies the stored payload into `writeTo` at `writeOffset`, or fails out of bounds. */
  method GetPayload(f: Flyweight, writeTo: array<byte>, writeOffset: int) returns (r: Status)
    requires Readable(f)
    modifies writeTo
    ensures r == Done <==> old(Payload(f)).Ok? && 0 <= writeOffset && writeOffset + |old(Payload(f)).value| <= writeTo.Length
    ensures r == Done ==> writeTo[..] == Splice(old(writeTo[..]), writeOffset, old(Payload(f)).value)
    ensures r != Done ==> r == Thrown(IndexOutOfBounds) && writeTo[..] == old(writeTo[..])
  {
    r := PayloadField.GetPayload(f, PAYLOAD_SIZE_FIELD_OFFSET, PAYLOAD_FIELD_OFFSET, writeTo, writeOffset);
  }
}
