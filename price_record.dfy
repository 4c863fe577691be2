/**
  One price record as it travels in a chunk: the instrument ticker (a length
  and up to INSTRUMENT_MAX_TICKER_LENGTH bytes), the as-of timestamp and an
  opaque payload of up to PRICE_MAX_PAYLOAD_SIZE bytes, all at fixed offsets
  inside SIZE_IN_BYTES bytes.
*/
module PriceRecord {
  import opened Bytes
  import opened Errors
  import opened Flyweight
  import opened Configuration
  import opened Ticker
  import PayloadField

  const INSTRUMENT_TICKER_LENGTH_FIELD_OFFSET: nat := 0
  const INSTRUMENT_TICKER_FIELD_OFFSET: nat := INSTRUMENT_TICKER_LENGTH_FIELD_OFFSET + SIZE_OF_INT
  const AS_OF_FIELD_OFFSET: nat := INSTRUMENT_TICKER_FIELD_OFFSET + INSTRUMENT_MAX_TICKER_LENGTH
  const PAYLOAD_SIZE_FIELD_OFFSET: nat := AS_OF_FIELD_OFFSET + SIZE_OF_LONG
  const PAYLOAD_FIELD_OFFSET: nat := PAYLOAD_SIZE_FIELD_OFFSET + SIZE_OF_INT
  const SIZE_IN_BYTES: nat := PAYLOAD_FIELD_OFFSET + PRICE_MAX_PAYLOAD_SIZE

  /** What a reader of the record sees. */
  datatype PriceRecordValue = PriceRecordValue(
    instrument: Result<seq<char>>,
    asOfTimestamp: int64,
    payload: Result<seq<byte>>)

  /** The record stored at `base`. */
  function RecordAt(s: seq<byte>, base: int): PriceRecordValue
    requires 0 <= base && base + SIZE_IN_BYTES <= |s|
  {
    PriceRecordValue(
      TickerAt(s, base + INSTRUMENT_TICKER_LENGTH_FIELD_OFFSET, base + INSTRUMENT_TICKER_FIELD_OFFSET),
      GetLong(s, base + AS_OF_FIELD_OFFSET),
      PayloadField.PayloadAt(s, base + PAYLOAD_SIZE_FIELD_OFFSET, base + PAYLOAD_FIELD_OFFSET))
  }

  /** The arguments of a record write that the setters accept. */
  predicate Acceptable(instrument: seq<char>, from: seq<byte>, fromOffset: int, size: int)
  {
    |instrument| <= INSTRUMENT_MAX_TICKER_LENGTH
    && 0 <= size <= PRICE_MAX_PAYLOAD_SIZE && 0 <= fromOffset && fromOffset + size <= |from|
  }

  /** The bytes after the ticker, the timestamp and the payload setters run in turn on the record at `base`. */
  function RecordBytes(s: seq<byte>, base: int, instrument: seq<char>, asOf: int64, from: seq<byte>, fromOffset: int, size: int32)
    : (r: seq<byte>)
    requires Acceptable(instrument, from, fromOffset, size)
    requires 0 <= base && base + SIZE_IN_BYTES <= |s|
    ensures |r| == |s|
  {
    var t := PutTickerBytes(s, base + INSTRUMENT_TICKER_LENGTH_FIELD_OFFSET, base + INSTRUMENT_TICKER_FIELD_OFFSET, instrument);
    var u := Splice(t, base + AS_OF_FIELD_OFFSET, EncodeLong(asOf));
    PayloadField.PutPayloadBytes(u, base + PAYLOAD_SIZE_FIELD_OFFSET, base + PAYLOAD_FIELD_OFFSET, from, fromOffset, size).0
  }

  /**
    A record written with acceptable arguments reads back field by field:
    the ticker (exactly, when it is ASCII), the timestamp and the copied
    payload bytes.
  */
  lemma RecordRoundTrip(s: seq<byte>, base: int, instrument: seq<char>, asOf: int64, from: seq<byte>, fromOffset: int, size: int32)
    requires Acceptable(instrument, from, fromOffset, size)
    requires 0 <= base && base + SIZE_IN_BYTES <= |s|
    ensures RecordAt(RecordBytes(s, base, instrument, asOf, from, fromOffset, size), base)
         == PriceRecordValue(Ok(DecodeTicker(EncodeTicker(instrument))), asOf, Ok(from[fromOffset..fromOffset + size]))
    ensures IsAscii(instrument) ==>
      RecordAt(RecordBytes(s, base, instrument, asOf, from, fromOffset, size), base).instrument == Ok(instrument)
  {
    var lenPos, tickerPos := base + INSTRUMENT_TICKER_LENGTH_FIELD_OFFSET, base + INSTRUMENT_TICKER_FIELD_OFFSET;
    var asOfPos, sizePos, payloadPos := base + AS_OF_FIELD_OFFSET, base + PAYLOAD_SIZE_FIELD_OFFSET, base + PAYLOAD_FIELD_OFFSET;
    var t := PutTickerBytes(s, lenPos, tickerPos, instrument);
    var u := Splice(t, asOfPos, EncodeLong(asOf));
    var v := Splice(u, sizePos, EncodeInt(size));
    var bytes := from[fromOffset..fromOffset + size];
    var w := Splice(v, payloadPos, bytes);
    assert w == RecordBytes(s, base, instrument, asOf, from, fromOffset, size);
    // the ticker survives the three later writes
    TickerRoundTrip(s, lenPos, tickerPos, instrument);
    TickerElsewhere(t, lenPos, tickerPos, asOfPos, EncodeLong(asOf));
    TickerElsewhere(u, lenPos, tickerPos, sizePos, EncodeInt(size));
    TickerElsewhere(v, lenPos, tickerPos, payloadPos, bytes);
    // the timestamp survives the two payload writes
    GetPutLong(t, asOfPos, asOf);
    GetLongElsewhere(u, sizePos, EncodeInt(size), asOfPos);
    GetLongElsewhere(v, payloadPos, bytes, asOfPos);
    PayloadField.PayloadRoundTrip(u, sizePos, payloadPos, from, fromOffset, size);
  }

  /** Writing a record at `base` changes only its SIZE_IN_BYTES bytes. */
  lemma RecordBytesWithin(s: seq<byte>, base: int, instrument: seq<char>, asOf: int64, from: seq<byte>, fromOffset: int, size: int32)
    requires Acceptable(instrument, from, fromOffset, size)
    requires 0 <= base && base + SIZE_IN_BYTES <= |s|
    ensures SameOutside(s, RecordBytes(s, base, instrument, asOf, from, fromOffset, size), base, base + SIZE_IN_BYTES)
  {
    var hi := base + SIZE_IN_BYTES;
    var t := PutTickerBytes(s, base + INSTRUMENT_TICKER_LENGTH_FIELD_OFFSET, base + INSTRUMENT_TICKER_FIELD_OFFSET, instrument);
    var u := Splice(t, base + AS_OF_FIELD_OFFSET, EncodeLong(asOf));
    PutTickerBytesWithin(s, base + INSTRUMENT_TICKER_LENGTH_FIELD_OFFSET, base + INSTRUMENT_TICKER_FIELD_OFFSET, instrument, base, hi);
    SpliceWithin(t, base + AS_OF_FIELD_OFFSET, EncodeLong(asOf), base, hi);
    PayloadField.PutPayloadBytesWithin(u, base + PAYLOAD_SIZE_FIELD_OFFSET, base + PAYLOAD_FIELD_OFFSET, from, fromOffset, size, base, hi);
  }

  /** A record lying wholly past a changed region reads the same. */
  lemma RecordAfterOutsideWrite(s: seq<byte>, t: seq<byte>, lo: int, hi: int, base: int)
    requires SameOutside(s, t, lo, hi)
    requires hi <= base && base + SIZE_IN_BYTES <= |s|
    ensures RecordAt(t, base) == RecordAt(s, base)
  {
    SameOutsideSlice(s, t, lo, hi, base, |s|);
    RecordOnSuffix(s, t, base);
  }

  /** A record is read from the bytes at and after its position alone. */
  lemma RecordOnSuffix(s: seq<byte>, t: seq<byte>, base: int)
    requires 0 <= base && base + SIZE_IN_BYTES <= |s| == |t| && t[base..|s|] == s[base..|s|]
    ensures RecordAt(t, base) == RecordAt(s, base)
  {
    var lenPos, tickerPos, asOfPos := base + INSTRUMENT_TICKER_LENGTH_FIELD_OFFSET, base + INSTRUMENT_TICKER_FIELD_OFFSET, base + AS_OF_FIELD_OFFSET;
    var sizePos, payloadPos := base + PAYLOAD_SIZE_FIELD_OFFSET, base + PAYLOAD_FIELD_OFFSET;
    SliceInside(s, t, base, |s|, lenPos, lenPos + SIZE_OF_INT);
    SliceInside(s, t, base, |s|, asOfPos, asOfPos + SIZE_OF_LONG);
    SliceInside(s, t, base, |s|, sizePos, sizePos + SIZE_OF_INT);
    var len, size := GetInt(s, lenPos), GetInt(s, sizePos);
    assert GetInt(t, lenPos) == len && GetInt(t, sizePos) == size;
    if 0 <= len && tickerPos + len <= |s| {
      SliceInside(s, t, base, |s|, tickerPos, tickerPos + len);
    }
    assert TickerAt(t, lenPos, tickerPos) == TickerAt(s, lenPos, tickerPos);
    if 0 <= size && payloadPos + size <= |s| {
      SliceInside(s, t, base, |s|, payloadPos, payloadPos + size);
    }
    assert PayloadField.PayloadAt(t, sizePos, payloadPos) == PayloadField.PayloadAt(s, sizePos, payloadPos);
    assert GetLong(t, asOfPos) == GetLong(s, asOfPos);
  }

  /** Writing a record leaves an `int` stored outside its slot as it was. */
  lemma RecordKeepsInt(s: seq<byte>, base: int, instrument: seq<char>, asOf: int64, from: seq<byte>, fromOffset: int,
                       size: int32, index: int)
    requires Acceptable(instrument, from, fromOffset, size)
    requires 0 <= base && base + SIZE_IN_BYTES <= |s|
    requires 0 <= index && index + SIZE_OF_INT <= |s| && (index + SIZE_OF_INT <= base || base + SIZE_IN_BYTES <= index)
    ensures GetInt(RecordBytes(s, base, instrument, asOf, from, fromOffset, size), index) == GetInt(s, index)
  {
    var t := RecordBytes(s, base, instrument, asOf, from, fromOffset, size);
    RecordBytesWithin(s, base, instrument, asOf, from, fromOffset, size);
    SameOutsideInt(s, t, base, base + SIZE_IN_BYTES, index);
  }

  /** The view covers a whole record. */
  predicate Readable(f: Flyweight)
    reads f
  {
    CanRead(f, 0, SIZE_IN_BYTES)
  }

  predicate Writable(f: Flyweight)
    reads f
  {
    CanWrite(f, 0, SIZE_IN_BYTES)
  }

  function InstrumentTickerLength(f: Flyweight): int32
    reads f, f.readBuffer
    requires Readable(f)
  {
    ReadInt(f, INSTRUMENT_TICKER_LENGTH_FIELD_OFFSET)
  }

  function Instrument(f: Flyweight): Result<seq<char>>
    reads f, f.readBuffer
    requires Readable(f)
  {
    TickerAt(f.readBuffer[..], f.offset + INSTRUMENT_TICKER_LENGTH_FIELD_OFFSET, f.offset + INSTRUMENT_TICKER_FIELD_OFFSET)
  }

  function AsOfTimestamp(f: Flyweight): int64
    reads f, f.readBuffer
    requires Readable(f)
  {
    ReadLong(f, AS_OF_FIELD_OFFSET)
  }

  function PayloadSize(f: Flyweight): int32
    reads f, f.readBuffer
    requires Readable(f)
  {
    ReadInt(f, PAYLOAD_SIZE_FIELD_OFFSET)
  }

  function Payload(f: Flyweight): Result<seq<byte>>
    reads f, f.readBuffer
    requires Readable(f)
  {
    PayloadField.PayloadAt(f.readBuffer[..], f.offset + PAYLOAD_SIZE_FIELD_OFFSET, f.offset + PAYLOAD_FIELD_OFFSET)
  }

  function AbsolutePayloadOffset(f: Flyweight): int
    reads f
  {
    f.offset + PAYLOAD_FIELD_OFFSET
  }

  function SizeInBytes(): nat { SIZE_IN_BYTES }

  /**
    `instrument(CharSequence)`: IllegalArgumentException, with nothing
    written, for a ticker over the cap; otherwise the ticker reads back.
  */
  method SetInstrument(f: Flyweight, instrument: seq<char>) returns (r: Status)
    requires Writable(f)
    modifies f.writeBuffer
    ensures r == Done <==> |instrument| <= INSTRUMENT_MAX_TICKER_LENGTH
    ensures r != Done ==> r == Thrown(IllegalArgument) && f.writeBuffer[..] == old(f.writeBuffer[..])
    ensures r == Done ==> f.writeBuffer[..] == PutTickerBytes(old(f.writeBuffer[..]),
      f.offset + INSTRUMENT_TICKER_LENGTH_FIELD_OFFSET, f.offset + INSTRUMENT_TICKER_FIELD_OFFSET, instrument)
    ensures r == Done ==> Instrument(f) == Ok(DecodeTicker(EncodeTicker(instrument)))
    ensures r == Done && IsAscii(instrument) ==> Instrument(f) == Ok(instrument)
  {
    r := WriteTicker(f, INSTRUMENT_TICKER_LENGTH_FIELD_OFFSET, INSTRUMENT_TICKER_FIELD_OFFSET, instrument);
    if r == Done {
      TickerRoundTrip(old(f.writeBuffer[..]), f.offset + INSTRUMENT_TICKER_LENGTH_FIELD_OFFSET,
        f.offset + INSTRUMENT_TICKER_FIELD_OFFSET, instrument);
    }
  }

  method SetAsOfTimestamp(f: Flyweight, asOfTimestamp: int64)
    requires Writable(f)
    modifies f.writeBuffer
    ensures f.writeBuffer[..] == Splice(old(f.writeBuffer[..]), f.offset + AS_OF_FIELD_OFFSET, EncodeLong(asOfTimestamp))
    ensures AsOfTimestamp(f) == asOfTimestamp
  {
    WriteLong(f, AS_OF_FIELD_OFFSET, asOfTimestamp);
    GetPutLong(old(f.writeBuffer[..]), f.offset + AS_OF_FIELD_OFFSET, asOfTimestamp);
  }

  /**
    `putPayload`: IllegalArgumentException, with nothing written, for a size
    over PRICE_MAX_PAYLOAD_SIZE; otherwise the size is stored and the copy
    fails out of bounds on a negative size or a range outside the source.
  */
  method PutPayload(f: Flyweight, from: seq<byte>, fromOffset: int, size: int32) returns (r: Status)
    requires Writable(f)
    modifies f.writeBuffer
    ensures (f.writeBuffer[..], r) == PayloadField.PutPayloadBytes(old(f.writeBuffer[..]),
      f.offset + PAYLOAD_SIZE_FIELD_OFFSET, f.offset + PAYLOAD_FIELD_OFFSET, from, fromOffset, size)
    ensures r == Done <==> Acceptable([], from, fromOffset, size)
    ensures r == Done ==> Payload(f) == Ok(from[fromOffset..fromOffset + size])
  {
    r := PayloadField.PutPayload(f, PAYLOAD_SIZE_FIELD_OFFSET, PAYLOAD_FIELD_OFFSET, from, fromOffset, size);
  }

  /**
    The three setter calls `addRecord` makes on the record at `base`: the
    ticker, the timestamp and the payload, each stopping the sequence with
    its exception.
  */
  function WriteResult(s: seq<byte>, base: int, instrument: seq<char>, asOf: int64, from: seq<byte>, fromOffset: int, size: int32)
    : (r: (seq<byte>, Status))
    requires 0 <= base && base + SIZE_IN_BYTES <= |s|
    ensures |r.0| == |s|
  {
    if |instrument| > INSTRUMENT_MAX_TICKER_LENGTH then (s, Thrown(IllegalArgument))
    else
      var t := PutTickerBytes(s, base + INSTRUMENT_TICKER_LENGTH_FIELD_OFFSET, base + INSTRUMENT_TICKER_FIELD_OFFSET, instrument);
      PayloadField.PutPayloadBytes(Splice(t, base + AS_OF_FIELD_OFFSET, EncodeLong(asOf)),
        base + PAYLOAD_SIZE_FIELD_OFFSET, base + PAYLOAD_FIELD_OFFSET, from, fromOffset, size)
  }

  /**
    The setters succeed exactly on acceptable arguments, and then leave the
    record's bytes; an over-long ticker stops them before anything is
    written; whatever happens, only the record's own bytes change.
  */
  lemma WriteOutcome(s: seq<byte>, base: int, instrument: seq<char>, asOf: int64, from: seq<byte>, fromOffset: int, size: int32)
    requires 0 <= base && base + SIZE_IN_BYTES <= |s|
    ensures WriteResult(s, base, instrument, asOf, from, fromOffset, size).1 == Done <==> Acceptable(instrument, from, fromOffset, size)
    ensures |instrument| > INSTRUMENT_MAX_TICKER_LENGTH ==>
      WriteResult(s, base, instrument, asOf, from, fromOffset, size) == (s, Thrown(IllegalArgument))
    ensures Acceptable(instrument, from, fromOffset, size) ==>
      WriteResult(s, base, instrument, asOf, from, fromOffset, size).0 == RecordBytes(s, base, instrument, asOf, from, fromOffset, size)
    ensures SameOutside(s, WriteResult(s, base, instrument, asOf, from, fromOffset, size).0, base, base + SIZE_IN_BYTES)
  {
    var hi := base + SIZE_IN_BYTES;
    if |instrument| <= INSTRUMENT_MAX_TICKER_LENGTH {
      var t := PutTickerBytes(s, base + INSTRUMENT_TICKER_LENGTH_FIELD_OFFSET, base + INSTRUMENT_TICKER_FIELD_OFFSET, instrument);
      var u := Splice(t, base + AS_OF_FIELD_OFFSET, EncodeLong(asOf));
      PutTickerBytesWithin(s, base + INSTRUMENT_TICKER_LENGTH_FIELD_OFFSET, base + INSTRUMENT_TICKER_FIELD_OFFSET, instrument, base, hi);
      SpliceWithin(t, base + AS_OF_FIELD_OFFSET, EncodeLong(asOf), base, hi);
      PayloadField.PutPayloadBytesWithin(u, base + PAYLOAD_SIZE_FIELD_OFFSET, base + PAYLOAD_FIELD_OFFSET, from, fromOffset, size, base, hi);
      SameOutsideTrans(s, t, u, base, hi);
      SameOutsideTrans(s, u, WriteResult(s, base, instrument, asOf, from, fromOffset, size).0, base, hi);
    } else {
      SpliceWithin(s, base, [], base, hi);
    }
  }

  /** The record write: the setters run in turn as `WriteResult` says. */
  method Write(f: Flyweight, instrument: seq<char>, asOfTimestamp: int64, from: seq<byte>, fromOffset: int, size: int32)
    returns (r: Status)
    requires Writable(f)
    modifies f.writeBuffer
    ensures (f.writeBuffer[..], r) == WriteResult(old(f.writeBuffer[..]), f.offset, instrument, asOfTimestamp, from, fromOffset, size)
  {
    ghost var s0, base := f.writeBuffer[..], f.offset;
    r := SetInstrument(f, instrument);
    ghost var s1 := f.writeBuffer[..];
    if r != Done {
      assert WriteResult(s0, base, instrument, asOfTimestamp, from, fromOffset, size) == (s1, r);
      return;
    }
    assert s1 == PutTickerBytes(s0, base + INSTRUMENT_TICKER_LENGTH_FIELD_OFFSET, base + INSTRUMENT_TICKER_FIELD_OFFSET, instrument);
    SetAsOfTimestamp(f, asOfTimestamp);
    ghost var s2 := f.writeBuffer[..];
    assert s2 == Splice(s1, base + AS_OF_FIELD_OFFSET, EncodeLong(asOfTimestamp));
    r := PutPayload(f, from, fromOffset, size);
    assert (f.writeBuffer[..], r) == PayloadField.PutPayloadBytes(s2, base + PAYLOAD_SIZE_FIELD_OFFSET, base + PAYLOAD_FIELD_OFFSET, from, fromOffset, size);
  }

  /**
    The three setters on the record at `base` of a buffer that may end
    inside the record, every put bounds-checked as Agrona's buffer does: the
    ticker, then the timestamp, then the payload, the first exception
    stopping the sequence with the puts before it kept.
  */
  function CheckedWriteResult(s: seq<byte>, base: int, instrument: seq<char>, asOf: int64, from: seq<byte>, fromOffset: int, size: int32)
    : (r: (seq<byte>, Status))
    requires 0 <= base
    ensures |r.0| == |s|
  {
    var t := CheckedTickerBytes(s, base + INSTRUMENT_TICKER_LENGTH_FIELD_OFFSET, instrument);
    if t.1 != Done then t
    else if base + AS_OF_FIELD_OFFSET + SIZE_OF_LONG > |s| then (t.0, Thrown(IndexOutOfBounds))
    else PayloadField.CheckedPayloadBytes(Splice(t.0, base + AS_OF_FIELD_OFFSET, EncodeLong(asOf)),
      base + PAYLOAD_SIZE_FIELD_OFFSET, from, fromOffset, size)
  }

  /**
    The checked setters complete exactly on acceptable arguments whose
    payload ends inside the buffer; an over-long ticker stops them before
    anything is written and any other failure is out of bounds; nothing
    before the record changes; and where the whole record fits they are the
    plain setters.
  */
  lemma CheckedWriteOutcome(s: seq<byte>, base: int, instrument: seq<char>, asOf: int64, from: seq<byte>, fromOffset: int, size: int32)
    requires 0 <= base
    ensures CheckedWriteResult(s, base, instrument, asOf, from, fromOffset, size).1 == Done <==>
      Acceptable(instrument, from, fromOffset, size) && base + PAYLOAD_FIELD_OFFSET + size <= |s|
    ensures |instrument| > INSTRUMENT_MAX_TICKER_LENGTH ==>
      CheckedWriteResult(s, base, instrument, asOf, from, fromOffset, size) == (s, Thrown(IllegalArgument))
    ensures (&& |instrument| <= INSTRUMENT_MAX_TICKER_LENGTH && size <= PRICE_MAX_PAYLOAD_SIZE as int
             && CheckedWriteResult(s, base, instrument, asOf, from, fromOffset, size).1 != Done) ==>
      CheckedWriteResult(s, base, instrument, asOf, from, fromOffset, size).1 == Thrown(IndexOutOfBounds)
    ensures base <= |s| ==> SameOutside(s, CheckedWriteResult(s, base, instrument, asOf, from, fromOffset, size).0, base, |s|)
    ensures base + SIZE_IN_BYTES <= |s| ==>
      CheckedWriteResult(s, base, instrument, asOf, from, fromOffset, size) == WriteResult(s, base, instrument, asOf, from, fromOffset, size)
  {
    var lenPos, asOfPos, sizePos := base + INSTRUMENT_TICKER_LENGTH_FIELD_OFFSET, base + AS_OF_FIELD_OFFSET, base + PAYLOAD_SIZE_FIELD_OFFSET;
    var t := CheckedTickerBytes(s, lenPos, instrument);
    CheckedTickerOutcome(s, lenPos, instrument);
    if t.1 == Done && asOfPos + SIZE_OF_LONG <= |s| {
      var u := Splice(t.0, asOfPos, EncodeLong(asOf));
      PayloadField.CheckedPayloadOutcome(u, sizePos, from, fromOffset, size);
      SpliceWithin(t.0, asOfPos, EncodeLong(asOf), base, |s|);
      SameOutsideWiden(u, PayloadField.CheckedPayloadBytes(u, sizePos, from, fromOffset, size).0, sizePos, |s|, base, |s|);
      SameOutsideTrans(s, t.0, u, base, |s|);
      SameOutsideTrans(s, u, CheckedWriteResult(s, base, instrument, asOf, from, fromOffset, size).0, base, |s|);
    }
  }

  /** The record write with every put bounds-checked: the setters run in turn as `CheckedWriteResult` says. */
  method WriteChecked(f: Flyweight, instrument: seq<char>, asOfTimestamp: int64, from: seq<byte>, fromOffset: int, size: int32)
    returns (r: Status)
    requires f.Valid() && f.writeBuffer != null && 0 <= f.offset
    modifies f.writeBuffer
    ensures (f.writeBuffer[..], r) == CheckedWriteResult(old(f.writeBuffer[..]), f.offset, instrument, asOfTimestamp, from, fromOffset, size)
  {
    r := WriteTickerChecked(f, INSTRUMENT_TICKER_LENGTH_FIELD_OFFSET, instrument);
    if r != Done {
      return;
    }
    if f.offset + AS_OF_FIELD_OFFSET + SIZE_OF_LONG > f.writeBuffer.Length {
      return Thrown(IndexOutOfBounds);
    }
    WriteLong(f, AS_OF_FIELD_OFFSET, asOfTimestamp);
    r := PayloadField.PutPayloadChecked(f, PAYLOAD_SIZE_FIELD_OFFSET, from, fromOffset, size);
  }

  /** `getPayload`: copies the stored payload to `writeOffset` of `writeTo`. */
  method GetPayload(f: Flyweight, writeTo: array<byte>, writeOffset: int) returns (r: Status)
    requires Readable(f)
    modifies writeTo
    ensures r == Done <==> old(Payload(f)).Ok? && 0 <= writeOffset && writeOffset + |old(Payload(f)).value| <= writeTo.Length
    ensures r == Done ==> writeTo[..] == Splice(old(writeTo[..]), writeOffset, old(Payload(f)).value)
    ensures r != Done ==> r == Thrown(IndexOutOfBounds) && writeTo[..] == old(writeTo[..])
  {
    r := PayloadField.GetPayload(f, PAYLOAD_SIZE_FIELD_OFFSET, PAYLOAD_FIELD_OFFSET, writeTo, writeOffset);
  }
}

/**
  A chunk of price records: a 4-byte record count followed by the records,
  one every PriceRecord.SIZE_IN_BYTES bytes. A chunk holds at most
  MAX_CHUNK_SIZE records. The record view the chunk moves over its slots is
  passed in as `record`.
*/
module PriceRecordsChunk {
  import opened Bytes
  import opened Errors
  import opened Flyweight
  import opened Configuration
  import opened Ticker
  import PayloadField
  import PriceRecord

  const RECORDS_NUMBER_FIELD_OFFSET: nat := 0
  const CHUNK_HEADER_SIZE: nat := RECORDS_NUMBER_FIELD_OFFSET + SIZE_OF_INT

  /**
    The bytes a chunk of `recordsNumber` records takes, which is also where
    record `recordsNumber` starts.
  */
  function DefineSize(recordsNumber: int): (r: int)
    ensures recordsNumber >= 0 ==> r >= CHUNK_HEADER_SIZE
    ensures recordsNumber < MAX_CHUNK_SIZE ==>
      r + PriceRecord.SIZE_IN_BYTES <= CHUNK_HEADER_SIZE + MAX_CHUNK_SIZE * PriceRecord.SIZE_IN_BYTES
  {
    CHUNK_HEADER_SIZE + recordsNumber * PriceRecord.SIZE_IN_BYTES
  }

  /** Consecutive records are adjacent: record i ends where record i + 1 begins. */
  lemma RecordsAdjacent(i: int)
    ensures DefineSize(i) + PriceRecord.SIZE_IN_BYTES == DefineSize(i + 1)
    ensures 0 <= i ==> DefineSize(i) < DefineSize(i + 1)
  {
  }

  /** The chunk's buffer holds its count field and the count is in range. */
  predicate Valid(c: Flyweight)
    reads c, c.readBuffer
  {
    CanWrite(c, 0, CHUNK_HEADER_SIZE) && 0 <= RecordsNumber(c) <= MAX_CHUNK_SIZE as int
  }

  /** Slot `n` lies wholly inside the chunk's buffer. */
  predicate HasRoom(c: Flyweight, n: int)
    reads c
    requires c.writeBuffer != null
  {
    c.offset + DefineSize(n) + PriceRecord.SIZE_IN_BYTES <= c.writeBuffer.Length
  }

  function RecordsNumber(c: Flyweight): int32
    reads c, c.readBuffer
    requires CanRead(c, RECORDS_NUMBER_FIELD_OFFSET, SIZE_OF_INT)
  {
    ReadInt(c, RECORDS_NUMBER_FIELD_OFFSET)
  }

  function SizeInBytes(c: Flyweight): int
    reads c, c.readBuffer
    requires CanRead(c, RECORDS_NUMBER_FIELD_OFFSET, SIZE_OF_INT)
  {
    DefineSize(RecordsNumber(c))
  }

  /** Record `i` of the chunk. */
  function RecordOf(c: Flyweight, i: int): PriceRecord.PriceRecordValue
    reads c, c.readBuffer
    requires CanRead(c, DefineSize(i), PriceRecord.SIZE_IN_BYTES)
  {
    PriceRecord.RecordAt(c.readBuffer[..], c.offset + DefineSize(i))
  }

  method Reset(c: Flyweight)
    requires CanWrite(c, RECORDS_NUMBER_FIELD_OFFSET, SIZE_OF_INT)
    modifies c.writeBuffer
    ensures c.writeBuffer[..] == Splice(old(c.writeBuffer[..]), c.offset + RECORDS_NUMBER_FIELD_OFFSET, EncodeInt(0))
    ensures RecordsNumber(c) == 0 && SizeInBytes(c) == CHUNK_HEADER_SIZE
  {
    WriteInt(c, RECORDS_NUMBER_FIELD_OFFSET, 0);
  }

  /** The bytes of a chunk after record `n` is added: the count becomes n + 1 and slot `n` is written. */
  function AddedBytes(s: seq<byte>, base: int, n: int, instrument: seq<char>, asOfTimestamp: int64,
                      payload: seq<byte>, pOffset: int, pSize: int32): (r: seq<byte>)
    requires 0 <= base && 0 <= n < MAX_CHUNK_SIZE && base + DefineSize(n) + PriceRecord.SIZE_IN_BYTES <= |s|
    requires PriceRecord.Acceptable(instrument, payload, pOffset, pSize)
    ensures |r| == |s|
  {
    PriceRecord.RecordBytes(Splice(s, base + RECORDS_NUMBER_FIELD_OFFSET, EncodeInt(n + 1)), base + DefineSize(n),
      instrument, asOfTimestamp, payload, pOffset, pSize)
  }

  /** Adding record `n` raises the count to n + 1. */
  lemma AddedRecordCounted(s: seq<byte>, base: int, n: int, instrument: seq<char>, asOfTimestamp: int64,
                           payload: seq<byte>, pOffset: int, pSize: int32)
    requires 0 <= base && 0 <= n < MAX_CHUNK_SIZE && base + DefineSize(n) + PriceRecord.SIZE_IN_BYTES <= |s|
    requires PriceRecord.Acceptable(instrument, payload, pOffset, pSize)
    ensures GetInt(AddedBytes(s, base, n, instrument, asOfTimestamp, payload, pOffset, pSize), base + RECORDS_NUMBER_FIELD_OFFSET) == n + 1
  {
    CountedAsWritten(s, base, n, instrument, asOfTimestamp, payload, pOffset, pSize);
  }

  /** The count stored at the chunk's head survives any write confined to bytes past the header. */
  lemma CountKept(s: seq<byte>, base: int, n: int, t: seq<byte>, lo: int, hi: int)
    requires 0 <= base && base + CHUNK_HEADER_SIZE <= lo <= |s| && 0 <= n < MAX_CHUNK_SIZE
    requires SameOutside(Splice(s, base + RECORDS_NUMBER_FIELD_OFFSET, EncodeInt(n + 1)), t, lo, hi)
    ensures GetInt(t, base + RECORDS_NUMBER_FIELD_OFFSET) == n + 1
  {
    var countPos := base + RECORDS_NUMBER_FIELD_OFFSET;
    GetPutInt(s, countPos, n + 1);
    SameOutsideInt(Splice(s, countPos, EncodeInt(n + 1)), t, lo, hi, countPos);
  }

  /** Record `n` then reads back as given. */
  lemma AddedRecordReadsBack(s: seq<byte>, base: int, n: int, instrument: seq<char>, asOfTimestamp: int64,
                             payload: seq<byte>, pOffset: int, pSize: int32)
    requires 0 <= base && 0 <= n < MAX_CHUNK_SIZE && base + DefineSize(n) + PriceRecord.SIZE_IN_BYTES <= |s|
    requires PriceRecord.Acceptable(instrument, payload, pOffset, pSize)
    ensures PriceRecord.RecordAt(AddedBytes(s, base, n, instrument, asOfTimestamp, payload, pOffset, pSize), base + DefineSize(n))
      == PriceRecord.PriceRecordValue(Ok(DecodeTicker(EncodeTicker(instrument))), asOfTimestamp, Ok(payload[pOffset..pOffset + pSize]))
  {
    var slot := base + DefineSize(n);
    var s1 := Splice(s, base + RECORDS_NUMBER_FIELD_OFFSET, EncodeInt(n + 1));
    assert slot + PriceRecord.SIZE_IN_BYTES <= |s1|;
    assert AddedBytes(s, base, n, instrument, asOfTimestamp, payload, pOffset, pSize)
        == PriceRecord.RecordBytes(s1, slot, instrument, asOfTimestamp, payload, pOffset, pSize);
    PriceRecord.RecordRoundTrip(s1, slot, instrument, asOfTimestamp, payload, pOffset, pSize);
  }

  /** Adding record `n` leaves the records before it, and every byte after its slot, as they were. */
  lemma AddedRecordKeepsOthers(s: seq<byte>, base: int, n: int, instrument: seq<char>, asOfTimestamp: int64,
                               payload: seq<byte>, pOffset: int, pSize: int32)
    requires 0 <= base && 0 <= n < MAX_CHUNK_SIZE && base + DefineSize(n) + PriceRecord.SIZE_IN_BYTES <= |s|
    requires PriceRecord.Acceptable(instrument, payload, pOffset, pSize)
    ensures AddedBytes(s, base, n, instrument, asOfTimestamp, payload, pOffset, pSize)[base + CHUNK_HEADER_SIZE..base + DefineSize(n)]
         == s[base + CHUNK_HEADER_SIZE..base + DefineSize(n)]
    ensures AddedBytes(s, base, n, instrument, asOfTimestamp, payload, pOffset, pSize)[base + DefineSize(n) + PriceRecord.SIZE_IN_BYTES..|s|]
         == s[base + DefineSize(n) + PriceRecord.SIZE_IN_BYTES..|s|]
  {
    var slot := base + DefineSize(n);
    var hi := slot + PriceRecord.SIZE_IN_BYTES;
    var countPos := base + RECORDS_NUMBER_FIELD_OFFSET;
    var s1 := Splice(s, countPos, EncodeInt(n + 1));
    var t := AddedBytes(s, base, n, instrument, asOfTimestamp, payload, pOffset, pSize);
    PriceRecord.RecordBytesWithin(s1, slot, instrument, asOfTimestamp, payload, pOffset, pSize);
    SpliceWithin(s, countPos, EncodeInt(n + 1), countPos, base + CHUNK_HEADER_SIZE);
    SameOutsideSlice(s1, t, slot, hi, base + CHUNK_HEADER_SIZE, slot);
    SameOutsideSlice(s, s1, countPos, base + CHUNK_HEADER_SIZE, base + CHUNK_HEADER_SIZE, slot);
    SameOutsideSlice(s1, t, slot, hi, hi, |s|);
    SameOutsideSlice(s, s1, countPos, base + CHUNK_HEADER_SIZE, hi, |s|);
  }

  /**
    `addRecord` as the source has it, on the bytes `s` of a chunk at `base`
    holding `n` records: the count is raised to n + 1, then the record's
    checked setters run on slot `n`.
  */
  function AddedAsWritten(s: seq<byte>, base: int, n: int, instrument: seq<char>, asOfTimestamp: int64,
                          payload: seq<byte>, pOffset: int, pSize: int32): (r: (seq<byte>, Status))
    requires 0 <= base && base + CHUNK_HEADER_SIZE <= |s| && 0 <= n < MAX_CHUNK_SIZE
    ensures |r.0| == |s|
  {
    PriceRecord.CheckedWriteResult(Splice(s, base + RECORDS_NUMBER_FIELD_OFFSET, EncodeInt(n + 1)), base + DefineSize(n),
      instrument, asOfTimestamp, payload, pOffset, pSize)
  }

  /**
    `addRecord` as the source has it: the count is raised before the
    record's arguments are checked, so a record the setters reject is still
    counted, over whatever bytes its slot held; on a buffer that ends
    inside the slot the setters throw IndexOutOfBoundsException at the
    first put past the end, and the record is counted all the same.
  */
  method AddRecordAsWritten(c: Flyweight, record: Flyweight, instrument: seq<char>, asOfTimestamp: int64,
                            payload: seq<byte>, pOffset: int, pSize: int32) returns (r: Status)
    requires Valid(c) && record != c
    modifies record, c.writeBuffer
    ensures Valid(c)
    ensures old(RecordsNumber(c)) == MAX_CHUNK_SIZE as int ==>
      r == Thrown(IllegalState) && c.writeBuffer[..] == old(c.writeBuffer[..])
    ensures old(RecordsNumber(c)) < MAX_CHUNK_SIZE as int ==> RecordsNumber(c) == old(RecordsNumber(c)) + 1
    ensures old(RecordsNumber(c)) < MAX_CHUNK_SIZE as int && |instrument| > INSTRUMENT_MAX_TICKER_LENGTH ==> r == Thrown(IllegalArgument)
    ensures (&& old(RecordsNumber(c)) < MAX_CHUNK_SIZE as int && |instrument| <= INSTRUMENT_MAX_TICKER_LENGTH
             && pSize <= PRICE_MAX_PAYLOAD_SIZE as int && r != Done) ==> r == Thrown(IndexOutOfBounds)
    ensures r == Done <==>
      && old(RecordsNumber(c)) < MAX_CHUNK_SIZE as int && PriceRecord.Acceptable(instrument, payload, pOffset, pSize)
      && c.offset + DefineSize(old(RecordsNumber(c))) + PriceRecord.PAYLOAD_FIELD_OFFSET + pSize <= c.writeBuffer.Length
    ensures old(RecordsNumber(c)) < MAX_CHUNK_SIZE as int ==>
      (c.writeBuffer[..], r) == AddedAsWritten(old(c.writeBuffer[..]), c.offset, old(RecordsNumber(c)),
        instrument, asOfTimestamp, payload, pOffset, pSize)
    ensures r == Done && HasRoom(c, old(RecordsNumber(c))) ==>
      c.writeBuffer[..] == AddedBytes(old(c.writeBuffer[..]), c.offset, old(RecordsNumber(c)), instrument, asOfTimestamp, payload, pOffset, pSize)
  {
    var index := RecordsNumber(c);
    if index >= MAX_CHUNK_SIZE as int {
      return Thrown(IllegalState);
    }
    ghost var buffer, s0, off := c.writeBuffer, c.writeBuffer[..], c.offset;
    ghost var w := AddedAsWritten(s0, off, index, instrument, asOfTimestamp, payload, pOffset, pSize);
    CountedAsWritten(s0, off, index, instrument, asOfTimestamp, payload, pOffset, pSize);
    if HasRoom(c, index as int) {
      CountedInRoom(s0, off, index, instrument, asOfTimestamp, payload, pOffset, pSize);
    }
    r := CountThenWrite(c, record, index, instrument, asOfTimestamp, payload, pOffset, pSize, s0);
    assert c.offset == off && c.writeBuffer == buffer && old(RecordsNumber(c)) == index as int && old(c.writeBuffer[..]) == s0;
    assert (buffer[..], r) == w;
  }

  /** The two steps of `addRecord` as the source has it: the count goes up, then the record's setters run on slot `n`. */
  method CountThenWrite(c: Flyweight, record: Flyweight, n: int, instrument: seq<char>, asOfTimestamp: int64,
                        payload: seq<byte>, pOffset: int, pSize: int32, ghost s0: seq<byte>) returns (r: Status)
    requires Valid(c) && record != c && n == RecordsNumber(c) < MAX_CHUNK_SIZE as int
    requires s0 == c.writeBuffer[..]
    modifies record, c.writeBuffer
    ensures (c.writeBuffer[..], r) == AddedAsWritten(s0, c.offset, n, instrument, asOfTimestamp, payload, pOffset, pSize)
  {
    WriteInt(c, RECORDS_NUMBER_FIELD_OFFSET, n + 1);
    ghost var buffer, s1 := c.writeBuffer, c.writeBuffer[..];
    var base := c.offset + DefineSize(n);
    record.WrapForWrite(c.writeBuffer, base);
    assert record.writeBuffer == buffer && buffer[..] == s1;
    r := PriceRecord.WriteChecked(record, instrument, asOfTimestamp, payload, pOffset, pSize);
  }

  /**
    The count write followed by the record's checked setters, whatever they
    do: the count reads n + 1; the setters succeed exactly on acceptable
    arguments whose payload ends inside the buffer; an over-long ticker
    throws IllegalArgumentException and any other failure is out of bounds.
  */
  lemma CountedAsWritten(s: seq<byte>, base: int, n: int, instrument: seq<char>, asOfTimestamp: int64,
                         payload: seq<byte>, pOffset: int, pSize: int32)
    requires 0 <= base && base + CHUNK_HEADER_SIZE <= |s| && 0 <= n < MAX_CHUNK_SIZE
    ensures var w := AddedAsWritten(s, base, n, instrument, asOfTimestamp, payload, pOffset, pSize);
      && GetInt(w.0, base + RECORDS_NUMBER_FIELD_OFFSET) == n + 1
      && (w.1 == Done <==>
            PriceRecord.Acceptable(instrument, payload, pOffset, pSize) && base + DefineSize(n) + PriceRecord.PAYLOAD_FIELD_OFFSET + pSize <= |s|)
      && (|instrument| > INSTRUMENT_MAX_TICKER_LENGTH ==> w.1 == Thrown(IllegalArgument))
      && (|instrument| <= INSTRUMENT_MAX_TICKER_LENGTH && pSize <= PRICE_MAX_PAYLOAD_SIZE as int && w.1 != Done ==>
            w.1 == Thrown(IndexOutOfBounds))
  {
    var s1, slot := Splice(s, base + RECORDS_NUMBER_FIELD_OFFSET, EncodeInt(n + 1)), base + DefineSize(n);
    var w := PriceRecord.CheckedWriteResult(s1, slot, instrument, asOfTimestamp, payload, pOffset, pSize);
    assert w == AddedAsWritten(s, base, n, instrument, asOfTimestamp, payload, pOffset, pSize);
    PriceRecord.CheckedWriteOutcome(s1, slot, instrument, asOfTimestamp, payload, pOffset, pSize);
    if slot <= |s| {
      CountKept(s, base, n, w.0, slot, |s|);
    } else {
      assert w.0 == s1;
      GetPutInt(s, base + RECORDS_NUMBER_FIELD_OFFSET, n + 1);
    }
  }

  /**
    Where slot `n` fits, the count write followed by the checked setters is
    the count write followed by the plain ones, and on success it leaves
    the chunk with the record added.
  */
  lemma CountedInRoom(s: seq<byte>, base: int, n: int, instrument: seq<char>, asOfTimestamp: int64,
                      payload: seq<byte>, pOffset: int, pSize: int32)
    requires 0 <= base && 0 <= n < MAX_CHUNK_SIZE && base + DefineSize(n) + PriceRecord.SIZE_IN_BYTES <= |s|
    ensures var w := AddedAsWritten(s, base, n, instrument, asOfTimestamp, payload, pOffset, pSize);
      && w == PriceRecord.WriteResult(Splice(s, base + RECORDS_NUMBER_FIELD_OFFSET, EncodeInt(n + 1)), base + DefineSize(n),
                                      instrument, asOfTimestamp, payload, pOffset, pSize)
      && (w.1 == Done ==> w.0 == AddedBytes(s, base, n, instrument, asOfTimestamp, payload, pOffset, pSize))
  {
    var s1, slot := Splice(s, base + RECORDS_NUMBER_FIELD_OFFSET, EncodeInt(n + 1)), base + DefineSize(n);
    PriceRecord.CheckedWriteOutcome(s1, slot, instrument, asOfTimestamp, payload, pOffset, pSize);
    PriceRecord.WriteOutcome(s1, slot, instrument, asOfTimestamp, payload, pOffset, pSize);
    if PriceRecord.Acceptable(instrument, payload, pOffset, pSize) {
      AppendWrites(s, base, n, instrument, asOfTimestamp, payload, pOffset, pSize);
    }
  }

  /**
    `addRecord` checked before anything is written: IllegalStateException
    when the chunk is full, IllegalArgumentException for a ticker or payload
    size over its cap, IndexOutOfBoundsException for a payload range outside
    the source or a slot running past the chunk's buffer, and otherwise the
    record goes to the next slot (see AddedRecordReadsBack and
    AddedRecordKeepsOthers for what the chunk then holds).
  */
  method AddRecord(c: Flyweight, record: Flyweight, instrument: seq<char>, asOfTimestamp: int64,
                   payload: seq<byte>, pOffset: int, pSize: int32) returns (r: Status)
    requires Valid(c) && record != c
    modifies record, c.writeBuffer
    ensures Valid(c)
    ensures r == Done <==>
      && old(RecordsNumber(c)) < MAX_CHUNK_SIZE as int && PriceRecord.Acceptable(instrument, payload, pOffset, pSize)
      && HasRoom(c, old(RecordsNumber(c)))
    ensures r != Done ==> c.writeBuffer[..] == old(c.writeBuffer[..])
    ensures old(RecordsNumber(c)) == MAX_CHUNK_SIZE as int ==> r == Thrown(IllegalState)
    ensures old(RecordsNumber(c)) < MAX_CHUNK_SIZE as int && (|instrument| > INSTRUMENT_MAX_TICKER_LENGTH || pSize > PRICE_MAX_PAYLOAD_SIZE as int)
      ==> r == Thrown(IllegalArgument)
    ensures (&& old(RecordsNumber(c)) < MAX_CHUNK_SIZE as int && PriceRecord.Acceptable(instrument, payload, pOffset, pSize)
             && !HasRoom(c, old(RecordsNumber(c)))) ==> r == Thrown(IndexOutOfBounds)
    ensures r == Done ==>
      c.writeBuffer[..] == AddedBytes(old(c.writeBuffer[..]), c.offset, old(RecordsNumber(c)), instrument, asOfTimestamp, payload, pOffset, pSize)
    ensures r == Done ==> RecordsNumber(c) == old(RecordsNumber(c)) + 1
  {
    var index := RecordsNumber(c);
    if index >= MAX_CHUNK_SIZE as int {
      return Thrown(IllegalState);
    }
    if |instrument| > INSTRUMENT_MAX_TICKER_LENGTH || pSize > PRICE_MAX_PAYLOAD_SIZE as int {
      return Thrown(IllegalArgument);
    }
    if pSize < 0 || pOffset < 0 || pOffset + pSize > |payload| {
      return Thrown(IndexOutOfBounds);
    }
    if c.offset + DefineSize(index) + PriceRecord.SIZE_IN_BYTES > c.writeBuffer.Length {
      return Thrown(IndexOutOfBounds);
    }
    Append(c, record, instrument, asOfTimestamp, payload, pOffset, pSize);
    r := Done;
  }

  /** The writes of `addRecord` once its arguments are known to be acceptable and the slot to fit. */
  method Append(c: Flyweight, record: Flyweight, instrument: seq<char>, asOfTimestamp: int64,
                payload: seq<byte>, pOffset: int, pSize: int32)
    requires Valid(c) && record != c && RecordsNumber(c) < MAX_CHUNK_SIZE as int && HasRoom(c, RecordsNumber(c) as int)
    requires PriceRecord.Acceptable(instrument, payload, pOffset, pSize)
    modifies record, c.writeBuffer
    ensures Valid(c)
    ensures c.writeBuffer[..] == AddedBytes(old(c.writeBuffer[..]), c.offset, old(RecordsNumber(c)),
      instrument, asOfTimestamp, payload, pOffset, pSize)
    ensures RecordsNumber(c) == old(RecordsNumber(c)) + 1
  {
    var index := RecordsNumber(c);
    ghost var s0, off := c.writeBuffer[..], c.offset;
    ghost var added := AddedBytes(s0, off, index, instrument, asOfTimestamp, payload, pOffset, pSize);
    AppendWrites(s0, off, index, instrument, asOfTimestamp, payload, pOffset, pSize);
    AddedRecordCounted(s0, off, index, instrument, asOfTimestamp, payload, pOffset, pSize);
    WriteInt(c, RECORDS_NUMBER_FIELD_OFFSET, index + 1);
    ghost var buffer, s1 := c.writeBuffer, c.writeBuffer[..];
    var base := c.offset + DefineSize(index);
    assert s1 == Splice(s0, off + RECORDS_NUMBER_FIELD_OFFSET, EncodeInt(index + 1)) && base == off + DefineSize(index);
    ghost var w := PriceRecord.WriteResult(s1, base, instrument, asOfTimestamp, payload, pOffset, pSize);
    assert w.0 == added;
    record.WrapForWrite(c.writeBuffer, base);
    assert record.writeBuffer == buffer && buffer[..] == s1;
    var r := PriceRecord.Write(record, instrument, asOfTimestamp, payload, pOffset, pSize);
    assert buffer[..] == w.0;
  }

  /** The count write followed by the record's setters is the chunk after the record is added. */
  lemma AppendWrites(s: seq<byte>, base: int, n: int, instrument: seq<char>, asOfTimestamp: int64,
                     payload: seq<byte>, pOffset: int, pSize: int32)
    requires 0 <= base && 0 <= n < MAX_CHUNK_SIZE && base + DefineSize(n) + PriceRecord.SIZE_IN_BYTES <= |s|
    requires PriceRecord.Acceptable(instrument, payload, pOffset, pSize)
    ensures PriceRecord.WriteResult(Splice(s, base + RECORDS_NUMBER_FIELD_OFFSET, EncodeInt(n + 1)), base + DefineSize(n),
              instrument, asOfTimestamp, payload, pOffset, pSize).0
         == AddedBytes(s, base, n, instrument, asOfTimestamp, payload, pOffset, pSize)
  {
    var s1, slot := Splice(s, base + RECORDS_NUMBER_FIELD_OFFSET, EncodeInt(n + 1)), base + DefineSize(n);
    PriceRecord.WriteOutcome(s1, slot, instrument, asOfTimestamp, payload, pOffset, pSize);
  }

  /** `priceRecord(i)`: binds `record` for reading over slot `i`; the index is not checked. */
  method PriceRecordAt(c: Flyweight, record: Flyweight, index: int)
    requires c.readBuffer != null && record != c
    modifies record
    ensures record.readBuffer == c.readBuffer && record.writeBuffer == null
    ensures record.offset == c.offset + DefineSize(index)
    ensures CanRead(c, DefineSize(index), PriceRecord.SIZE_IN_BYTES) ==>
      PriceRecord.Readable(record) && PriceRecord.RecordAt(record.readBuffer[..], record.offset) == RecordOf(c, index)
  {
    record.WrapForRead(c.readBuffer, c.offset + DefineSize(index));
  }

  /**
    An over-long ticker added to an empty chunk: as written, the call throws
    and yet the chunk counts one record; checked first, it stays empty.
  */
  method OverlongTickerAsWritten(payload: seq<byte>) returns (r: Status, count: int32)
    ensures r == Thrown(IllegalArgument) && count == 1
  {
    var c := new Flyweight();
    AllocateMemoryForFlyweight(c, DefineSize(MAX_CHUNK_SIZE));
    Reset(c);
    var record := new Flyweight();
    r := AddRecordAsWritten(c, record, "INSTRUMENT1", 0, payload, 0, 0);
    count := RecordsNumber(c);
  }

  method OverlongTicker(payload: seq<byte>) returns (r: Status, count: int32)
    ensures r == Thrown(IllegalArgument) && count == 0
  {
    var c := new Flyweight();
    AllocateMemoryForFlyweight(c, DefineSize(MAX_CHUNK_SIZE));
    Reset(c);
    var record := new Flyweight();
    r := AddRecord(c, record, "INSTRUMENT1", 0, payload, 0, 0);
    count := RecordsNumber(c);
  }

  /**
    A chunk allocated for one record is given a second: as written, the
    count reaches two and the setters throw past the buffer's end; checked
    first, the second record is refused and the chunk keeps one.
  */
  method SecondRecordPastEndAsWritten() returns (r: Status, count: int32)
    ensures r == Thrown(IndexOutOfBounds) && count == 2
  {
    var c := new Flyweight();
    AllocateMemoryForFlyweight(c, DefineSize(1));
    Reset(c);
    var record := new Flyweight();
    RecordsAdjacent(0);
    assert c.writeBuffer.Length == DefineSize(1) == DefineSize(0) + PriceRecord.SIZE_IN_BYTES;
    var first := AddRecordAsWritten(c, record, "AAPL", 0, [], 0, 0);
    assert RecordsNumber(c) == 1;
    r := AddRecordAsWritten(c, record, "MSFT", 0, [], 0, 0);
    count := RecordsNumber(c);
  }

  method SecondRecordPastEnd() returns (r: Status, count: int32)
    ensures r == Thrown(IndexOutOfBounds) && count == 1
  {
    var c := new Flyweight();
    AllocateMemoryForFlyweight(c, DefineSize(1));
    Reset(c);
    var record := new Flyweight();
    RecordsAdjacent(0);
    RecordsAdjacent(1);
    assert PriceRecord.Acceptable("AAPL", [], 0, 0) && HasRoom(c, 0) && !HasRoom(c, 1);
    var first := AddRecord(c, record, "AAPL", 0, [], 0, 0);
    assert RecordsNumber(c) == 1;
    r := AddRecord(c, record, "MSFT", 0, [], 0, 0);
    count := RecordsNumber(c);
  }
}
