/**
  The fixed-size request and response messages of the last-price service.
  Each is a message header followed by a few `int`/`long` fields at constant
  offsets; the setters write the field in place and leave the header and the
  message's other fields as they were.
*/
module StartBatchRunRequest {
  import opened Bytes
  import opened Message
  import opened MessageTypes

  /** The request has no body: everything it says is in the header. */
  const MESSAGE_SIZE: nat := MESSAGE_HEADER_LENGTH

  function SizeInBytes(): nat { MESSAGE_SIZE }

  function UniqueType(): int32 { START_BATCH_REQUEST_MESSAGE_TYPE }
}

module StartBatchRunResponse {
  import opened Bytes
  import opened Flyweight
  import opened Message
  import opened MessageTypes

  const SUCCESS_STATUS: int32 := 0
  const CAN_NOT_CREATE_BATCH_STATUS: int32 := 1

  const STATUS_FIELD_OFFSET: nat := MESSAGE_HEADER_LENGTH
  const BATCH_ID_FIELD_OFFSET: nat := STATUS_FIELD_OFFSET + SIZE_OF_INT
  const MESSAGE_SIZE: nat := BATCH_ID_FIELD_OFFSET + SIZE_OF_LONG

  predicate Readable(m: Flyweight)
    reads m
  {
    CanRead(m, 0, MESSAGE_SIZE)
  }

  predicate Writable(m: Flyweight)
    reads m
  {
    CanWrite(m, 0, MESSAGE_SIZE)
  }

  function Status(m: Flyweight): int32
    reads m, m.readBuffer
    requires Readable(m)
  {
    ReadInt(m, STATUS_FIELD_OFFSET)
  }

  function BatchId(m: Flyweight): int64
    reads m, m.readBuffer
    requires Readable(m)
  {
    ReadLong(m, BATCH_ID_FIELD_OFFSET)
  }

  /** The status reads back; the batch id and the header stay as they were. */
  method SetStatus(m: Flyweight, status: int32)
    requires Writable(m)
    modifies m.writeBuffer
    ensures m.writeBuffer[..] == Splice(old(m.writeBuffer[..]), m.offset + STATUS_FIELD_OFFSET, EncodeInt(status))
    ensures Status(m) == status && BatchId(m) == old(BatchId(m)) && HeaderOf(m) == old(HeaderOf(m))
  {
    SetIntField(m, STATUS_FIELD_OFFSET, status);
    GetLongElsewhere(old(m.writeBuffer[..]), m.offset + STATUS_FIELD_OFFSET, EncodeInt(status), m.offset + BATCH_ID_FIELD_OFFSET);
  }

  /** The batch id reads back; the status and the header stay as they were. */
  method SetBatchId(m: Flyweight, batchId: int64)
    requires Writable(m)
    modifies m.writeBuffer
    ensures m.writeBuffer[..] == Splice(old(m.writeBuffer[..]), m.offset + BATCH_ID_FIELD_OFFSET, EncodeLong(batchId))
    ensures BatchId(m) == batchId && Status(m) == old(Status(m)) && HeaderOf(m) == old(HeaderOf(m))
  {
    SetLongField(m, BATCH_ID_FIELD_OFFSET, batchId);
    GetIntElsewhere(old(m.writeBuffer[..]), m.offset + BATCH_ID_FIELD_OFFSET, EncodeLong(batchId), m.offset + STATUS_FIELD_OFFSET);
  }

  function SizeInBytes(): nat { MESSAGE_SIZE }

  function UniqueType(): int32 { START_BATCH_RESPONSE_MESSAGE_TYPE }
}

/**
  The three responses that carry only a status: the status at 24, then a
  4-byte slot (named for a batch id) that nothing writes.
*/
module StatusResponse {
  import opened Bytes
  import opened Flyweight
  import opened Message

  const STATUS_FIELD_OFFSET: nat := MESSAGE_HEADER_LENGTH
  const BATCH_ID_FIELD_OFFSET: nat := STATUS_FIELD_OFFSET + SIZE_OF_INT
  const MESSAGE_SIZE: nat := BATCH_ID_FIELD_OFFSET + SIZE_OF_INT

  predicate Readable(m: Flyweight)
    reads m
  {
    CanRead(m, 0, MESSAGE_SIZE)
  }

  predicate Writable(m: Flyweight)
    reads m
  {
    CanWrite(m, 0, MESSAGE_SIZE)
  }

  function Status(m: Flyweight): int32
    reads m, m.readBuffer
    requires Readable(m)
  {
    ReadInt(m, STATUS_FIELD_OFFSET)
  }

  /** The status reads back; the header and the unused slot stay as they were. */
  method SetStatus(m: Flyweight, status: int32)
    requires Writable(m)
    modifies m.writeBuffer
    ensures m.writeBuffer[..] == Splice(old(m.writeBuffer[..]), m.offset + STATUS_FIELD_OFFSET, EncodeInt(status))
    ensures Status(m) == status && HeaderOf(m) == old(HeaderOf(m))
    ensures ReadInt(m, BATCH_ID_FIELD_OFFSET) == old(ReadInt(m, BATCH_ID_FIELD_OFFSET))
  {
    SetIntField(m, STATUS_FIELD_OFFSET, status);
    GetIntElsewhere(old(m.writeBuffer[..]), m.offset + STATUS_FIELD_OFFSET, EncodeInt(status), m.offset + BATCH_ID_FIELD_OFFSET);
  }

  function SizeInBytes(): nat { MESSAGE_SIZE }
}

module UploadChunkResponse {
  import opened Bytes
  import opened MessageTypes

  const SUCCESS_STATUS: int32 := 0
  const BATCH_RUN_NOT_FOUND_STATUS: int32 := 1
  const INSTRUMENT_NOT_FOUND_STATUS: int32 := 2

  function UniqueType(): int32 { UPLOAD_CHUNK_RESPONSE_MESSAGE_TYPE }
}

module CancelBatchRunResponse {
  import opened Bytes
  import opened MessageTypes

  const SUCCESS_STATUS: int32 := 0

  function UniqueType(): int32 { CANCEL_BATCH_RESPONSE_MESSAGE_TYPE }
}

module CompleteBatchRunResponse {
  import opened Bytes
  import opened MessageTypes

  const SUCCESS_STATUS: int32 := 0
  const BATCH_RUN_NOT_FOUND_STATUS: int32 := 1

  function UniqueType(): int32 { COMPLETE_BATCH_RESPONSE_MESSAGE_TYPE }
}

/**
  The two requests that name a batch and nothing else: the batch id at 24.
  The cancel request is laid out this way; the complete request, whose
  source is not part of this model, is taken to share the layout, as the
  handler and the client use it the same way.
*/
module BatchIdRequest {
  import opened Bytes
  import opened Flyweight
  import opened Message
  import opened MessageTypes

  const BATCH_ID_FIELD_OFFSET: nat := MESSAGE_HEADER_LENGTH
  const MESSAGE_SIZE: nat := BATCH_ID_FIELD_OFFSET + SIZE_OF_LONG

  predicate Readable(m: Flyweight)
    reads m
  {
    CanRead(m, 0, MESSAGE_SIZE)
  }

  predicate Writable(m: Flyweight)
    reads m
  {
    CanWrite(m, 0, MESSAGE_SIZE)
  }

  function BatchId(m: Flyweight): int64
    reads m, m.readBuffer
    requires Readable(m)
  {
    ReadLong(m, BATCH_ID_FIELD_OFFSET)
  }

  /** The batch id reads back and the header stays as it was. */
  method SetBatchId(m: Flyweight, batchId: int64)
    requires Writable(m)
    modifies m.writeBuffer
    ensures m.writeBuffer[..] == Splice(old(m.writeBuffer[..]), m.offset + BATCH_ID_FIELD_OFFSET, EncodeLong(batchId))
    ensures BatchId(m) == batchId && HeaderOf(m) == old(HeaderOf(m))
  {
    SetLongField(m, BATCH_ID_FIELD_OFFSET, batchId);
  }

  function SizeInBytes(): nat { MESSAGE_SIZE }

  function CancelUniqueType(): int32 { CANCEL_BATCH_REQUEST_MESSAGE_TYPE }

  function CompleteUniqueType(): int32 { COMPLETE_BATCH_REQUEST_MESSAGE_TYPE }
}

/**
  A request for the last price of one instrument: the ticker, stored like a
  price record's ticker, right after the header.
*/
module LastPriceRequest {
  import opened Bytes
  import opened Errors
  import opened Flyweight
  import opened Message
  import opened MessageTypes
  import opened Configuration
  import opened Ticker

  const INSTRUMENT_TICKER_LENGTH_FIELD_OFFSET: nat := MESSAGE_HEADER_LENGTH
  const INSTRUMENT_TICKER_FIELD_OFFSET: nat := INSTRUMENT_TICKER_LENGTH_FIELD_OFFSET + SIZE_OF_INT
  const MESSAGE_SIZE: nat := INSTRUMENT_TICKER_FIELD_OFFSET + INSTRUMENT_MAX_TICKER_LENGTH

  predicate Readable(m: Flyweight)
    reads m
  {
    CanRead(m, 0, MESSAGE_SIZE)
  }

  predicate Writable(m: Flyweight)
    reads m
  {
    CanWrite(m, 0, MESSAGE_SIZE)
  }

  function InstrumentTickerLength(m: Flyweight): int32
    reads m, m.readBuffer
    requires Readable(m)
  {
    ReadInt(m, INSTRUMENT_TICKER_LENGTH_FIELD_OFFSET)
  }

  /** The stored ticker: exactly `instrumentTickerLength` bytes, whatever follows them. */
  function Instrument(m: Flyweight): Result<seq<char>>
    reads m, m.readBuffer
    requires Readable(m)
  {
    TickerAt(m.readBuffer[..], m.offset + INSTRUMENT_TICKER_LENGTH_FIELD_OFFSET, m.offset + INSTRUMENT_TICKER_FIELD_OFFSET)
  }

  /**
    `instrument(CharSequence)`: IllegalArgumentException, with nothing
    written, for a ticker over the cap; otherwise the ticker reads back
    (exactly, when it is ASCII) whatever longer ticker was stored before, and
    the header is untouched.
  */
  method SetInstrument(m: Flyweight, instrument: seq<char>) returns (r: Errors.Status)
    requires Writable(m)
    modifies m.writeBuffer
    ensures r == Done <==> |instrument| <= INSTRUMENT_MAX_TICKER_LENGTH
    ensures r != Done ==> r == Thrown(IllegalArgument) && m.writeBuffer[..] == old(m.writeBuffer[..])
    ensures r == Done ==> m.writeBuffer[..] == PutTickerBytes(old(m.writeBuffer[..]),
      m.offset + INSTRUMENT_TICKER_LENGTH_FIELD_OFFSET, m.offset + INSTRUMENT_TICKER_FIELD_OFFSET, instrument)
    ensures r == Done ==> Instrument(m) == Ok(DecodeTicker(EncodeTicker(instrument))) && HeaderOf(m) == old(HeaderOf(m))
    ensures r == Done && IsAscii(instrument) ==> Instrument(m) == Ok(instrument)
  {
    ghost var s0 := m.writeBuffer[..];
    ghost var lenPos, tickerPos := m.offset + INSTRUMENT_TICKER_LENGTH_FIELD_OFFSET, m.offset + INSTRUMENT_TICKER_FIELD_OFFSET;
    r := WriteTicker(m, INSTRUMENT_TICKER_LENGTH_FIELD_OFFSET, INSTRUMENT_TICKER_FIELD_OFFSET, instrument);
    if r == Done {
      TickerRoundTrip(s0, lenPos, tickerPos, instrument);
      PutTickerBytesWithin(s0, lenPos, tickerPos, instrument, lenPos, m.offset + MESSAGE_SIZE);
      HeaderOutside(s0, m.writeBuffer[..], m.offset, lenPos, m.offset + MESSAGE_SIZE);
    }
  }

  function SizeInBytes(): nat { MESSAGE_SIZE }

  function UniqueType(): int32 { LAST_PRICE_REQUEST_MESSAGE_TYPE }
}

/**
  The answer to a last-price request: a status and, on success, the price
  record, nested at 28. The nested view is bound for reading or for writing
  over the response's own buffer.
*/
module LastPriceResponse {
  import opened Bytes
  import opened Flyweight
  import opened Message
  import opened MessageTypes
  import PriceRecord

  const SUCCESS_STATUS: int32 := 0
  const WRONG_INSTRUMENT_STATUS: int32 := 1
  const PRICE_NOT_AVAILABLE_STATUS: int32 := 2

  const STATUS_FIELD_OFFSET: nat := MESSAGE_HEADER_LENGTH
  const PRICE_RECORD_FIELD_OFFSET: nat := STATUS_FIELD_OFFSET + SIZE_OF_INT
  const MESSAGE_SIZE: nat := PRICE_RECORD_FIELD_OFFSET + PriceRecord.SIZE_IN_BYTES

  predicate Readable(m: Flyweight)
    reads m
  {
    CanRead(m, 0, MESSAGE_SIZE)
  }

  predicate Writable(m: Flyweight)
    reads m
  {
    CanWrite(m, 0, MESSAGE_SIZE)
  }

  function Status(m: Flyweight): int32
    reads m, m.readBuffer
    requires Readable(m)
  {
    ReadInt(m, STATUS_FIELD_OFFSET)
  }

  /** The status reads back; the header and the nested record stay as they were. */
  method SetStatus(m: Flyweight, status: int32)
    requires Writable(m)
    modifies m.writeBuffer
    ensures m.writeBuffer[..] == Splice(old(m.writeBuffer[..]), m.offset + STATUS_FIELD_OFFSET, EncodeInt(status))
    ensures Status(m) == status && HeaderOf(m) == old(HeaderOf(m))
    ensures PriceRecord.RecordAt(m.writeBuffer[..], m.offset + PRICE_RECORD_FIELD_OFFSET)
         == old(PriceRecord.RecordAt(m.writeBuffer[..], m.offset + PRICE_RECORD_FIELD_OFFSET))
  {
    ghost var s0 := m.writeBuffer[..];
    SetIntField(m, STATUS_FIELD_OFFSET, status);
    SpliceWithin(s0, m.offset + STATUS_FIELD_OFFSET, EncodeInt(status), m.offset + STATUS_FIELD_OFFSET, m.offset + PRICE_RECORD_FIELD_OFFSET);
    PriceRecord.RecordAfterOutsideWrite(s0, m.writeBuffer[..], m.offset + STATUS_FIELD_OFFSET,
      m.offset + PRICE_RECORD_FIELD_OFFSET, m.offset + PRICE_RECORD_FIELD_OFFSET);
  }

  /** `priceRecord()`: the shared record view, bound for reading at 28 of the response. */
  method PriceRecordView(m: Flyweight, record: Flyweight)
    requires m.readBuffer != null && record != m
    modifies record
    ensures record.readBuffer == m.readBuffer && record.writeBuffer == null
    ensures record.offset == m.offset + PRICE_RECORD_FIELD_OFFSET
  {
    record.WrapForRead(m.readBuffer, m.offset + PRICE_RECORD_FIELD_OFFSET);
  }

  /** `priceRecordForWrite()`: the same view, bound for writing at the same place. */
  method PriceRecordForWrite(m: Flyweight, record: Flyweight)
    requires Writable(m) && record != m
    modifies record
    ensures record.readBuffer == m.writeBuffer && record.writeBuffer == m.writeBuffer
    ensures record.offset == m.offset + PRICE_RECORD_FIELD_OFFSET && PriceRecord.Writable(record)
  {
    record.WrapForWrite(m.writeBuffer, m.offset + PRICE_RECORD_FIELD_OFFSET);
  }

  function SizeInBytes(): nat { MESSAGE_SIZE }

  function UniqueType(): int32 { LAST_PRICE_RESPONSE_MESSAGE_TYPE }
}
