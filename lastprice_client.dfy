/**
  The last-price service's client. Each operation has a request message of
  its own, built once in a buffer of its own, and a response view; every
  response view is bound to the start of the client's response buffer, so
  each reads whatever response the last call matched. An operation writes
  its request's fields, makes the call, and reads its answer through its
  view: the record or nothing for a last-price request, the batch id for a
  start, and whether the status is SUCCESS for an upload, a cancel or a
  completion. A call that fails to send or times out ends with that
  exception.
*/
module LastPriceServiceClient {
  import opened Bytes
  import opened Errors
  import opened Flyweight
  import opened Message
  import opened MessageTypes
  import opened Configuration
  import opened Ticker
  import opened AeronPublication
  import opened ServerPublication
  import opened InboundRing
  import opened ServiceClient
  import PriceRecord
  import PriceRecordsChunk
  import LastPriceRequest
  import LastPriceResponse
  import StartBatchRunRequest
  import StartBatchRunResponse
  import UploadChunkRequest
  import UploadChunkResponse
  import BatchIdRequest
  import StatusResponse
  import CancelBatchRunResponse
  import CompleteBatchRunResponse

  /** What `requestLastPrice` makes of a response: its record when the status is SUCCESS, nothing otherwise. */
  function LastPriceOf(response: seq<byte>): Option<PriceRecord.PriceRecordValue>
    requires LastPriceResponse.MESSAGE_SIZE <= |response|
  {
    if GetInt(response, LastPriceResponse.STATUS_FIELD_OFFSET) == LastPriceResponse.SUCCESS_STATUS
    then Some(PriceRecord.RecordAt(response, LastPriceResponse.PRICE_RECORD_FIELD_OFFSET))
    else None
  }

  /** What `startBatchRun` makes of a response: the batch id field, whatever the status says. */
  function StartedBatchOf(response: seq<byte>): int64
    requires StartBatchRunResponse.MESSAGE_SIZE <= |response|
  {
    GetLong(response, StartBatchRunResponse.BATCH_ID_FIELD_OFFSET)
  }

  /** What an upload, a cancel or a completion makes of a response: whether its status is `success`. */
  function SucceededOf(response: seq<byte>, success: int32): bool
    requires StatusResponse.MESSAGE_SIZE <= |response|
  {
    GetInt(response, StatusResponse.STATUS_FIELD_OFFSET) == success
  }

  /** A response's first bytes survive being copied to the start of the response buffer. */
  lemma CopiedResponse(buffer: seq<byte>, bytes: seq<byte>, pos: int, width: nat)
    requires |bytes| <= |buffer| && 0 <= pos && pos + width <= |bytes|
    ensures Splice(buffer, 0, bytes)[pos..pos + width] == bytes[pos..pos + width]
  {
    SpliceAt(buffer, 0, bytes);
  }

  /** A call whose response heads the client's queue ends with that response at the start of the response buffer. */
  lemma AnsweredWith(queue: seq<InboundRecord>, buffer: seq<byte>, clock: seq<int64>, waitTimeoutNs: int64, correlationId: int64)
    requires |buffer| == MAX_RESPONSE_SIZE && CallReady(clock, waitTimeoutNs)
    requires queue != [] && MESSAGE_HEADER_LENGTH <= |queue[0].bytes| <= MAX_RESPONSE_SIZE
    requires GetLong(queue[0].bytes, CORRELATION_ID_FIELD_OFFSET) == correlationId
    ensures Answer(Await(queue, buffer, clock, waitTimeoutNs, correlationId)) == Ok(Splice(buffer, 0, queue[0].bytes))
  {
    WaitingResponseWins(queue, buffer, clock[1..], AddLong(clock[0], waitTimeoutNs), correlationId);
  }

  /**
    A last-price request answered by a response carrying a whole record
    gives that record exactly when the response's status is SUCCESS.
  */
  lemma LastPriceAnswered(queue: seq<InboundRecord>, buffer: seq<byte>, clock: seq<int64>, waitTimeoutNs: int64, correlationId: int64)
    requires |buffer| == MAX_RESPONSE_SIZE && CallReady(clock, waitTimeoutNs)
    requires queue != [] && LastPriceResponse.MESSAGE_SIZE <= |queue[0].bytes| <= MAX_RESPONSE_SIZE
    requires GetLong(queue[0].bytes, CORRELATION_ID_FIELD_OFFSET) == correlationId
    ensures var a := Answer(Await(queue, buffer, clock, waitTimeoutNs, correlationId));
      && a.Ok? && a.value[..|queue[0].bytes|] == queue[0].bytes
      && (LastPriceOf(a.value).Some?
          <==> GetInt(queue[0].bytes, LastPriceResponse.STATUS_FIELD_OFFSET) == LastPriceResponse.SUCCESS_STATUS)
  {
    var bytes := queue[0].bytes;
    AnsweredWith(queue, buffer, clock, waitTimeoutNs, correlationId);
    CopiedResponse(buffer, bytes, 0, |bytes|);
    CopiedResponse(buffer, bytes, LastPriceResponse.STATUS_FIELD_OFFSET, SIZE_OF_INT);
  }

  /**
    A start answered by a response returns that response's batch id field
    whatever its status, a refusal (CAN_NOT_CREATE_BATCH) included.
  */
  lemma StartAnswered(queue: seq<InboundRecord>, buffer: seq<byte>, clock: seq<int64>, waitTimeoutNs: int64, correlationId: int64)
    requires |buffer| == MAX_RESPONSE_SIZE && CallReady(clock, waitTimeoutNs)
    requires queue != [] && StartBatchRunResponse.MESSAGE_SIZE <= |queue[0].bytes| <= MAX_RESPONSE_SIZE
    requires GetLong(queue[0].bytes, CORRELATION_ID_FIELD_OFFSET) == correlationId
    ensures var a := Answer(Await(queue, buffer, clock, waitTimeoutNs, correlationId));
      a.Ok? && StartedBatchOf(a.value) == GetLong(queue[0].bytes, StartBatchRunResponse.BATCH_ID_FIELD_OFFSET)
  {
    AnsweredWith(queue, buffer, clock, waitTimeoutNs, correlationId);
    CopiedResponse(buffer, queue[0].bytes, StartBatchRunResponse.BATCH_ID_FIELD_OFFSET, SIZE_OF_LONG);
  }

  /** An upload, a cancel or a completion answered by a response succeeds exactly when that response's status is `success`. */
  lemma StatusAnswered(queue: seq<InboundRecord>, buffer: seq<byte>, clock: seq<int64>, waitTimeoutNs: int64, correlationId: int64,
                       success: int32)
    requires |buffer| == MAX_RESPONSE_SIZE && CallReady(clock, waitTimeoutNs)
    requires queue != [] && StatusResponse.MESSAGE_SIZE <= |queue[0].bytes| <= MAX_RESPONSE_SIZE
    requires GetLong(queue[0].bytes, CORRELATION_ID_FIELD_OFFSET) == correlationId
    ensures var a := Answer(Await(queue, buffer, clock, waitTimeoutNs, correlationId));
      a.Ok? && (SucceededOf(a.value, success) <==> GetInt(queue[0].bytes, StatusResponse.STATUS_FIELD_OFFSET) == success)
  {
    AnsweredWith(queue, buffer, clock, waitTimeoutNs, correlationId);
    CopiedResponse(buffer, queue[0].bytes, StatusResponse.STATUS_FIELD_OFFSET, SIZE_OF_INT);
  }

  /** The ticker a last-price request holds, read as `instrument()` reads it. */
  function InstrumentOf(request: seq<byte>): Result<seq<char>>
    requires LastPriceRequest.MESSAGE_SIZE <= |request|
  {
    TickerAt(request, LastPriceRequest.INSTRUMENT_TICKER_LENGTH_FIELD_OFFSET, LastPriceRequest.INSTRUMENT_TICKER_FIELD_OFFSET)
  }

  /** The batch id a cancel, completion or upload request holds, right after the header. */
  function BatchIdOf(request: seq<byte>): int64
    requires BatchIdRequest.MESSAGE_SIZE <= |request|
  {
    GetLong(request, BatchIdRequest.BATCH_ID_FIELD_OFFSET)
  }

  /** A chunk an upload can take: its count is readable and at most a full chunk. */
  predicate ChunkInRange(chunk: Flyweight)
    reads chunk, chunk.readBuffer
  {
    CanRead(chunk, 0, SIZE_OF_INT) && 0 <= PriceRecordsChunk.RecordsNumber(chunk) <= MAX_CHUNK_SIZE as int
  }

  /** The chunk's count and all its records lie inside its own buffer. */
  predicate ChunkFits(chunk: Flyweight)
    reads chunk, chunk.readBuffer
    requires ChunkInRange(chunk)
  {
    CanRead(chunk, 0, PriceRecordsChunk.SizeInBytes(chunk))
  }

  /** The bytes of a chunk that fits: its count, then its records; after a request header they fit the largest upload. */
  function ChunkBytes(chunk: Flyweight): (r: seq<byte>)
    reads chunk, chunk.readBuffer
    requires ChunkInRange(chunk) && ChunkFits(chunk)
    ensures |r| == PriceRecordsChunk.DefineSize(PriceRecordsChunk.RecordsNumber(chunk) as int)
    ensures UploadChunkRequest.REQUEST_HEADER_LENGTH + |r| <= UploadChunkRequest.MaxSize()
    ensures r[..SIZE_OF_INT] == chunk.readBuffer[chunk.offset..chunk.offset + SIZE_OF_INT]
  {
    UploadChunkRequest.SizeCoversChunk(PriceRecordsChunk.RecordsNumber(chunk) as int);
    ReadBytes(chunk, 0, PriceRecordsChunk.SizeInBytes(chunk))
  }

  /** A header rewrite leaves a ticker stored after the header as it was. */
  lemma HeaderChangeKeepsTicker(s: seq<byte>, t: seq<byte>)
    requires |s| >= LastPriceRequest.MESSAGE_SIZE && SameOutside(s, t, 0, MESSAGE_HEADER_LENGTH)
    ensures |t| == |s| && InstrumentOf(t) == InstrumentOf(s)
  {
    var lenPos, pos := LastPriceRequest.INSTRUMENT_TICKER_LENGTH_FIELD_OFFSET, LastPriceRequest.INSTRUMENT_TICKER_FIELD_OFFSET;
    SameOutsideInt(s, t, 0, MESSAGE_HEADER_LENGTH, lenPos);
    var len := GetInt(s, lenPos);
    if 0 <= len && pos + len <= |s| {
      SameOutsideSlice(s, t, 0, MESSAGE_HEADER_LENGTH, pos, pos + len);
    }
  }

  /** The header of the request held at the start of `buffer`. */
  ghost function HeaderIn(buffer: array<byte>): Header
    reads buffer
    requires MESSAGE_HEADER_LENGTH <= buffer.Length
  {
    HeaderAt(buffer[..], 0)
  }

  /** Five request buffers and the response buffer, no two the same. */
  predicate Apart(a: array<byte>, b: array<byte>, c: array<byte>, d: array<byte>, e: array<byte>, response: array<byte>)
  {
    && a != b && a != c && a != d && a != e && a != response
    && b != c && b != d && b != e && b != response
    && c != d && c != e && c != response
    && d != e && d != response
    && e != response
  }

  class LastPriceServiceClient {
    const client: ServiceClient
    /** The buffers the five requests are allocated in, each request at offset 0 of its own. */
    const lastPriceBuffer: array<byte>
    const startBatchBuffer: array<byte>
    const uploadChunkBuffer: array<byte>
    const cancelBatchBuffer: array<byte>
    const completeBatchBuffer: array<byte>
    /** The record view `priceRecord()` rebinds inside the response buffer: every answer is this one view. */
    const priceRecord: Flyweight

    /** The publication a call goes out on, when a connect registered one. */
    ghost function Registered(): set<Publication>
      reads client.registration
    {
      if client.registration.publication != null then {client.registration.publication.publication} else {}
    }

    /** A call can be sent: a publication is registered and open. */
    ghost predicate CanSend()
      reads client.registration, Registered()
    {
      client.registration.publication != null && !client.registration.publication.publication.closed
    }

    /**
      The request buffers have their messages' sizes (the upload request's
      the largest upload's) and are apart from each other and from the
      response buffer. Fixed at construction.
    */
    ghost predicate Owned()
    {
      && lastPriceBuffer.Length == LastPriceRequest.MESSAGE_SIZE
      && startBatchBuffer.Length == StartBatchRunRequest.MESSAGE_SIZE
      && uploadChunkBuffer.Length == UploadChunkRequest.MaxSize()
      && cancelBatchBuffer.Length == BatchIdRequest.MESSAGE_SIZE
      && completeBatchBuffer.Length == BatchIdRequest.MESSAGE_SIZE
      && Apart(lastPriceBuffer, startBatchBuffer, uploadChunkBuffer, cancelBatchBuffer, completeBatchBuffer, client.poller.buffer)
    }

    /** The buffers are owned as fixed at construction and the response poller is valid. */
    ghost predicate Valid()
      reads client.poller.ring
    {
      Owned() && client.Valid()
    }

    /**
      `allocateMemoryForRequestMessages`: each request gets a zeroed buffer of
      its size with its type written, the upload request one of the largest
      upload's size.
    */
    constructor (clientId: int32, registration: Registration, waitTimeoutNs: int64, ring: RingBuffer)
      requires ring.Valid()
      ensures Valid() && fresh(client) && fresh(client.poller) && fresh(client.poller.buffer) && fresh(priceRecord)
      ensures fresh(lastPriceBuffer) && fresh(startBatchBuffer) && fresh(uploadChunkBuffer)
      ensures fresh(cancelBatchBuffer) && fresh(completeBatchBuffer)
      ensures client.clientId == clientId && client.registration == registration && client.waitTimeoutNs == waitTimeoutNs
      ensures client.poller.ring == ring
      ensures HeaderIn(lastPriceBuffer) == Header(LastPriceRequest.UniqueType(), 0, 0, 0)
      ensures HeaderIn(startBatchBuffer) == Header(StartBatchRunRequest.UniqueType(), 0, 0, 0)
      ensures HeaderIn(uploadChunkBuffer) == Header(UploadChunkRequest.UniqueType(), 0, 0, 0)
      ensures HeaderIn(cancelBatchBuffer) == Header(BatchIdRequest.CancelUniqueType(), 0, 0, 0)
      ensures HeaderIn(completeBatchBuffer) == Header(BatchIdRequest.CompleteUniqueType(), 0, 0, 0)
    {
      var c := new ServiceClient(clientId, registration, waitTimeoutNs, ring);
      var q1 := NewRequest(LastPriceRequest.MESSAGE_SIZE, LastPriceRequest.UniqueType());
      var q2 := NewRequest(StartBatchRunRequest.MESSAGE_SIZE, StartBatchRunRequest.UniqueType());
      var q3 := NewRequest(UploadChunkRequest.MaxSize(), UploadChunkRequest.UniqueType());
      var q4 := NewRequest(BatchIdRequest.MESSAGE_SIZE, BatchIdRequest.CancelUniqueType());
      var q5 := NewRequest(BatchIdRequest.MESSAGE_SIZE, BatchIdRequest.CompleteUniqueType());
      client := c;
      lastPriceBuffer, startBatchBuffer, uploadChunkBuffer, cancelBatchBuffer, completeBatchBuffer := q1, q2, q3, q4, q5;
      priceRecord := new Flyweight();
    }

    /**
      `requestLastPrice`: the ticker goes into the request (a ticker over the
      cap throws IllegalArgumentException and nothing is sent); the call's
      response gives the record view when its status is SUCCESS and nothing
      otherwise. A failed send or a timeout ends the operation with that
      exception.
    */
    method RequestLastPrice(instrument: seq<char>, correlationId: int64, clock: seq<int64>, offers: seq<int>)
      returns (r: Result<Option<Flyweight>>, ghost sent: Status)
      requires Valid() && CallReady(clock, client.waitTimeoutNs)
      requires CanSend() ==> Settles(offers, true)
      modifies lastPriceBuffer, client.poller, client.poller.buffer, client.poller.ring, Registered(), priceRecord
      ensures Valid()
      ensures |instrument| > INSTRUMENT_MAX_TICKER_LENGTH ==>
        && r == Err(IllegalArgument) && sent == Thrown(IllegalArgument)
        && lastPriceBuffer[..] == old(lastPriceBuffer[..]) && client.poller.ring.records == old(client.poller.ring.records)
      ensures |instrument| > INSTRUMENT_MAX_TICKER_LENGTH && client.registration.publication != null ==>
        client.registration.publication.publication.log == old(client.registration.publication.publication.log)
      ensures |instrument| <= INSTRUMENT_MAX_TICKER_LENGTH ==>
        && (client.registration.publication == null ==> sent == Thrown(NullPointer))
        && (client.registration.publication != null && old(client.registration.publication.publication.closed) ==> sent == Thrown(IllegalState))
        && (client.registration.publication != null && !old(client.registration.publication.publication.closed) ==>
              (sent == Done <==> Outcome(offers, true) == Accepted))
        && (sent != Done ==> r == Err(sent.error))
      ensures |instrument| <= INSTRUMENT_MAX_TICKER_LENGTH && sent == Done ==>
        && client.registration.publication != null
        && HeaderIn(lastPriceBuffer) == old(HeaderIn(lastPriceBuffer)).(
             connectionId := client.registration.publication.connectionId, clientId := client.clientId, correlationId := correlationId)
        && InstrumentOf(lastPriceBuffer[..]) == Ok(DecodeTicker(EncodeTicker(instrument)))
        && (IsAscii(instrument) ==> InstrumentOf(lastPriceBuffer[..]) == Ok(instrument))
        && client.registration.publication.publication.log
           == old(client.registration.publication.publication.log) + [lastPriceBuffer[..LastPriceRequest.MESSAGE_SIZE]]
      ensures |instrument| <= INSTRUMENT_MAX_TICKER_LENGTH && sent == Done ==>
        var a := Answer(Await(old(client.poller.ring.records), old(client.poller.buffer[..]), clock, client.waitTimeoutNs, correlationId));
        && (a.Err? ==> r == Err(a.error))
        && (a.Ok? ==> client.poller.buffer[..] == a.value && r == Ok(if LastPriceOf(a.value).Some? then Some(priceRecord) else None))
        && (a.Ok? && LastPriceOf(a.value).Some? ==>
              && priceRecord.readBuffer == client.poller.buffer && priceRecord.writeBuffer == null
              && priceRecord.offset == LastPriceResponse.PRICE_RECORD_FIELD_OFFSET
              && Some(PriceRecord.RecordAt(priceRecord.readBuffer[..], priceRecord.offset)) == LastPriceOf(a.value))
    {
      var status;
      status, sent := SendLastPrice(instrument, correlationId, clock, offers);
      if status.Err? {
        return Err(status.error), sent;
      }
      r := ReadLastPrice();
    }

    /** The request half of `requestLastPrice`: the ticker is written and the call made. */
    method SendLastPrice(instrument: seq<char>, correlationId: int64, clock: seq<int64>, offers: seq<int>)
      returns (status: Result<CallStatus>, ghost sent: Status)
      requires Valid() && CallReady(clock, client.waitTimeoutNs)
      requires CanSend() ==> Settles(offers, true)
      modifies lastPriceBuffer, client.poller, client.poller.buffer, client.poller.ring, Registered()
      ensures Valid()
      ensures |instrument| > INSTRUMENT_MAX_TICKER_LENGTH ==>
        && status == Err(IllegalArgument) && sent == Thrown(IllegalArgument)
        && lastPriceBuffer[..] == old(lastPriceBuffer[..]) && client.poller.ring.records == old(client.poller.ring.records)
      ensures |instrument| > INSTRUMENT_MAX_TICKER_LENGTH && client.registration.publication != null ==>
        client.registration.publication.publication.log == old(client.registration.publication.publication.log)
      ensures |instrument| <= INSTRUMENT_MAX_TICKER_LENGTH ==>
        && (client.registration.publication == null ==> sent == Thrown(NullPointer))
        && (client.registration.publication != null && old(client.registration.publication.publication.closed) ==> sent == Thrown(IllegalState))
        && (client.registration.publication != null && !old(client.registration.publication.publication.closed) ==>
              (sent == Done <==> Outcome(offers, true) == Accepted))
        && (sent != Done ==> status == Err(sent.error))
      ensures |instrument| <= INSTRUMENT_MAX_TICKER_LENGTH && sent == Done ==>
        && client.registration.publication != null
        && HeaderIn(lastPriceBuffer) == old(HeaderIn(lastPriceBuffer)).(
             connectionId := client.registration.publication.connectionId, clientId := client.clientId, correlationId := correlationId)
        && InstrumentOf(lastPriceBuffer[..]) == Ok(DecodeTicker(EncodeTicker(instrument)))
        && (IsAscii(instrument) ==> InstrumentOf(lastPriceBuffer[..]) == Ok(instrument))
        && client.registration.publication.publication.log
           == old(client.registration.publication.publication.log) + [lastPriceBuffer[..LastPriceRequest.MESSAGE_SIZE]]
      ensures |instrument| <= INSTRUMENT_MAX_TICKER_LENGTH && sent == Done ==>
        var a := Answer(Await(old(client.poller.ring.records), old(client.poller.buffer[..]), clock, client.waitTimeoutNs, correlationId));
        && (a.Err? ==> status == Err(a.error))
        && (a.Ok? ==> status.Ok? && client.poller.buffer[..] == a.value)
    {
      var written := WriteInstrument(lastPriceBuffer, instrument);
      if written != Done {
        return Err(written.error), written;
      }
      ghost var s1 := lastPriceBuffer[..];
      status, sent := Call(lastPriceBuffer, LastPriceRequest.MESSAGE_SIZE, correlationId, clock, offers);
      HeaderChangeKeepsTicker(s1, lastPriceBuffer[..]);
    }

    /**
      `makeCall` with the request held at the start of `request`, its first
      `sizeInBytes` bytes sent: only the header changes, and a sent request
      is answered as the service client's call is.
    */
    method Call(request: array<byte>, sizeInBytes: nat, correlationId: int64, clock: seq<int64>, offers: seq<int>)
      returns (status: Result<CallStatus>, ghost sent: Status)
      requires Valid() && CallReady(clock, client.waitTimeoutNs) && (CanSend() ==> Settles(offers, true))
      requires request != client.poller.buffer && MESSAGE_HEADER_LENGTH <= sizeInBytes <= request.Length
      modifies request, client.poller, client.poller.buffer, client.poller.ring, Registered()
      ensures Valid()
      ensures SameOutside(old(request[..]), request[..], 0, MESSAGE_HEADER_LENGTH)
      ensures client.registration.publication == null ==> sent == Thrown(NullPointer)
      ensures client.registration.publication != null && old(client.registration.publication.publication.closed) ==> sent == Thrown(IllegalState)
      ensures client.registration.publication != null && !old(client.registration.publication.publication.closed) ==>
        (sent == Done <==> Outcome(offers, true) == Accepted)
      ensures sent != Done ==> status == Err(sent.error)
      ensures sent == Done ==>
        && client.registration.publication != null
        && HeaderIn(request) == old(HeaderIn(request)).(
             connectionId := client.registration.publication.connectionId, clientId := client.clientId, correlationId := correlationId)
        && client.registration.publication.publication.log == old(client.registration.publication.publication.log) + [request[..sizeInBytes]]
      ensures sent == Done ==>
        var a := Answer(Await(old(client.poller.ring.records), old(client.poller.buffer[..]), clock, client.waitTimeoutNs, correlationId));
        && (a.Err? ==> status == Err(a.error))
        && (a.Ok? ==> status.Ok? && client.poller.buffer[..] == a.value)
    {
      ghost var s0, b0 := request[..], client.poller.buffer[..];
      ghost var pub := client.registration.publication;
      ghost var routed := pub != null && !pub.publication.closed;
      if routed {
        RoutedHeader(s0, 0, pub.connectionId, client.clientId, correlationId);
      } else {
        StartedHeader(s0, 0, client.clientId, correlationId);
      }
      var m := BindRequest(request);
      status, sent := client.MakeCall(m, sizeInBytes, correlationId, clock, offers);
      assert ReadBytes(m, 0, sizeInBytes) == request[..sizeInBytes];
    }

    /**
      `startBatchRun`: the call's response gives its batch id field, whatever
      its status says (a refused start included).
    */
    method StartBatchRun(correlationId: int64, clock: seq<int64>, offers: seq<int>)
      returns (r: Result<int64>, ghost sent: Status)
      requires Valid() && CallReady(clock, client.waitTimeoutNs) && (CanSend() ==> Settles(offers, true))
      modifies startBatchBuffer, client.poller, client.poller.buffer, client.poller.ring, Registered()
      ensures Valid()
      ensures client.registration.publication == null ==> sent == Thrown(NullPointer)
      ensures client.registration.publication != null && old(client.registration.publication.publication.closed) ==> sent == Thrown(IllegalState)
      ensures client.registration.publication != null && !old(client.registration.publication.publication.closed) ==>
        (sent == Done <==> Outcome(offers, true) == Accepted)
      ensures sent != Done ==> r == Err(sent.error)
      ensures sent == Done ==>
        && client.registration.publication != null
        && HeaderIn(startBatchBuffer) == old(HeaderIn(startBatchBuffer)).(
             connectionId := client.registration.publication.connectionId, clientId := client.clientId, correlationId := correlationId)
        && client.registration.publication.publication.log == old(client.registration.publication.publication.log) + [startBatchBuffer[..StartBatchRunRequest.MESSAGE_SIZE]]
      ensures sent == Done ==>
        var a := Answer(Await(old(client.poller.ring.records), old(client.poller.buffer[..]), clock, client.waitTimeoutNs, correlationId));
        && (a.Err? ==> r == Err(a.error))
        && (a.Ok? ==> client.poller.buffer[..] == a.value && r == Ok(StartedBatchOf(a.value)))
    {
      var status;
      status, sent := Call(startBatchBuffer, StartBatchRunRequest.MESSAGE_SIZE, correlationId, clock, offers);
      if status.Err? {
        return Err(status.error), sent;
      }
      var batchId := ReadStartedBatch();
      r := Ok(batchId);
    }

    /**
      `cancelBatchRun`: the batch id goes into the cancel request and the call's
      response says whether its status is SUCCESS.
    */
    method CancelBatchRun(batchRunId: int64, correlationId: int64, clock: seq<int64>, offers: seq<int>)
      returns (r: Result<bool>, ghost sent: Status)
      requires Valid() && CallReady(clock, client.waitTimeoutNs) && (CanSend() ==> Settles(offers, true))
      modifies cancelBatchBuffer, client.poller, client.poller.buffer, client.poller.ring, Registered()
      ensures Valid()
      ensures client.registration.publication == null ==> sent == Thrown(NullPointer)
      ensures client.registration.publication != null && old(client.registration.publication.publication.closed) ==> sent == Thrown(IllegalState)
      ensures client.registration.publication != null && !old(client.registration.publication.publication.closed) ==>
        (sent == Done <==> Outcome(offers, true) == Accepted)
      ensures sent != Done ==> r == Err(sent.error)
      ensures sent == Done ==>
        && client.registration.publication != null
        && HeaderIn(cancelBatchBuffer) == old(HeaderIn(cancelBatchBuffer)).(
             connectionId := client.registration.publication.connectionId, clientId := client.clientId, correlationId := correlationId)
        && BatchIdOf(cancelBatchBuffer[..]) == batchRunId
        && client.registration.publication.publication.log == old(client.registration.publication.publication.log) + [cancelBatchBuffer[..BatchIdRequest.MESSAGE_SIZE]]
      ensures sent == Done ==>
        var a := Answer(Await(old(client.poller.ring.records), old(client.poller.buffer[..]), clock, client.waitTimeoutNs, correlationId));
        && (a.Err? ==> r == Err(a.error))
        && (a.Ok? ==> client.poller.buffer[..] == a.value && r == Ok(SucceededOf(a.value, CancelBatchRunResponse.SUCCESS_STATUS)))
    {
      var status;
      status, sent := SendBatchId(cancelBatchBuffer, batchRunId, correlationId, clock, offers);
      if status.Err? {
        return Err(status.error), sent;
      }
      var succeeded := ReadSucceeded(CancelBatchRunResponse.SUCCESS_STATUS);
      r := Ok(succeeded);
    }

    /**
      `completeBatchRun`: the batch id goes into the completion request and the call's
      response says whether its status is SUCCESS.
    */
    method CompleteBatchRun(batchRunId: int64, correlationId: int64, clock: seq<int64>, offers: seq<int>)
      returns (r: Result<bool>, ghost sent: Status)
      requires Valid() && CallReady(clock, client.waitTimeoutNs) && (CanSend() ==> Settles(offers, true))
      modifies completeBatchBuffer, client.poller, client.poller.buffer, client.poller.ring, Registered()
      ensures Valid()
      ensures client.registration.publication == null ==> sent == Thrown(NullPointer)
      ensures client.registration.publication != null && old(client.registration.publication.publication.closed) ==> sent == Thrown(IllegalState)
      ensures client.registration.publication != null && !old(client.registration.publication.publication.closed) ==>
        (sent == Done <==> Outcome(offers, true) == Accepted)
      ensures sent != Done ==> r == Err(sent.error)
      ensures sent == Done ==>
        && client.registration.publication != null
        && HeaderIn(completeBatchBuffer) == old(HeaderIn(completeBatchBuffer)).(
             connectionId := client.registration.publication.connectionId, clientId := client.clientId, correlationId := correlationId)
        && BatchIdOf(completeBatchBuffer[..]) == batchRunId
        && client.registration.publication.publication.log == old(client.registration.publication.publication.log) + [completeBatchBuffer[..BatchIdRequest.MESSAGE_SIZE]]
      ensures sent == Done ==>
        var a := Answer(Await(old(client.poller.ring.records), old(client.poller.buffer[..]), clock, client.waitTimeoutNs, correlationId));
        && (a.Err? ==> r == Err(a.error))
        && (a.Ok? ==> client.poller.buffer[..] == a.value && r == Ok(SucceededOf(a.value, CompleteBatchRunResponse.SUCCESS_STATUS)))
    {
      var status;
      status, sent := SendBatchId(completeBatchBuffer, batchRunId, correlationId, clock, offers);
      if status.Err? {
        return Err(status.error), sent;
      }
      var succeeded := ReadSucceeded(CompleteBatchRunResponse.SUCCESS_STATUS);
      r := Ok(succeeded);
    }

    /** `batchId(...)` on a cancel or a completion request held in `request`, then the call. */
    method SendBatchId(request: array<byte>, batchRunId: int64, correlationId: int64, clock: seq<int64>, offers: seq<int>)
      returns (status: Result<CallStatus>, ghost sent: Status)
      requires Valid() && CallReady(clock, client.waitTimeoutNs) && (CanSend() ==> Settles(offers, true))
      requires request.Length == BatchIdRequest.MESSAGE_SIZE && request != client.poller.buffer
      modifies request, client.poller, client.poller.buffer, client.poller.ring, Registered()
      ensures Valid()
      ensures client.registration.publication == null ==> sent == Thrown(NullPointer)
      ensures client.registration.publication != null && old(client.registration.publication.publication.closed) ==> sent == Thrown(IllegalState)
      ensures client.registration.publication != null && !old(client.registration.publication.publication.closed) ==>
        (sent == Done <==> Outcome(offers, true) == Accepted)
      ensures sent != Done ==> status == Err(sent.error)
      ensures sent == Done ==>
        && client.registration.publication != null
        && HeaderIn(request) == old(HeaderIn(request)).(
             connectionId := client.registration.publication.connectionId, clientId := client.clientId, correlationId := correlationId)
        && BatchIdOf(request[..]) == batchRunId
        && client.registration.publication.publication.log == old(client.registration.publication.publication.log) + [request[..BatchIdRequest.MESSAGE_SIZE]]
      ensures sent == Done ==>
        var a := Answer(Await(old(client.poller.ring.records), old(client.poller.buffer[..]), clock, client.waitTimeoutNs, correlationId));
        && (a.Err? ==> status == Err(a.error))
        && (a.Ok? ==> status.Ok? && client.poller.buffer[..] == a.value)
    {
      WriteBatchId(request, batchRunId);
      ghost var s1 := request[..];
      status, sent := Call(request, BatchIdRequest.MESSAGE_SIZE, correlationId, clock, offers);
      SameOutsideSlice(s1, request[..], 0, MESSAGE_HEADER_LENGTH, BatchIdRequest.BATCH_ID_FIELD_OFFSET, BatchIdRequest.MESSAGE_SIZE);
    }

    /**
      `uploadChunk`: the batch id and then the chunk go into the upload
      request (a chunk whose bytes run past its own buffer throws
      IndexOutOfBoundsException and nothing is sent), the request header and
      the whole chunk are sent, and the call's response says whether its
      status is SUCCESS.
    */
    method UploadChunk(batchRunId: int64, chunk: Flyweight, correlationId: int64, clock: seq<int64>, offers: seq<int>)
      returns (r: Result<bool>, ghost sent: Status)
      requires Valid() && CallReady(clock, client.waitTimeoutNs) && (CanSend() ==> Settles(offers, true))
      requires ChunkInRange(chunk) && chunk.readBuffer != uploadChunkBuffer
      modifies uploadChunkBuffer, client.poller, client.poller.buffer, client.poller.ring, Registered()
      ensures Valid()
      ensures !old(ChunkFits(chunk)) ==>
        && r == Err(IndexOutOfBounds) && sent == Thrown(IndexOutOfBounds)
        && client.poller.ring.records == old(client.poller.ring.records)
      ensures !old(ChunkFits(chunk)) && client.registration.publication != null ==> client.registration.publication.publication.log == old(client.registration.publication.publication.log)
      ensures old(ChunkFits(chunk)) && client.registration.publication == null ==> sent == Thrown(NullPointer)
      ensures old(ChunkFits(chunk)) && client.registration.publication != null && old(client.registration.publication.publication.closed) ==> sent == Thrown(IllegalState)
      ensures old(ChunkFits(chunk)) && client.registration.publication != null && !old(client.registration.publication.publication.closed) ==>
        (sent == Done <==> Outcome(offers, true) == Accepted)
      ensures old(ChunkFits(chunk)) && sent != Done ==> r == Err(sent.error)
      ensures old(ChunkFits(chunk)) && sent == Done ==>
        && client.registration.publication != null
        && HeaderIn(uploadChunkBuffer) == old(HeaderIn(uploadChunkBuffer)).(
             connectionId := client.registration.publication.connectionId, clientId := client.clientId, correlationId := correlationId)
        && BatchIdOf(uploadChunkBuffer[..]) == batchRunId
        && uploadChunkBuffer[UploadChunkRequest.REQUEST_HEADER_LENGTH..UploadChunkRequest.REQUEST_HEADER_LENGTH + |old(ChunkBytes(chunk))|] == old(ChunkBytes(chunk))
        && client.registration.publication.publication.log == old(client.registration.publication.publication.log) + [uploadChunkBuffer[..UploadChunkRequest.REQUEST_HEADER_LENGTH + |old(ChunkBytes(chunk))|]]
      ensures old(ChunkFits(chunk)) && sent == Done ==>
        var a := Answer(Await(old(client.poller.ring.records), old(client.poller.buffer[..]), clock, client.waitTimeoutNs, correlationId));
        && (a.Err? ==> r == Err(a.error))
        && (a.Ok? ==> client.poller.buffer[..] == a.value && r == Ok(SucceededOf(a.value, UploadChunkResponse.SUCCESS_STATUS)))
    {
      var status;
      ghost var size;
      status, sent, size := SendChunk(batchRunId, chunk, correlationId, clock, offers);
      if status.Err? {
        return Err(status.error), sent;
      }
      var succeeded := ReadSucceeded(UploadChunkResponse.SUCCESS_STATUS);
      r := Ok(succeeded);
    }

    /** The request half of `uploadChunk`: the chunk is written and the call made. */
    method SendChunk(batchRunId: int64, chunk: Flyweight, correlationId: int64, clock: seq<int64>, offers: seq<int>)
      returns (status: Result<CallStatus>, ghost sent: Status, ghost size: nat)
      requires Valid() && CallReady(clock, client.waitTimeoutNs) && (CanSend() ==> Settles(offers, true))
      requires ChunkInRange(chunk) && chunk.readBuffer != uploadChunkBuffer
      modifies uploadChunkBuffer, client.poller, client.poller.buffer, client.poller.ring, Registered()
      ensures Valid()
      ensures !old(ChunkFits(chunk)) ==>
        && status == Err(IndexOutOfBounds) && sent == Thrown(IndexOutOfBounds)
        && client.poller.ring.records == old(client.poller.ring.records)
      ensures !old(ChunkFits(chunk)) && client.registration.publication != null ==> client.registration.publication.publication.log == old(client.registration.publication.publication.log)
      ensures old(ChunkFits(chunk)) && client.registration.publication == null ==> sent == Thrown(NullPointer)
      ensures old(ChunkFits(chunk)) && client.registration.publication != null && old(client.registration.publication.publication.closed) ==> sent == Thrown(IllegalState)
      ensures old(ChunkFits(chunk)) && client.registration.publication != null && !old(client.registration.publication.publication.closed) ==>
        (sent == Done <==> Outcome(offers, true) == Accepted)
      ensures old(ChunkFits(chunk)) && sent != Done ==> status == Err(sent.error)
      ensures old(ChunkFits(chunk)) && sent == Done ==>
        && client.registration.publication != null
        && HeaderIn(uploadChunkBuffer) == old(HeaderIn(uploadChunkBuffer)).(
             connectionId := client.registration.publication.connectionId, clientId := client.clientId, correlationId := correlationId)
        && BatchIdOf(uploadChunkBuffer[..]) == batchRunId
        && size == UploadChunkRequest.REQUEST_HEADER_LENGTH + |old(ChunkBytes(chunk))|
        && uploadChunkBuffer[UploadChunkRequest.REQUEST_HEADER_LENGTH..size] == old(ChunkBytes(chunk))
        && client.registration.publication.publication.log == old(client.registration.publication.publication.log) + [uploadChunkBuffer[..size]]
      ensures old(ChunkFits(chunk)) && sent == Done ==>
        var a := Answer(Await(old(client.poller.ring.records), old(client.poller.buffer[..]), clock, client.waitTimeoutNs, correlationId));
        && (a.Err? ==> status == Err(a.error))
        && (a.Ok? ==> status.Ok? && client.poller.buffer[..] == a.value)
    {
      var written, n := WriteChunk(uploadChunkBuffer, batchRunId, chunk);
      size := n;
      if written != Done {
        return Err(written.error), written, size;
      }
      ghost var s1 := uploadChunkBuffer[..];
      status, sent := Call(uploadChunkBuffer, n, correlationId, clock, offers);
      SameOutsideSlice(s1, uploadChunkBuffer[..], 0, MESSAGE_HEADER_LENGTH, BatchIdRequest.BATCH_ID_FIELD_OFFSET, BatchIdRequest.MESSAGE_SIZE);
      SameOutsideSlice(s1, uploadChunkBuffer[..], 0, MESSAGE_HEADER_LENGTH, UploadChunkRequest.REQUEST_HEADER_LENGTH, size);
    }

    /** The response to a start, read through its view: its batch id field. */
    method ReadStartedBatch() returns (batchId: int64)
      requires Valid()
      ensures batchId == StartedBatchOf(client.poller.buffer[..])
    {
      var response := BindView(client.poller.buffer);
      batchId := StartBatchRunResponse.BatchId(response);
    }

    /** The response to an upload, a cancel or a completion, read through its view: whether its status is `success`. */
    method ReadSucceeded(success: int32) returns (succeeded: bool)
      requires Valid()
      ensures succeeded == SucceededOf(client.poller.buffer[..], success)
    {
      var response := BindView(client.poller.buffer);
      succeeded := StatusResponse.Status(response) == success;
    }

    /** The response to a last-price request, read through its view: the record view on SUCCESS, nothing otherwise. */
    method ReadLastPrice() returns (r: Result<Option<Flyweight>>)
      requires Valid()
      modifies priceRecord
      ensures Valid()
      ensures r == Ok(if LastPriceOf(client.poller.buffer[..]).Some? then Some(priceRecord) else None)
      ensures r == Ok(Some(priceRecord)) ==>
        && priceRecord.readBuffer == client.poller.buffer && priceRecord.writeBuffer == null
        && priceRecord.offset == LastPriceResponse.PRICE_RECORD_FIELD_OFFSET
        && Some(PriceRecord.RecordAt(priceRecord.readBuffer[..], priceRecord.offset)) == LastPriceOf(client.poller.buffer[..])
    {
      var response := BindView(client.poller.buffer);
      if LastPriceResponse.Status(response) != LastPriceResponse.SUCCESS_STATUS {
        return Ok(None);
      }
      LastPriceResponse.PriceRecordView(response, priceRecord);
      r := Ok(Some(priceRecord));
    }
  }

  /** `instrument(...)` on the last-price request held in `request`: the ticker is written, or IllegalArgumentException for one over the cap. */
  method WriteInstrument(request: array<byte>, instrument: seq<char>) returns (written: Status)
    requires request.Length == LastPriceRequest.MESSAGE_SIZE
    modifies request
    ensures written == Done <==> |instrument| <= INSTRUMENT_MAX_TICKER_LENGTH
    ensures written != Done ==> written == Thrown(IllegalArgument) && request[..] == old(request[..])
    ensures written == Done ==>
      && HeaderIn(request) == old(HeaderIn(request))
      && InstrumentOf(request[..]) == Ok(DecodeTicker(EncodeTicker(instrument)))
      && (IsAscii(instrument) ==> InstrumentOf(request[..]) == Ok(instrument))
  {
    var m := BindRequest(request);
    written := LastPriceRequest.SetInstrument(m, instrument);
  }

  /** `batchId(...)` on the cancel or completion request held in `request`: the id reads back, the header stays. */
  method WriteBatchId(request: array<byte>, batchRunId: int64)
    requires request.Length == BatchIdRequest.MESSAGE_SIZE
    modifies request
    ensures HeaderIn(request) == old(HeaderIn(request)) && BatchIdOf(request[..]) == batchRunId
  {
    var m := BindRequest(request);
    BatchIdRequest.SetBatchId(m, batchRunId);
  }

  /**
    `batchId(...)` and then `putChunk(...)` on the upload request held in
    `request`: the batch id is written, then the chunk's bytes are copied
    after the request header (IndexOutOfBoundsException, the batch id
    already written, when they run past the chunk's own buffer); the size to
    send covers the request header and the whole chunk.
  */
  method WriteChunk(request: array<byte>, batchRunId: int64, chunk: Flyweight) returns (written: Status, size: nat)
    requires request.Length == UploadChunkRequest.MaxSize()
    requires ChunkInRange(chunk) && chunk.readBuffer != request
    modifies request
    ensures written == Done <==> old(ChunkFits(chunk))
    ensures written != Done ==> written == Thrown(IndexOutOfBounds)
    ensures HeaderIn(request) == old(HeaderIn(request)) && BatchIdOf(request[..]) == batchRunId
    ensures written == Done ==>
      && size == UploadChunkRequest.REQUEST_HEADER_LENGTH + |old(ChunkBytes(chunk))|
      && request[UploadChunkRequest.REQUEST_HEADER_LENGTH..size] == old(ChunkBytes(chunk))
  {
    ghost var fits := ChunkFits(chunk);
    ghost var n := PriceRecordsChunk.RecordsNumber(chunk);
    ghost var bytes := if fits then ChunkBytes(chunk) else [];
    WriteUploadBatchId(request, batchRunId);
    assert ChunkFits(chunk) == fits && PriceRecordsChunk.RecordsNumber(chunk) == n && (fits ==> ChunkBytes(chunk) == bytes);
    ghost var s1 := request[..];
    written := PutChunkBytes(request, chunk);
    if written != Done {
      return written, 0;
    }
    assert fits && request[..] == Splice(s1, UploadChunkRequest.REQUEST_HEADER_LENGTH, bytes);
    ChunkCountBytes(chunk);
    ChunkPlaced(s1, bytes, n as int);
    size := RequestSize(request);
  }

  /** A chunk's bytes after the upload request header leave the header and batch id alone, and the size read back covers them exactly. */
  lemma ChunkPlaced(s: seq<byte>, bytes: seq<byte>, n: int)
    requires |s| == UploadChunkRequest.MaxSize() && UploadChunkRequest.REQUEST_HEADER_LENGTH + |bytes| <= |s|
    requires SIZE_OF_INT <= |bytes| && |bytes| == PriceRecordsChunk.DefineSize(n) && DecodeInt(bytes[..SIZE_OF_INT]) == n
    ensures var t := Splice(s, UploadChunkRequest.REQUEST_HEADER_LENGTH, bytes);
      && HeaderAt(t, 0) == HeaderAt(s, 0) && BatchIdOf(t) == BatchIdOf(s)
      && UploadChunkRequest.Size(GetInt(t, UploadChunkRequest.CHUNK_COUNT_OFFSET) as int) == UploadChunkRequest.REQUEST_HEADER_LENGTH + |bytes|
      && t[UploadChunkRequest.REQUEST_HEADER_LENGTH..UploadChunkRequest.REQUEST_HEADER_LENGTH + |bytes|] == bytes
  {
    UploadChunkRequest.ChunkCopied(s, 0, bytes);
    SpliceAt(s, UploadChunkRequest.REQUEST_HEADER_LENGTH, bytes);
  }

  /** The count at the head of a chunk's bytes is the chunk's record count. */
  lemma ChunkCountBytes(chunk: Flyweight)
    requires ChunkInRange(chunk) && ChunkFits(chunk)
    ensures DecodeInt(ChunkBytes(chunk)[..SIZE_OF_INT]) == PriceRecordsChunk.RecordsNumber(chunk)
  {
  }

  /** `batchId(...)` on the upload request held in `request`: the id reads back, the header stays. */
  method WriteUploadBatchId(request: array<byte>, batchRunId: int64)
    requires request.Length == UploadChunkRequest.MaxSize()
    modifies request
    ensures HeaderIn(request) == old(HeaderIn(request)) && BatchIdOf(request[..]) == batchRunId
  {
    var m := BindRequest(request);
    UploadChunkRequest.SetBatchId(m, batchRunId);
    assert BatchIdOf(request[..]) == UploadChunkRequest.BatchId(m);
  }

  /**
    `putChunk(...)` on the upload request held in `request`: the chunk's
    bytes are copied after the request header (IndexOutOfBoundsException,
    nothing written, when they run past the chunk's own buffer).
  */
  method PutChunkBytes(request: array<byte>, chunk: Flyweight) returns (written: Status)
    requires request.Length == UploadChunkRequest.MaxSize()
    requires ChunkInRange(chunk) && chunk.readBuffer != request
    modifies request
    ensures written == Done <==> old(ChunkFits(chunk))
    ensures written != Done ==> written == Thrown(IndexOutOfBounds) && request[..] == old(request[..])
    ensures written == Done ==>
      request[..] == Splice(old(request[..]), UploadChunkRequest.REQUEST_HEADER_LENGTH, old(ChunkBytes(chunk)))
  {
    var m := BindRequest(request);
    written := UploadChunkRequest.PutChunk(m, chunk);
  }

  /** `sizeInBytes()` of the upload request held in `request`: the request header and the chunk its count describes. */
  method RequestSize(request: array<byte>) returns (size: int)
    requires request.Length == UploadChunkRequest.MaxSize()
    ensures size == UploadChunkRequest.Size(GetInt(request[..], UploadChunkRequest.CHUNK_COUNT_OFFSET) as int)
  {
    var m := BindView(request);
    var view := new Flyweight();
    size := UploadChunkRequest.SizeInBytes(m, view);
  }

  /** `allocateMemoryForMessage`: a fresh zeroed buffer of `size` bytes with a request of type `msgType` at its start. */
  method NewRequest(size: nat, msgType: int32) returns (buffer: array<byte>)
    requires MESSAGE_HEADER_LENGTH <= size
    ensures fresh(buffer) && buffer.Length == size && HeaderIn(buffer) == Header(msgType, 0, 0, 0)
  {
    var m := new Flyweight();
    AllocateMemoryForMessage(m, size, msgType);
    buffer := m.writeBuffer;
  }

  /** A request view bound for writing at the start of `buffer`. */
  method BindRequest(buffer: array<byte>) returns (m: Flyweight)
    ensures fresh(m) && m.writeBuffer == buffer && m.readBuffer == buffer && m.offset == 0
  {
    m := new Flyweight();
    m.WrapForWrite(buffer, 0);
  }

  /** `wrapResponseBufferForRead`: a response view bound for reading at the start of the response buffer. */
  method BindView(buffer: array<byte>) returns (m: Flyweight)
    ensures fresh(m) && m.readBuffer == buffer && m.writeBuffer == null && m.offset == 0
  {
    m := new Flyweight();
    m.WrapForRead(buffer, 0);
  }
}
