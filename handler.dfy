/**
  The last-price service's request handler. It keeps the market state (one
  record per known instrument), the instrument indexer, the batch run
  repository and a scratch ("operational") batch run in which an uploaded
  chunk is staged before it is merged into its batch. Each response message
  is modelled by the values its setters are given; the request views by
  the values they read.
*/
module LastPriceServiceHandler {
  import opened Bytes
  import opened Errors
  import opened Configuration
  import opened MessageTypes
  import opened Flyweight
  import opened IndexedPriceRecord
  import opened RecordsBlock
  import opened MarketState
  import opened BatchRun
  import opened BatchRunRepository
  import opened InstrumentIndexer
  import opened HandlerWiring
  import StartBatchRunResponse
  import UploadChunkResponse
  import CompleteBatchRunResponse
  import CancelBatchRunResponse
  import LastPriceResponse

  /**
    A price record of an upload chunk as its view reads it: the ticker, the
    as-of time, and where its payload lies (the request's bytes, the
    absolute payload offset and the payload size).
  */
  datatype ChunkRecord = ChunkRecord(instrument: string, asOf: int64, from: seq<byte>, fromOffset: int, size: int32)

  /** What the request views read from an inbound message, whichever its type. */
  datatype Request = Request(instrument: string, batchId: int64, records: seq<ChunkRecord>)

  /** The last-price response: its status and the price record's ticker, as-of time and payload. */
  datatype PriceReply = PriceReply(status: int32, instrument: string, asOf: int64, payload: seq<byte>)

  /** The start-batch response: its status and batch id. */
  datatype StartReply = StartReply(status: int32, batchId: int64)

  /** The five response messages the handler reuses from request to request. */
  datatype Replies = Replies(lastPrice: PriceReply, start: StartReply, upload: int32, cancel: int32, complete: int32)

  /** Freshly allocated responses are zero-filled, so every field reads zero or empty. */
  const NO_REPLIES := Replies(PriceReply(0, [], 0, []), StartReply(0, 0), 0, 0, 0)

  /** The request types the handler serves. */
  predicate Supported(messageType: int)
  {
    messageType in {LAST_PRICE_REQUEST_MESSAGE_TYPE, START_BATCH_REQUEST_MESSAGE_TYPE, CANCEL_BATCH_REQUEST_MESSAGE_TYPE,
                    UPLOAD_CHUNK_REQUEST_MESSAGE_TYPE, COMPLETE_BATCH_REQUEST_MESSAGE_TYPE}
  }

  /** The type of the response each served request type returns. */
  function ResponseType(messageType: int): (r: int32)
    requires Supported(messageType)
  {
    if messageType == LAST_PRICE_REQUEST_MESSAGE_TYPE then LastPriceResponse.UniqueType()
    else if messageType == START_BATCH_REQUEST_MESSAGE_TYPE then StartBatchRunResponse.UniqueType()
    else if messageType == CANCEL_BATCH_REQUEST_MESSAGE_TYPE then CancelBatchRunResponse.UniqueType()
    else if messageType == UPLOAD_CHUNK_REQUEST_MESSAGE_TYPE then UploadChunkResponse.UniqueType()
    else CompleteBatchRunResponse.UniqueType()
  }

  /** Every served request is answered by the response type one above its own. */
  lemma ResponseFollowsRequest(messageType: int)
    requires Supported(messageType)
    ensures ResponseType(messageType) == messageType + 1
  {
  }

  /**
    What the response record's `putPayload` keeps when copying `size` bytes
    at `fromOffset` of `from`: over the cap IllegalArgumentException, a
    negative size or a range outside `from` IndexOutOfBoundsException,
    otherwise the bytes.
  */
  function CopiedPayload(from: seq<byte>, fromOffset: int, size: int32): Result<seq<byte>>
  {
    if size > PRICE_MAX_PAYLOAD_SIZE as int then Err(IllegalArgument)
    else if size < 0 || fromOffset < 0 || fromOffset + size > |from| then Err(IndexOutOfBounds)
    else Ok(from[fromOffset..fromOffset + size])
  }

  /** The copied payload is what the record's `putPayload` stores: the same outcome, and the same bytes read back. */
  lemma CopiedPayloadStored(s: seq<byte>, sizePos: int, payloadPos: int, from: seq<byte>, fromOffset: int, size: int32)
    requires 0 <= sizePos && sizePos + SIZE_OF_INT <= payloadPos && payloadPos + PRICE_MAX_PAYLOAD_SIZE <= |s|
    ensures CopiedPayload(from, fromOffset, size).Ok? <==> PayloadField.PutPayloadBytes(s, sizePos, payloadPos, from, fromOffset, size).1 == Done
    ensures CopiedPayload(from, fromOffset, size).Err? ==>
      PayloadField.PutPayloadBytes(s, sizePos, payloadPos, from, fromOffset, size).1 == Thrown(CopiedPayload(from, fromOffset, size).error)
    ensures CopiedPayload(from, fromOffset, size).Ok? ==>
      PayloadField.PayloadAt(PayloadField.PutPayloadBytes(s, sizePos, payloadPos, from, fromOffset, size).0, sizePos, payloadPos)
        == CopiedPayload(from, fromOffset, size)
  {
    if CopiedPayload(from, fromOffset, size).Ok? {
      PayloadField.PayloadRoundTrip(s, sizePos, payloadPos, from, fromOffset, size);
    }
  }

  /**
    `onLastPrice` on the market's bytes `s`, its records at `base`: an
    unknown ticker answers WRONG_INSTRUMENT, a record whose timestamp is
    still 0 PRICE_NOT_AVAILABLE; otherwise the status becomes SUCCESS and the
    ticker, the timestamp and the payload are copied in that order, the
    first setter that throws ending the copy.
  */
  function LastPrice(idx: Indexer, s: seq<byte>, base: int, instrument: string, reply: PriceReply): (r: (PriceReply, Status))
    requires Sorted(idx.sorted) && 0 <= base && SlotPos(base, |idx.sorted|) <= |s|
  {
    var i := DefineIndex(idx, instrument);
    if i < 0 then (reply.(status := LastPriceResponse.WRONG_INSTRUMENT_STATUS), Done)
    else
      DefineIndexMeaning(idx, instrument);
      SlotInside(base, i, |idx.sorted|);
      var p := SlotPos(base, i);
      var timestamp := TimestampAt(s, p);
      if timestamp == 0 then (reply.(status := LastPriceResponse.PRICE_NOT_AVAILABLE_STATUS), Done)
      else CopyPrice(s, p, instrument, timestamp, reply)
  }

  /**
    The SUCCESS branch of `onLastPrice` for the record at `p`: the status,
    then the ticker (at most ten characters), the timestamp and the payload.
  */
  function CopyPrice(s: seq<byte>, p: int, instrument: string, timestamp: int64, reply: PriceReply): (r: (PriceReply, Status))
    requires InBounds(s, p)
  {
    if |instrument| > INSTRUMENT_MAX_TICKER_LENGTH then (reply.(status := LastPriceResponse.SUCCESS_STATUS), Thrown(IllegalArgument))
    else match CopiedPayload(s, p + PAYLOAD_FIELD_OFFSET, GetInt(s, p + PAYLOAD_SIZE_FIELD_OFFSET))
      case Err(e) => (PriceReply(LastPriceResponse.SUCCESS_STATUS, instrument, timestamp, reply.payload), Thrown(e))
      case Ok(payload) => (PriceReply(LastPriceResponse.SUCCESS_STATUS, instrument, timestamp, payload), Done)
  }

  /**
    The status tells the cases apart: WRONG_INSTRUMENT exactly for an
    unknown ticker, PRICE_NOT_AVAILABLE exactly for a known one whose record
    holds no price yet, and a copy that throws has already set SUCCESS.
  */
  lemma LastPriceStatus(idx: Indexer, s: seq<byte>, base: int, instrument: string, reply: PriceReply)
    requires Sorted(idx.sorted) && 0 <= base && SlotPos(base, |idx.sorted|) <= |s|
    ensures var i := DefineIndex(idx, instrument);
      var answer := LastPrice(idx, s, base, instrument, reply).0;
      && (answer.status == LastPriceResponse.WRONG_INSTRUMENT_STATUS <==> instrument !in idx.sorted)
      && (answer.status == LastPriceResponse.PRICE_NOT_AVAILABLE_STATUS <==>
            0 <= i < |idx.sorted| && TimestampAt(s, SlotPos(base, i)) == 0)
    ensures LastPrice(idx, s, base, instrument, reply).1 != Done ==>
      LastPrice(idx, s, base, instrument, reply).0.status == LastPriceResponse.SUCCESS_STATUS
  {
    DefineIndexMeaning(idx, instrument);
    var i := DefineIndex(idx, instrument);
    if 0 <= i {
      SlotInside(base, i, |idx.sorted|);
    }
  }

  /**
    A SUCCESS that completes answers with the asked ticker, which the
    indexer knows, the timestamp of its record, which is not 0, and the
    payload the record holds.
  */
  lemma LastPriceAnswer(idx: Indexer, s: seq<byte>, base: int, instrument: string, reply: PriceReply)
    requires Sorted(idx.sorted) && 0 <= base && SlotPos(base, |idx.sorted|) <= |s|
    requires LastPrice(idx, s, base, instrument, reply).1 == Done
    requires LastPrice(idx, s, base, instrument, reply).0.status == LastPriceResponse.SUCCESS_STATUS
    ensures 0 <= DefineIndex(idx, instrument) < |idx.sorted| && idx.sorted[DefineIndex(idx, instrument)] == instrument
    ensures var p := SlotPos(base, DefineIndex(idx, instrument));
      var answer := LastPrice(idx, s, base, instrument, reply).0;
      && answer.instrument == instrument
      && answer.asOf == TimestampAt(s, p) != 0
      && Ok(answer.payload) == IndexedPriceRecord.PayloadAt(s, p)
  {
    DefineIndexMeaning(idx, instrument);
    var i := DefineIndex(idx, instrument);
    SlotInside(base, i, |idx.sorted|);
    var p := SlotPos(base, i);
    var timestamp := TimestampAt(s, p);
    var r := CopyPrice(s, p, instrument, timestamp, reply);
    assert LastPrice(idx, s, base, instrument, reply) == r;
    CopyPriceDone(s, p, instrument, timestamp, reply);
  }

  /** A copy that completes carries the ticker, the timestamp and the payload the record holds. */
  lemma CopyPriceDone(s: seq<byte>, p: int, instrument: string, timestamp: int64, reply: PriceReply)
    requires InBounds(s, p)
    ensures var (answer, r) := CopyPrice(s, p, instrument, timestamp, reply);
      r == Done ==>
        && answer == PriceReply(LastPriceResponse.SUCCESS_STATUS, instrument, timestamp, answer.payload)
        && |instrument| <= INSTRUMENT_MAX_TICKER_LENGTH
        && Ok(answer.payload) == IndexedPriceRecord.PayloadAt(s, p)
  {
    CopiedPayloadRead(s, p);
  }

  /** A record's payload that copies without error is the payload the record holds. */
  lemma CopiedPayloadRead(s: seq<byte>, p: int)
    requires InBounds(s, p)
    ensures var c := CopiedPayload(s, p + PAYLOAD_FIELD_OFFSET, GetInt(s, p + PAYLOAD_SIZE_FIELD_OFFSET));
      c.Ok? ==> Ok(c.value) == IndexedPriceRecord.PayloadAt(s, p)
  {
  }

  /** How staging a chunk ended. */
  datatype Outcome = Processed | UnknownInstrument | Failed(error: Exception)

  /** The scratch run's bytes and included set after staging, and how staging ended. */
  datatype Staging = Staging(bytes: seq<byte>, included: set<int>, outcome: Outcome)

  /**
    The staging loop of `onUploadChunk` on the scratch run's bytes `s`, its
    records at `base`: each record in turn goes to the record of its
    instrument by the newer-or-equal rule and joins the included set; an
    unknown ticker stops the loop, and so does an update that throws.
  */
  function Stage(idx: Indexer, s: seq<byte>, base: int, records: seq<ChunkRecord>): (r: Staging)
    requires Sorted(idx.sorted) && 0 <= base && SlotPos(base, |idx.sorted|) <= |s|
    ensures |r.bytes| == |s| && forall i | i in r.included :: 0 <= i < |idx.sorted|
    decreases |records|
  {
    if records == [] then Staging(s, {}, Processed)
    else
      var record := records[0];
      var i := DefineIndex(idx, record.instrument);
      if i < 0 then Staging(s, {}, UnknownInstrument)
      else
        DefineIndexMeaning(idx, record.instrument);
        SlotInside(base, i, |idx.sorted|);
        var (t, st) := UpdateBytes(s, SlotPos(base, i), record.asOf, record.from, record.fromOffset, record.size);
        if st != Done then Staging(t, {i}, Failed(st.error))
        else
          var rest := Stage(idx, t, base, records[1..]);
          Staging(rest.bytes, rest.included + {i}, rest.outcome)
  }

  /**
    `mergeTo` of the scratch run into the repository's live run `k`, whose
    own `tryUpdateRecord` takes each record: the run's records outside the
    included set, its header and the rest of its buffer are kept, the merge
    completes exactly when every included record merges, and then each of
    them holds its merge and joins the run's included set. A merge that
    throws adds at most the scratch run's included records to the run's.
    The repository stays valid with the same books and headers.
  */
  method MergeChunk(scratch: BatchRun, repo: Repository, k: int) returns (r: Status)
    requires repo.Valid() && 0 <= k < MAX_ACTIVE_BATCHES_NUMBER && k in repo.queued
    requires scratch.Bound() && scratch.block.view.offset == 0
    requires {scratch, scratch.block, scratch.block.view, scratch.block.priceRecord} !! repo.Repr && scratch.block.view.writeBuffer !in repo.buffers
    modifies repo.runs[k], repo.buffers[k], repo.runs[k].block.priceRecord, scratch.block.priceRecord
    ensures scratch.Bound() && repo.Valid()
    ensures MergeBounds(old(repo.buffers[k][..]), BATCH_RUN_HEADER_SIZE, repo.recordsNumber,
                        scratch.block.view.writeBuffer[..], BATCH_RUN_HEADER_SIZE, scratch.block.recordsNumber)
    ensures Untouched(old(repo.buffers[k][..]), repo.buffers[k][..], BATCH_RUN_HEADER_SIZE, repo.recordsNumber, scratch.included)
    ensures r == Done <==> AllComplete(old(repo.buffers[k][..]), BATCH_RUN_HEADER_SIZE, repo.recordsNumber,
                                       scratch.block.view.writeBuffer[..], BATCH_RUN_HEADER_SIZE, scratch.block.recordsNumber, scratch.included)
    ensures r == Done ==> MergedInto(old(repo.buffers[k][..]), repo.buffers[k][..], BATCH_RUN_HEADER_SIZE, repo.recordsNumber,
                                     scratch.block.view.writeBuffer[..], BATCH_RUN_HEADER_SIZE, scratch.block.recordsNumber, scratch.included)
    ensures old(repo.runs[k].included) <= repo.runs[k].included <= old(repo.runs[k].included) + scratch.included
    ensures r == Done ==> repo.runs[k].included == old(repo.runs[k].included) + scratch.included
  {
    repo.RunApart(k);
    var run := repo.runs[k];
    ghost var buffer, tn, sn := repo.buffers[k], repo.recordsNumber, scratch.block.recordsNumber;
    ghost var t0, src := buffer[..], scratch.block.view.writeBuffer[..];
    assert run.block.view.writeBuffer == buffer && run.block.RecordsBase() == BATCH_RUN_HEADER_SIZE && run.block.recordsNumber == tn;
    assert scratch.block.RecordsBase() == BATCH_RUN_HEADER_SIZE;
    r := scratch.MergeToRun(run);
    ghost var t := buffer[..];
    assert scratch.block.view.writeBuffer[..] == src && scratch.block.recordsNumber == sn && repo.buffers[k] == buffer;
    assert Untouched(t0, t, BATCH_RUN_HEADER_SIZE, tn, scratch.included);
    assert r == Done ==> MergedInto(t0, t, BATCH_RUN_HEADER_SIZE, tn, src, BATCH_RUN_HEADER_SIZE, sn, scratch.included);
    SameOutsideSlice(t0, t, BATCH_RUN_HEADER_SIZE, SlotPos(BATCH_RUN_HEADER_SIZE, tn), 0, BATCH_RUN_HEADER_SIZE);
    repo.KeepRecordsInclude(k);
  }

  /** Every record of a run's `tn` records outside `done` reads as it did in `t0`. */
  predicate RecordsKept(t0: seq<byte>, t: seq<byte>, tn: nat, done: set<int>)
    requires SlotPos(BATCH_RUN_HEADER_SIZE, tn) <= |t0| == |t|
  {
    forall j | 0 <= j < tn && j !in done ::
      RecordBytes(t, SlotPos(BATCH_RUN_HEADER_SIZE, j)) == RecordBytes(t0, SlotPos(BATCH_RUN_HEADER_SIZE, j))
  }

  /** How staging a chunk into the scratch run's bytes `s0` ends, the run being reset first. */
  function StagedOutcome(idx: Indexer, s0: seq<byte>, records: seq<ChunkRecord>): Outcome
    requires Sorted(idx.sorted) && SlotPos(BATCH_RUN_HEADER_SIZE, |idx.sorted|) <= |s0|
  {
    Stage(idx, ResetBytes(s0, BATCH_RUN_HEADER_SIZE, |idx.sorted|), BATCH_RUN_HEADER_SIZE, records).outcome
  }

  /**
    `onUploadChunk` on a live run, on values: `s0` and `t0` are the scratch
    run's and the live run's bytes before, `tn` the live run's number of
    records. The scratch run ends as `Stage` leaves its reset bytes. An
    unknown ticker, or an update that throws, leaves the live run as it
    was. A chunk staged to the end is merged: the merge completes exactly
    when every staged record merges, and then every staged record of the
    live run holds its merge, joins the run's included set (`runIncluded0`
    to `runIncluded`) and every other record is kept; a merge that throws
    keeps the records not staged, the header and the bytes past the
    records, and adds at most the staged records to the run's included set.
  */
  ghost predicate Uploaded(idx: Indexer, s0: seq<byte>, records: seq<ChunkRecord>, s: seq<byte>, included: set<int>,
                           t0: seq<byte>, t: seq<byte>, tn: nat, r: Status, runIncluded0: set<int>, runIncluded: set<int>)
    requires Sorted(idx.sorted) && SlotPos(BATCH_RUN_HEADER_SIZE, |idx.sorted|) <= |s0|
    requires SlotPos(BATCH_RUN_HEADER_SIZE, tn) <= |t0|
  {
    var n := |idx.sorted|;
    var st := Stage(idx, ResetBytes(s0, BATCH_RUN_HEADER_SIZE, n), BATCH_RUN_HEADER_SIZE, records);
    && s == st.bytes && included == st.included && |t| == |t0|
    && match st.outcome
       case UnknownInstrument => r == Done && t == t0 && runIncluded == runIncluded0
       case Failed(e) => r == Thrown(e) && t == t0 && runIncluded == runIncluded0
       case Processed =>
         && (r == Done <==> AllComplete(t0, BATCH_RUN_HEADER_SIZE, tn, s, BATCH_RUN_HEADER_SIZE, n, included))
         && (r == Done ==> MergedInto(t0, t, BATCH_RUN_HEADER_SIZE, tn, s, BATCH_RUN_HEADER_SIZE, n, included)
                           && RecordsKept(t0, t, tn, included) && runIncluded == runIncluded0 + included)
         && (r != Done ==> Untouched(t0, t, BATCH_RUN_HEADER_SIZE, tn, included)
                           && runIncluded0 <= runIncluded <= runIncluded0 + included)
  }

  /** Saving a merged run rewrites its header only, so its merged records and the records it kept stay. */
  lemma SavedRecords(t0: seq<byte>, m: seq<byte>, t: seq<byte>, tn: nat, src: seq<byte>, sn: nat, done: set<int>)
    requires MergeBounds(t0, BATCH_RUN_HEADER_SIZE, tn, src, BATCH_RUN_HEADER_SIZE, sn)
    requires |m| == |t0| == |t| && t[BATCH_RUN_HEADER_SIZE..] == m[BATCH_RUN_HEADER_SIZE..]
    requires Untouched(t0, m, BATCH_RUN_HEADER_SIZE, tn, done)
    requires MergedInto(t0, m, BATCH_RUN_HEADER_SIZE, tn, src, BATCH_RUN_HEADER_SIZE, sn, done)
    ensures MergedInto(t0, t, BATCH_RUN_HEADER_SIZE, tn, src, BATCH_RUN_HEADER_SIZE, sn, done)
    ensures RecordsKept(t0, t, tn, done)
  {
    assert t[BATCH_RUN_HEADER_SIZE..|t|] == m[BATCH_RUN_HEADER_SIZE..|m|];
    forall j | 0 <= j < tn
      ensures RecordBytes(t, SlotPos(BATCH_RUN_HEADER_SIZE, j)) == RecordBytes(m, SlotPos(BATCH_RUN_HEADER_SIZE, j))
    {
      SlotInside(BATCH_RUN_HEADER_SIZE, j, tn);
      var p := SlotPos(BATCH_RUN_HEADER_SIZE, j);
      SliceInside(t, m, BATCH_RUN_HEADER_SIZE, |t|, p, p + MESSAGE_SIZE);
    }
  }

  /**
    The `else` branch of `onUploadChunk`, on the live run `run`: the chunk is
    staged in the scratch run; a chunk staged to the end is merged into the
    run, and a merge that completes is saved at `now`.
  */
  method UploadToRun(idx: Indexer, scratch: BatchRun, repo: Repository, run: BatchRun, records: seq<ChunkRecord>, now: int64)
    returns (outcome: Outcome, r: Status)
    requires repo.Valid() && Sorted(idx.sorted)
    requires 0 <= run.index < MAX_ACTIVE_BATCHES_NUMBER as int32 && run == repo.runs[run.index] && run.index as int in repo.queued
    requires scratch.Bound() && scratch.block.view.offset == 0 && scratch.block.recordsNumber == |idx.sorted|
    requires {scratch, scratch.block, scratch.block.view, scratch.block.priceRecord} !! repo.Repr
    requires scratch.block.view.writeBuffer !in repo.Repr && scratch.block.view.writeBuffer !in repo.buffers
    modifies repo, run, repo.buffers[run.index], run.block.priceRecord, scratch, scratch.block.view.writeBuffer, scratch.block.priceRecord
    ensures repo.Valid() && scratch.Bound()
    ensures repo.ids == old(repo.ids) && repo.idToIndex == old(repo.idToIndex)
    ensures repo.queued == old(repo.queued) && repo.freeIndexes == old(repo.freeIndexes)
    ensures repo.times == if outcome == Processed && r == Done then old(repo.times)[run.index := now] else old(repo.times)
    ensures SlotPos(BATCH_RUN_HEADER_SIZE, |idx.sorted|) <= |old(scratch.block.view.writeBuffer[..])|
    ensures SlotPos(BATCH_RUN_HEADER_SIZE, repo.recordsNumber) <= |old(repo.buffers[run.index][..])|
    ensures outcome == StagedOutcome(idx, old(scratch.block.view.writeBuffer[..]), records)
    ensures Uploaded(idx, old(scratch.block.view.writeBuffer[..]), records, scratch.block.view.writeBuffer[..], scratch.included,
                     old(repo.buffers[run.index][..]), repo.buffers[run.index][..], repo.recordsNumber, r,
                     old(run.included), run.included)
  {
    assert repo.RunOk(run.index as int);
    outcome := StageChunk(idx, scratch, records);
    if outcome == UnknownInstrument {
      return outcome, Done;
    }
    if outcome.Failed? {
      return outcome, Thrown(outcome.error);
    }
    r := MergeAndSave(scratch, repo, run, now);
  }

  /**
    The end of `onUploadChunk` for a chunk staged to the end: the scratch
    run is merged into the live run `run`, which is saved at `now` when the
    merge completes.
  */
  method MergeAndSave(scratch: BatchRun, repo: Repository, run: BatchRun, now: int64) returns (r: Status)
    requires repo.Valid()
    requires 0 <= run.index < MAX_ACTIVE_BATCHES_NUMBER as int32 && run == repo.runs[run.index] && run.index as int in repo.queued
    requires scratch.Bound() && scratch.block.view.offset == 0
    requires {scratch, scratch.block, scratch.block.view, scratch.block.priceRecord} !! repo.Repr
    requires scratch.block.view.writeBuffer !in repo.buffers
    modifies repo, run, repo.buffers[run.index], run.block.priceRecord, scratch.block.priceRecord
    ensures repo.Valid() && scratch.Bound()
    ensures repo.ids == old(repo.ids) && repo.idToIndex == old(repo.idToIndex)
    ensures repo.queued == old(repo.queued) && repo.freeIndexes == old(repo.freeIndexes)
    ensures repo.times == if r == Done then old(repo.times)[run.index := now] else old(repo.times)
    ensures |repo.buffers[run.index][..]| == |old(repo.buffers[run.index][..])|
    ensures MergeBounds(old(repo.buffers[run.index][..]), BATCH_RUN_HEADER_SIZE, repo.recordsNumber,
                        scratch.block.view.writeBuffer[..], BATCH_RUN_HEADER_SIZE, scratch.block.recordsNumber)
    ensures r == Done <==> AllComplete(old(repo.buffers[run.index][..]), BATCH_RUN_HEADER_SIZE, repo.recordsNumber,
                                       scratch.block.view.writeBuffer[..], BATCH_RUN_HEADER_SIZE, scratch.block.recordsNumber,
                                       scratch.included)
    ensures r == Done ==>
      && MergedInto(old(repo.buffers[run.index][..]), repo.buffers[run.index][..], BATCH_RUN_HEADER_SIZE, repo.recordsNumber,
                    scratch.block.view.writeBuffer[..], BATCH_RUN_HEADER_SIZE, scratch.block.recordsNumber, scratch.included)
      && RecordsKept(old(repo.buffers[run.index][..]), repo.buffers[run.index][..], repo.recordsNumber, scratch.included)
    ensures r != Done ==>
      Untouched(old(repo.buffers[run.index][..]), repo.buffers[run.index][..], BATCH_RUN_HEADER_SIZE, repo.recordsNumber, scratch.included)
    ensures old(run.included) <= run.included <= old(run.included) + scratch.included
    ensures r == Done ==> run.included == old(run.included) + scratch.included
  {
    var k := run.index as int;
    repo.RunApart(k);
    ghost var t0 := repo.buffers[k][..];
    r := MergeChunk(scratch, repo, k);
    if r != Done {
      return;
    }
    ghost var merged, src := repo.buffers[k][..], scratch.block.view.writeBuffer[..];
    repo.Save(run, now);
    assert scratch.block.view.writeBuffer[..] == src;
    SavedRecords(t0, merged, repo.buffers[k][..], repo.recordsNumber, src, scratch.block.recordsNumber, scratch.included);
  }

  /**
    The repository's and the scratch run's part of `onUploadChunk`: an
    unmapped batch id is not found and nothing changes; otherwise
    `UploadToRun` on the run the id maps to.
  */
  method UploadChunk(idx: Indexer, scratch: BatchRun, repo: Repository, batchId: int64, records: seq<ChunkRecord>, now: int64)
    returns (found: bool, outcome: Outcome, r: Status)
    requires repo.Valid() && Sorted(idx.sorted)
    requires scratch.Bound() && scratch.block.view.offset == 0 && scratch.block.recordsNumber == |idx.sorted|
    requires {scratch, scratch.block, scratch.block.view, scratch.block.priceRecord} !! repo.Repr
    requires scratch.block.view.writeBuffer !in repo.Repr && scratch.block.view.writeBuffer !in repo.buffers
    modifies repo, repo.Repr, scratch, scratch.block.view.writeBuffer, scratch.block.priceRecord
    ensures repo.Valid() && scratch.Bound() && found == (batchId in old(repo.idToIndex))
    ensures repo.ids == old(repo.ids) && repo.idToIndex == old(repo.idToIndex)
    ensures repo.queued == old(repo.queued) && repo.freeIndexes == old(repo.freeIndexes)
    ensures !found ==>
      && r == Done && repo.times == old(repo.times)
      && scratch.included == old(scratch.included) && scratch.block.view.writeBuffer[..] == old(scratch.block.view.writeBuffer[..])
      && forall j | 0 <= j < MAX_ACTIVE_BATCHES_NUMBER :: repo.runs[j].included == old(repo.runs[j].included)
    ensures found ==>
      var k := old(repo.idToIndex)[batchId];
      && 0 <= k < MAX_ACTIVE_BATCHES_NUMBER
      && repo.times == (if outcome == Processed && r == Done then old(repo.times)[k := now] else old(repo.times))
      && SlotPos(BATCH_RUN_HEADER_SIZE, |idx.sorted|) <= |old(scratch.block.view.writeBuffer[..])|
      && SlotPos(BATCH_RUN_HEADER_SIZE, repo.recordsNumber) <= |old(repo.buffers[k][..])|
      && outcome == StagedOutcome(idx, old(scratch.block.view.writeBuffer[..]), records)
      && Uploaded(idx, old(scratch.block.view.writeBuffer[..]), records, scratch.block.view.writeBuffer[..], scratch.included,
                  old(repo.buffers[k][..]), repo.buffers[k][..], repo.recordsNumber, r, old(repo.runs[k].included), repo.runs[k].included)
  {
    var batchRun := repo.Get(batchId);
    if batchRun.None? {
      return false, Processed, Done;
    }
    var run := batchRun.value;
    repo.RunApart(repo.idToIndex[batchId]);
    found := true;
    outcome, r := UploadToRun(idx, scratch, repo, run, records, now);
  }

  /**
    The upload response's status after `onUploadChunk` on a live run, with
    the SUCCESS the source leaves out: INSTRUMENT_NOT_FOUND for an unknown
    ticker, SUCCESS for a chunk merged and saved, and otherwise (an
    exception) the status the response already held.
  */
  function UploadStatus(prev: int32, outcome: Outcome, r: Status): int32
  {
    if outcome == UnknownInstrument then UploadChunkResponse.INSTRUMENT_NOT_FOUND_STATUS
    else if outcome == Processed && r == Done then UploadChunkResponse.SUCCESS_STATUS
    else prev
  }

  /** The same status as the source writes it: on a live run only INSTRUMENT_NOT_FOUND is ever written. */
  function UploadStatusAsWritten(prev: int32, outcome: Outcome, r: Status): int32
  {
    if outcome == UnknownInstrument then UploadChunkResponse.INSTRUMENT_NOT_FOUND_STATUS else prev
  }

  /**
    As written, a chunk merged and saved is answered with whatever status
    the response last held: after an upload to an unknown batch, the next
    successful upload still answers BATCH_RUN_NOT_FOUND, and after an
    unknown ticker it answers INSTRUMENT_NOT_FOUND. The corrected status
    answers SUCCESS exactly for a chunk merged and saved.
  */
  lemma UploadSuccessNotWritten(prev: int32, outcome: Outcome, r: Status)
    ensures UploadStatusAsWritten(UploadChunkResponse.BATCH_RUN_NOT_FOUND_STATUS, Processed, Done)
         == UploadChunkResponse.BATCH_RUN_NOT_FOUND_STATUS
    ensures UploadStatusAsWritten(UploadChunkResponse.INSTRUMENT_NOT_FOUND_STATUS, Processed, Done)
         == UploadChunkResponse.INSTRUMENT_NOT_FOUND_STATUS
    ensures prev != UploadChunkResponse.SUCCESS_STATUS ==>
      (UploadStatus(prev, outcome, r) == UploadChunkResponse.SUCCESS_STATUS <==> outcome == Processed && r == Done)
  {
  }

  /** A staging that follows records already included in `done`: their indexes join its included set. */
  function Join(done: set<int>, st: Staging): Staging
  {
    Staging(st.bytes, st.included + done, st.outcome)
  }

  /** Joining twice is joining the union. */
  lemma JoinJoin(a: set<int>, b: set<int>, st: Staging)
    ensures Join(a, Join(b, st)) == Join(a + b, st)
  {
  }

  /**
    The staging part of `onUploadChunk` on the scratch run: it is reset,
    then each record of the chunk in turn goes to the record of its
    instrument, until an unknown ticker or an update that throws. The
    bytes, the included set and the outcome are those `Stage` gives on the
    reset bytes.
  */
  method StageChunk(idx: Indexer, scratch: BatchRun, records: seq<ChunkRecord>) returns (outcome: Outcome)
    requires Sorted(idx.sorted) && scratch.Bound() && scratch.block.view.offset == 0
    requires scratch.block.recordsNumber == |idx.sorted|
    modifies scratch, scratch.block.view.writeBuffer, scratch.block.priceRecord
    ensures scratch.Bound()
    ensures SlotPos(BATCH_RUN_HEADER_SIZE, |idx.sorted|) <= |old(scratch.block.view.writeBuffer[..])|
    ensures Stage(idx, ResetBytes(old(scratch.block.view.writeBuffer[..]), BATCH_RUN_HEADER_SIZE, |idx.sorted|), BATCH_RUN_HEADER_SIZE, records)
         == Staging(scratch.block.view.writeBuffer[..], scratch.included, outcome)
  {
    var base := scratch.block.RecordsBase();
    PrefixInside(|idx.sorted|, |idx.sorted|);
    scratch.Reset();
    ghost var s0 := scratch.block.view.writeBuffer[..];
    ghost var whole := Stage(idx, s0, base, records);
    assert whole == Stage(idx, ResetBytes(old(scratch.block.view.writeBuffer[..]), BATCH_RUN_HEADER_SIZE, |idx.sorted|),
                          BATCH_RUN_HEADER_SIZE, records);
    var k := 0;
    while k < |records|
      invariant 0 <= k <= |records| && scratch.Bound() && scratch.block.RecordsBase() == base
      invariant whole == Join(scratch.included, Stage(idx, scratch.block.view.writeBuffer[..], base, records[k..]))
    {
      ghost var s, done := scratch.block.view.writeBuffer[..], scratch.included;
      var i, r := StageRecord(idx, scratch, base, records[k]);
      if i < 0 {
        StageAdvance(idx, whole, s, base, records, k, done, i, s, r);
        return UnknownInstrument;
      }
      StageAdvance(idx, whole, s, base, records, k, done, i, scratch.block.view.writeBuffer[..], r);
      if r != Done {
        return Failed(r.error);
      }
      k := k + 1;
    }
    outcome := Processed;
  }

  /**
    One pass of the staging loop: the record's instrument index and, for a
    known ticker, the run's `tryUpdateRecord` of that record.
  */
  method StageRecord(idx: Indexer, scratch: BatchRun, base: int, record: ChunkRecord) returns (i: int, r: Status)
    requires Sorted(idx.sorted) && scratch.Bound() && scratch.block.RecordsBase() == base
    requires scratch.block.recordsNumber == |idx.sorted|
    modifies scratch, scratch.block.view.writeBuffer, scratch.block.priceRecord
    ensures scratch.Bound() && scratch.block.RecordsBase() == base && i == DefineIndex(idx, record.instrument)
    ensures i < 0 ==> unchanged(scratch) && scratch.block.view.writeBuffer[..] == old(scratch.block.view.writeBuffer[..])
    ensures 0 <= i ==>
      && i < |idx.sorted| && scratch.included == old(scratch.included) + {i}
      && InBounds(old(scratch.block.view.writeBuffer[..]), SlotPos(base, i))
      && (scratch.block.view.writeBuffer[..], r)
         == UpdateBytes(old(scratch.block.view.writeBuffer[..]), SlotPos(base, i), record.asOf, record.from, record.fromOffset, record.size)
  {
    i := DefineIndex(idx, record.instrument);
    if i < 0 {
      return i, Done;
    }
    DefineIndexMeaning(idx, record.instrument);
    r := scratch.TryUpdateRecord(i, record.asOf, record.from, record.fromOffset, record.size);
  }

  /** The first step of `Stage` on a known ticker: an update that throws ends it, otherwise the rest follows. */
  lemma StageFirst(idx: Indexer, s: seq<byte>, base: int, records: seq<ChunkRecord>, i: int, t: seq<byte>, st: Status)
    requires Sorted(idx.sorted) && 0 <= base && SlotPos(base, |idx.sorted|) <= |s| && records != []
    requires i == DefineIndex(idx, records[0].instrument) && 0 <= i && InBounds(s, SlotPos(base, i))
    requires (t, st) == UpdateBytes(s, SlotPos(base, i), records[0].asOf, records[0].from, records[0].fromOffset, records[0].size)
    ensures st != Done ==> Stage(idx, s, base, records) == Staging(t, {i}, Failed(st.error))
    ensures st == Done ==> Stage(idx, s, base, records) == Join({i}, Stage(idx, t, base, records[1..]))
  {
  }

  /**
    One pass of the staging loop on values: with `done` staged before record
    `k`, an unknown ticker ends the staging there, an update that throws
    ends it with that record included, and otherwise the staging goes on
    from the updated bytes with the record's index added.
  */
  lemma StageAdvance(idx: Indexer, whole: Staging, s: seq<byte>, base: int, records: seq<ChunkRecord>, k: int,
                     done: set<int>, i: int, t: seq<byte>, r: Status)
    requires Sorted(idx.sorted) && 0 <= base && SlotPos(base, |idx.sorted|) <= |s| && 0 <= k < |records|
    requires whole == Join(done, Stage(idx, s, base, records[k..]))
    requires i == DefineIndex(idx, records[k].instrument)
    requires i < 0 ==> t == s
    requires 0 <= i ==> InBounds(s, SlotPos(base, i))
    requires 0 <= i ==>
      (t, r) == UpdateBytes(s, SlotPos(base, i), records[k].asOf, records[k].from, records[k].fromOffset, records[k].size)
    ensures i < 0 ==> whole == Staging(s, done, UnknownInstrument)
    ensures 0 <= i && r != Done ==> whole == Staging(t, done + {i}, Failed(r.error))
    ensures 0 <= i && r == Done ==> SlotPos(base, |idx.sorted|) <= |t|
    ensures 0 <= i && r == Done ==>
      whole == Join(done + {i}, Stage(idx, t, base, records[k + 1..]))
  {
    assert records[k..][0] == records[k] && records[k..][1..] == records[k + 1..];
    if 0 <= i {
      StageFirst(idx, s, base, records[k..], i, t, r);
      if r == Done {
        JoinJoin(done, {i}, Stage(idx, t, base, records[k + 1..]));
      }
    }
  }

  /** The indexes of the instruments of the records, as the indexer gives them. */
  function IndexesOf(idx: Indexer, records: seq<ChunkRecord>): (r: set<int>)
    requires Sorted(idx.sorted)
  {
    set a | 0 <= a < |records| :: DefineIndex(idx, records[a].instrument)
  }

  /** The indexes of a chunk are those of its first record and of the rest. */
  lemma IndexesOfFirst(idx: Indexer, records: seq<ChunkRecord>)
    requires Sorted(idx.sorted) && records != []
    ensures IndexesOf(idx, records) == {DefineIndex(idx, records[0].instrument)} + IndexesOf(idx, records[1..])
  {
    var i := DefineIndex(idx, records[0].instrument);
    forall x ensures x in IndexesOf(idx, records) <==> x == i || x in IndexesOf(idx, records[1..]) {
      if x in IndexesOf(idx, records) && x != i {
        var a :| 0 <= a < |records| && DefineIndex(idx, records[a].instrument) == x;
        assert records[1..][a - 1] == records[a];
      }
      if x in IndexesOf(idx, records[1..]) {
        var a :| 0 <= a < |records[1..]| && DefineIndex(idx, records[1..][a].instrument) == x;
        assert records[a + 1] == records[1..][a];
      }
    }
  }

  /** Updating record `i` of a block of `n` leaves every other record's bytes as they were. */
  lemma UpdateOtherRecord(s: seq<byte>, base: int, n: int, i: int, j: int, record: ChunkRecord)
    requires 0 <= base && SlotPos(base, n) <= |s| && 0 <= i < n && 0 <= j < n && i != j
    ensures InBounds(s, SlotPos(base, i)) && InBounds(s, SlotPos(base, j))
    ensures var t := UpdateBytes(s, SlotPos(base, i), record.asOf, record.from, record.fromOffset, record.size).0;
      RecordBytes(t, SlotPos(base, j)) == RecordBytes(s, SlotPos(base, j))
  {
    SlotInside(base, i, n);
    SlotInside(base, j, n);
    var p := SlotPos(base, i);
    var t := UpdateBytes(s, p, record.asOf, record.from, record.fromOffset, record.size).0;
    UpdateWithin(s, p, record.asOf, record.from, record.fromOffset, record.size);
    if j < i {
      SlotsApart(base, j, i);
    } else {
      SlotsApart(base, i, j);
    }
    SameOutsideSlice(s, t, p, p + MESSAGE_SIZE, SlotPos(base, j), SlotPos(base, j) + MESSAGE_SIZE);
  }

  /**
    Staging is all-or-nothing on tickers: it ends on an unknown ticker only
    when the chunk has one, a chunk of known tickers that stages completely
    includes exactly their records, and whatever happens only records of
    the chunk's instruments change.
  */
  lemma {:induction false} StageMeaning(idx: Indexer, s: seq<byte>, base: int, records: seq<ChunkRecord>)
    requires Sorted(idx.sorted) && 0 <= base && SlotPos(base, |idx.sorted|) <= |s|
    ensures Stage(idx, s, base, records).outcome == UnknownInstrument ==> exists a | 0 <= a < |records| :: records[a].instrument !in idx.sorted
    ensures (forall a | 0 <= a < |records| :: records[a].instrument in idx.sorted) ==> Stage(idx, s, base, records).outcome != UnknownInstrument
    ensures Stage(idx, s, base, records).outcome == Processed ==> Stage(idx, s, base, records).included == IndexesOf(idx, records)
    ensures forall j | 0 <= j < |idx.sorted| && j !in IndexesOf(idx, records) ::
      RecordBytes(Stage(idx, s, base, records).bytes, SlotPos(base, j)) == RecordBytes(s, SlotPos(base, j))
    decreases |records|
  {
    if records != [] {
      var record := records[0];
      var i := DefineIndex(idx, record.instrument);
      DefineIndexMeaning(idx, record.instrument);
      IndexesOfFirst(idx, records);
      if 0 <= i {
        SlotInside(base, i, |idx.sorted|);
        var p := SlotPos(base, i);
        var (t, st) := UpdateBytes(s, p, record.asOf, record.from, record.fromOffset, record.size);
        forall j | 0 <= j < |idx.sorted| && j != i
          ensures RecordBytes(t, SlotPos(base, j)) == RecordBytes(s, SlotPos(base, j))
        {
          UpdateOtherRecord(s, base, |idx.sorted|, i, j, record);
        }
        if st == Done {
          StageMeaning(idx, t, base, records[1..]);
          if Stage(idx, t, base, records[1..]).outcome == UnknownInstrument {
            var a :| 0 <= a < |records[1..]| && records[1..][a].instrument !in idx.sorted;
            assert records[a + 1] == records[1..][a];
          }
        }
      } else {
        assert records[0].instrument !in idx.sorted;
      }
    }
  }

  /**
    The body of `onLastPrice` on the market state `market`: the status and,
    for a price, the ticker, the timestamp and the payload, read through the
    block's record view.
  */
  method ReadPrice(market: Block, idx: Indexer, instrument: string, reply: PriceReply) returns (answer: PriceReply, r: Status)
    requires Sorted(idx.sorted) && market.Bound() && market.view.offset == 0
    requires market.headerSize == MARKET_STATE_HEADER_SIZE && market.recordsNumber == |idx.sorted|
    modifies market.priceRecord
    ensures (answer, r) == LastPrice(idx, market.view.writeBuffer[..], 0, instrument, reply)
  {
    answer := reply;
    var i := DefineIndex(idx, instrument);
    if i < 0 {
      answer := answer.(status := LastPriceResponse.WRONG_INSTRUMENT_STATUS);
      return answer, Done;
    }
    DefineIndexMeaning(idx, instrument);
    ghost var s, p := market.view.writeBuffer[..], SlotPos(0, i);
    r := market.GetPriceRecord(i);
    var record := market.priceRecord;
    var timestamp := IndexedPriceRecord.Timestamp(record);
    if timestamp == 0 {
      answer := answer.(status := LastPriceResponse.PRICE_NOT_AVAILABLE_STATUS);
      return answer, Done;
    }
    assert LastPrice(idx, s, 0, instrument, reply) == CopyPrice(s, p, instrument, timestamp, reply);
    answer, r := CopyPriceOf(record, instrument, reply);
  }

  /** The SUCCESS branch of `onLastPrice` on the record view `record`, as `CopyPrice` describes it. */
  method CopyPriceOf(record: Flyweight, instrument: string, reply: PriceReply) returns (answer: PriceReply, r: Status)
    requires IndexedPriceRecord.Readable(record)
    ensures InBounds(record.readBuffer[..], record.offset)
    ensures (answer, r) == CopyPrice(record.readBuffer[..], record.offset, instrument, IndexedPriceRecord.Timestamp(record), reply)
  {
    answer := reply.(status := LastPriceResponse.SUCCESS_STATUS);
    if |instrument| > INSTRUMENT_MAX_TICKER_LENGTH {
      return answer, Thrown(IllegalArgument);
    }
    answer := answer.(instrument := instrument, asOf := IndexedPriceRecord.Timestamp(record));
    var buffer := record.GetReadBuffer();
    var copied := CopiedPayload(buffer[..], AbsolutePayloadOffset(record), IndexedPriceRecord.PayloadSize(record));
    if copied.Err? {
      return answer, Thrown(copied.error);
    }
    answer := answer.(payload := copied.value);
    r := Done;
  }

  /**
    The repository's part of `onStartBatchRun`: nothing when the repository
    is full (`created` false, `r` Done); otherwise `create(nextId)` at
    `now`, which throws when no index is free.
  */
  method StartRun(repo: Repository, nextId: int64, now: int64) returns (created: bool, r: Status)
    requires repo.Valid()
    modifies repo, repo.buffers
    ensures repo.Valid() && (created ==> r == Done)
    ensures old(|repo.idToIndex|) == MAX_ACTIVE_BATCHES_NUMBER ==>
      && !created && r == Done && repo.Bookkeeping() == old(repo.Bookkeeping()) && repo.times == old(repo.times)
    ensures old(|repo.idToIndex|) != MAX_ACTIVE_BATCHES_NUMBER && old(repo.freeIndexes) == [] ==>
      && !created && r == Thrown(IndexOutOfBounds)
      && repo.Bookkeeping() == old(repo.Bookkeeping()) && repo.times == old(repo.times)
    ensures old(|repo.idToIndex|) != MAX_ACTIVE_BATCHES_NUMBER && old(repo.freeIndexes) != [] ==>
      && created
      && repo.Bookkeeping() == Ledger(old(repo.freeIndexes)[1..], old(repo.idToIndex)[nextId := old(repo.freeIndexes)[0]],
                                     old(repo.queued) + {old(repo.freeIndexes)[0]})
      && repo.times == old(repo.times)[old(repo.freeIndexes)[0] := now]
    ensures old(|repo.idToIndex|) == old(|repo.queued|) < MAX_ACTIVE_BATCHES_NUMBER ==> r == Done
  {
    if |repo.idToIndex| == |repo.queued| {
      repo.Capacity();
    }
    var size := repo.Size();
    if size == MAX_ACTIVE_BATCHES_NUMBER {
      return false, Done;
    }
    var run := repo.Create(nextId, now);
    created := run.Ok?;
    r := if created then Done else Thrown(run.error);
  }

  /**
    `mergeTo` of the repository's live run `k` into the market state: the
    market's records outside the run's included set and the rest of its
    buffer are kept, the merge completes exactly when every included record
    merges, and then each of them holds its merge. The run's bytes and the
    repository are as they were.
  */
  method MergeRunToMarket(market: Block, repo: Repository, k: int) returns (r: Status)
    requires repo.Valid() && 0 <= k < MAX_ACTIVE_BATCHES_NUMBER
    requires market.Bound() && market.view.offset == 0 && market.headerSize == MARKET_STATE_HEADER_SIZE
    requires {market, market.view, market.priceRecord} !! repo.Repr
    requires market.view.writeBuffer !in repo.Repr && market.view.writeBuffer !in repo.buffers
    modifies market.view.writeBuffer, market.priceRecord, repo.runs[k].block.priceRecord
    ensures repo.Valid() && market.Bound() && repo.buffers[k][..] == old(repo.buffers[k][..])
    ensures MergeBounds(old(market.view.writeBuffer[..]), 0, market.recordsNumber, repo.buffers[k][..], BATCH_RUN_HEADER_SIZE, repo.recordsNumber)
    ensures Untouched(old(market.view.writeBuffer[..]), market.view.writeBuffer[..], 0, market.recordsNumber, repo.runs[k].included)
    ensures r == Done <==> AllComplete(old(market.view.writeBuffer[..]), 0, market.recordsNumber,
                                       repo.buffers[k][..], BATCH_RUN_HEADER_SIZE, repo.recordsNumber, repo.runs[k].included)
    ensures r == Done ==> MergedInto(old(market.view.writeBuffer[..]), market.view.writeBuffer[..], 0, market.recordsNumber,
                                     repo.buffers[k][..], BATCH_RUN_HEADER_SIZE, repo.recordsNumber, repo.runs[k].included)
  {
    repo.RunApart(k);
    var run := repo.runs[k];
    var handed;
    r, handed := run.MergeTo(market);
    repo.KeepRecordsWrite(k);
  }

  /**
    `onCompleteBatch` on the live run `run`: it is merged into the market
    state, and removed when the merge completes; a merge that throws leaves
    it in the repository.
  */
  method CompleteRun(market: Block, repo: Repository, run: BatchRun) returns (r: Status)
    requires repo.Valid()
    requires 0 <= run.index < MAX_ACTIVE_BATCHES_NUMBER as int32 && run == repo.runs[run.index] && run.index as int in repo.queued
    requires market.Bound() && market.view.offset == 0 && market.headerSize == MARKET_STATE_HEADER_SIZE
    requires {market, market.view, market.priceRecord} !! repo.Repr
    requires market.view.writeBuffer !in repo.Repr && market.view.writeBuffer !in repo.buffers
    modifies repo, run, repo.buffers[run.index], run.block.priceRecord, market.view.writeBuffer, market.priceRecord
    ensures repo.Valid() && market.Bound() && repo.ids == old(repo.ids) && repo.times == old(repo.times)
    ensures MergeBounds(old(market.view.writeBuffer[..]), 0, market.recordsNumber,
                        old(repo.buffers[run.index][..]), BATCH_RUN_HEADER_SIZE, repo.recordsNumber)
    ensures Untouched(old(market.view.writeBuffer[..]), market.view.writeBuffer[..], 0, market.recordsNumber, old(run.included))
    ensures r == Done <==> AllComplete(old(market.view.writeBuffer[..]), 0, market.recordsNumber,
                                       old(repo.buffers[run.index][..]), BATCH_RUN_HEADER_SIZE, repo.recordsNumber, old(run.included))
    ensures r == Done ==>
      && MergedInto(old(market.view.writeBuffer[..]), market.view.writeBuffer[..], 0, market.recordsNumber,
                    old(repo.buffers[run.index][..]), BATCH_RUN_HEADER_SIZE, repo.recordsNumber, old(run.included))
      && repo.idToIndex == old(repo.idToIndex) - {repo.ids[run.index]}
      && repo.queued == old(repo.queued) - {run.index as int} && repo.freeIndexes == old(repo.freeIndexes) + [run.index as int]
    ensures r != Done ==>
      repo.idToIndex == old(repo.idToIndex) && repo.queued == old(repo.queued) && repo.freeIndexes == old(repo.freeIndexes)
  {
    var k := run.index as int;
    repo.RunApart(k);
    ghost var m0 := market.view.writeBuffer[..];
    r := MergeRunToMarket(market, repo, k);
    if r != Done {
      return;
    }
    ghost var merged := market.view.writeBuffer[..];
    repo.Remove(run);
    assert market.view.writeBuffer[..] == merged;
  }

  /**
    The repository's and the market state's part of `onCompleteBatch`: an
    unmapped batch id is not found and nothing changes; otherwise
    `CompleteRun` on the run the id maps to.
  */
  method CompleteBatch(market: Block, repo: Repository, batchId: int64) returns (found: bool, r: Status)
    requires repo.Valid()
    requires market.Bound() && market.view.offset == 0 && market.headerSize == MARKET_STATE_HEADER_SIZE
    requires {market, market.view, market.priceRecord} !! repo.Repr
    requires market.view.writeBuffer !in repo.Repr && market.view.writeBuffer !in repo.buffers
    modifies repo, repo.Repr, market.view.writeBuffer, market.priceRecord
    ensures repo.Valid() && market.Bound() && found == (batchId in old(repo.idToIndex))
    ensures repo.ids == old(repo.ids) && repo.times == old(repo.times)
    ensures !found ==>
      && r == Done && market.view.writeBuffer[..] == old(market.view.writeBuffer[..])
      && repo.idToIndex == old(repo.idToIndex) && repo.queued == old(repo.queued) && repo.freeIndexes == old(repo.freeIndexes)
    ensures found ==>
      var k := old(repo.idToIndex)[batchId];
      && 0 <= k < MAX_ACTIVE_BATCHES_NUMBER && k in old(repo.queued)
      && MergeBounds(old(market.view.writeBuffer[..]), 0, market.recordsNumber,
                     old(repo.buffers[k][..]), BATCH_RUN_HEADER_SIZE, repo.recordsNumber)
      && Untouched(old(market.view.writeBuffer[..]), market.view.writeBuffer[..], 0, market.recordsNumber, old(repo.runs[k].included))
      && (r == Done <==> AllComplete(old(market.view.writeBuffer[..]), 0, market.recordsNumber,
                                     old(repo.buffers[k][..]), BATCH_RUN_HEADER_SIZE, repo.recordsNumber, old(repo.runs[k].included)))
      && (r == Done ==>
            && MergedInto(old(market.view.writeBuffer[..]), market.view.writeBuffer[..], 0, market.recordsNumber,
                          old(repo.buffers[k][..]), BATCH_RUN_HEADER_SIZE, repo.recordsNumber, old(repo.runs[k].included))
            && repo.idToIndex == old(repo.idToIndex) - {batchId}
            && repo.queued == old(repo.queued) - {k} && repo.freeIndexes == old(repo.freeIndexes) + [k])
      && (r != Done ==>
            repo.idToIndex == old(repo.idToIndex) && repo.queued == old(repo.queued) && repo.freeIndexes == old(repo.freeIndexes))
  {
    var batchRun := repo.Get(batchId);
    if batchRun.None? {
      return false, Done;
    }
    found := true;
    var run := batchRun.value;
    repo.RunApart(repo.idToIndex[batchId]);
    assert repo.ids[run.index] == batchId;
    r := CompleteRun(market, repo, run);
  }

  /**
    The repository's part of `onCancelBatchRun`: the run the id maps to, if
    any, is removed; either way the id is no longer mapped.
  */
  method CancelBatch(repo: Repository, batchId: int64) returns (found: bool)
    requires repo.Valid()
    modifies repo, repo.Repr
    ensures repo.Valid() && found == (batchId in old(repo.idToIndex))
    ensures repo.ids == old(repo.ids) && repo.times == old(repo.times) && repo.idToIndex == old(repo.idToIndex) - {batchId}
    ensures !found ==> repo.queued == old(repo.queued) && repo.freeIndexes == old(repo.freeIndexes)
    ensures found ==>
      var k := old(repo.idToIndex)[batchId];
      k in old(repo.queued) && repo.queued == old(repo.queued) - {k} && repo.freeIndexes == old(repo.freeIndexes) + [k]
  {
    var batchRun := repo.Get(batchId);
    found := batchRun.Some?;
    if found {
      var run := batchRun.value;
      repo.RunApart(repo.idToIndex[batchId]);
      assert repo.ids[run.index] == batchId;
      repo.Remove(run);
    }
  }

  /**
    Runs built as the source's constructor builds them hold
    `MAX_ACTIVE_BATCHES_NUMBER` records each: with more instruments than
    that, a chunk that stages an instrument indexed at or past it can never
    be merged into its run.
  */
  lemma ShortRunRefuses(t0: seq<byte>, src: seq<byte>, sn: nat, done: set<int>, j: int)
    requires MergeBounds(t0, BATCH_RUN_HEADER_SIZE, MAX_ACTIVE_BATCHES_NUMBER, src, BATCH_RUN_HEADER_SIZE, sn)
    requires j in done && MAX_ACTIVE_BATCHES_NUMBER <= j < sn
    ensures !AllComplete(t0, BATCH_RUN_HEADER_SIZE, MAX_ACTIVE_BATCHES_NUMBER, src, BATCH_RUN_HEADER_SIZE, sn, done)
  {
    SlotInside(BATCH_RUN_HEADER_SIZE, j, sn);
    assert MergeStep(t0, BATCH_RUN_HEADER_SIZE, MAX_ACTIVE_BATCHES_NUMBER, src, BATCH_RUN_HEADER_SIZE, j).1 == Thrown(IndexOutOfBounds);
  }

  /**
    Runs with one record per instrument, as the handler's constructor builds
    them here, have a slot for every record a chunk can stage: merging each
    one is the record update alone, never the out-of-range refusal.
  */
  lemma RunCoversStaged(t0: seq<byte>, src: seq<byte>, n: nat, done: set<int>)
    requires MergeBounds(t0, BATCH_RUN_HEADER_SIZE, n, src, BATCH_RUN_HEADER_SIZE, n)
    requires forall j | j in done :: 0 <= j < n
    ensures forall j | j in done ::
      SlotPos(BATCH_RUN_HEADER_SIZE, j) + MESSAGE_SIZE <= |src|
      && var p := SlotPos(BATCH_RUN_HEADER_SIZE, j);
         MergeStep(t0, BATCH_RUN_HEADER_SIZE, n, src, BATCH_RUN_HEADER_SIZE, j)
         == UpdateBytes(t0, p, TimestampAt(src, p), src, p + PAYLOAD_FIELD_OFFSET, GetInt(src, p + PAYLOAD_SIZE_FIELD_OFFSET))
  {
    forall j | j in done
      ensures SlotPos(BATCH_RUN_HEADER_SIZE, j) + MESSAGE_SIZE <= |src|
    {
      SlotInside(BATCH_RUN_HEADER_SIZE, j, n);
    }
  }

  /**
    What one clean-up cycle at `now` does to the repository's bookkeeping:
    either no queued run is outdated and nothing changes, or the oldest queued
    run, when outdated (its last update at or before `now` minus the eviction
    timeout), leaves the clean-up queue, its id is unmapped and its index goes to the back of the
    free queue.
  */
  ghost predicate Evicted(before: Ledger, after: Ledger, ids: seq<int64>, times: seq<int64>, now: int64)
  {
    var lastAllowed := SubLong(now, BATCH_EVICTION_TIMEOUT as int64);
    || (after == before && forall j | j in after.queued && 0 <= j < |times| :: lastAllowed < times[j])
    || exists k | k in before.queued && 0 <= k < |times| && k < |ids| ::
         && times[k] <= lastAllowed
         && (forall j | j in before.queued && 0 <= j < |times| :: times[k] <= times[j])
         && after == Ledger(before.freeIndexes + [k], before.idToIndex - {ids[k]}, before.queued - {k})
  }

  /**
    Two queued runs, `older` last updated strictly before `newer`, both
    outdated: a clean-up cycle evicts exactly one run and keeps `newer`
    queued, so the newer run outlives the older one.
  */
  lemma EvictsOldestFirst(before: Ledger, after: Ledger, ids: seq<int64>, times: seq<int64>, now: int64,
                          older: int, newer: int)
    requires Evicted(before, after, ids, times, now)
    requires older in before.queued && newer in before.queued && 0 <= older < |times| && 0 <= newer < |times|
    requires times[older] < times[newer] <= SubLong(now, BATCH_EVICTION_TIMEOUT as int64)
    ensures newer in after.queued && |after.freeIndexes| == |before.freeIndexes| + 1
  {
    var lastAllowed := SubLong(now, BATCH_EVICTION_TIMEOUT as int64);
    assert !(lastAllowed < times[newer]);
    var k :| && k in before.queued && 0 <= k < |times| && k < |ids|
              && times[k] <= lastAllowed
              && (forall j | j in before.queued && 0 <= j < |times| :: times[k] <= times[j])
              && after == Ledger(before.freeIndexes + [k], before.idToIndex - {ids[k]}, before.queued - {k});
    assert times[k] <= times[older];
    assert k != newer;
  }

  /**
    What `onStartBatchRun` does, from the replies, bookkeeping and last-update
    times before (`replies0`, `books0`, `times0`) to those after: with every
    slot of the map taken it answers CAN_NOT_CREATE_BATCH; with a slot left
    in the map but no free index `create` throws IndexOutOfBoundsException;
    otherwise the first free index goes live under `nextId`, saved at `now`,
    and the reply is SUCCESS with that id.
  */
  ghost predicate StartServed(replies0: Replies, books0: Ledger, times0: seq<int64>, nextId: int64, now: int64,
                              st: Status, replies: Replies, books: Ledger, times: seq<int64>)
  {
    && (|books0.idToIndex| == MAX_ACTIVE_BATCHES_NUMBER ==>
          && st == Done && replies == replies0.(start := replies0.start.(status := StartBatchRunResponse.CAN_NOT_CREATE_BATCH_STATUS))
          && books == books0 && times == times0)
    && (|books0.idToIndex| != MAX_ACTIVE_BATCHES_NUMBER && books0.freeIndexes == [] ==>
          st == Thrown(IndexOutOfBounds) && replies == replies0 && books == books0 && times == times0)
    && (|books0.idToIndex| != MAX_ACTIVE_BATCHES_NUMBER && books0.freeIndexes != [] ==>
          var k := books0.freeIndexes[0];
          && st == Done && replies == replies0.(start := StartReply(StartBatchRunResponse.SUCCESS_STATUS, nextId))
          && books == Ledger(books0.freeIndexes[1..], books0.idToIndex[nextId := k], books0.queued + {k})
          && 0 <= k < |times0| && times == times0[k := now])
  }

  /**
    The reply `onStartBatchRun` gives for what `StartRun` did: SUCCESS with
    the new id when a run was created, CAN_NOT_CREATE_BATCH when the
    repository was full, and no reply when `create` threw.
  */
  function StartReplies(replies: Replies, nextId: int64, created: bool, r: Status): (answered: Replies)
    ensures answered.cancel == replies.cancel
  {
    if created then replies.(start := StartReply(StartBatchRunResponse.SUCCESS_STATUS, nextId))
    else if r == Done then replies.(start := replies.start.(status := StartBatchRunResponse.CAN_NOT_CREATE_BATCH_STATUS))
    else replies
  }

  /** `StartRun`'s outcome, answered by `StartReplies`, is what `onStartBatchRun` does. */
  lemma StartAnswered(replies0: Replies, books0: Ledger, times0: seq<int64>, nextId: int64, now: int64,
                      created: bool, r: Status, books: Ledger, times: seq<int64>)
    requires created ==> r == Done
    requires |books0.idToIndex| == MAX_ACTIVE_BATCHES_NUMBER ==> !created && r == Done && books == books0 && times == times0
    requires |books0.idToIndex| != MAX_ACTIVE_BATCHES_NUMBER && books0.freeIndexes == [] ==>
      !created && r == Thrown(IndexOutOfBounds) && books == books0 && times == times0
    requires |books0.idToIndex| != MAX_ACTIVE_BATCHES_NUMBER && books0.freeIndexes != [] ==>
      && created && 0 <= books0.freeIndexes[0] < |times0|
      && books == Ledger(books0.freeIndexes[1..], books0.idToIndex[nextId := books0.freeIndexes[0]], books0.queued + {books0.freeIndexes[0]})
      && times == times0[books0.freeIndexes[0] := now]
    ensures StartServed(replies0, books0, times0, nextId, now, r, StartReplies(replies0, nextId, created, r), books, times)
  {
  }

  /**
    What `onCancelBatchRun` does: the reply is SUCCESS whether or not the id
    is mapped, and a mapped id is unmapped and its index freed.
  */
  ghost predicate CancelServed(replies0: Replies, books0: Ledger, batchId: int64, replies: Replies, books: Ledger)
  {
    && replies == replies0.(cancel := CancelBatchRunResponse.SUCCESS_STATUS)
    && (batchId !in books0.idToIndex ==> books == books0)
    && (batchId in books0.idToIndex ==>
          var k := books0.idToIndex[batchId];
          books == Ledger(books0.freeIndexes + [k], books0.idToIndex - {batchId}, books0.queued - {k}))
  }

  /**
    What `onUploadChunk` does, with the SUCCESS status the source leaves out:
    the bookkeeping is kept; an unmapped id answers BATCH_RUN_NOT_FOUND and
    changes nothing else; otherwise the chunk is staged in the scratch run
    (`scratch0` to `scratch`) and merged into the batch's run (`run0` to
    `run`) as `Uploaded` says, the run is saved at `now` exactly when the
    merge completes, and the status is `UploadStatus` of how it ended.
  */
  ghost predicate UploadServed(idx: Indexer, replies0: Replies, books0: Ledger, times0: seq<int64>, scratch0: seq<byte>,
                               run0: seq<byte>, batchId: int64, records: seq<ChunkRecord>, now: int64, recordsNumber: nat,
                               st: Status, replies: Replies, books: Ledger, times: seq<int64>, scratch: seq<byte>,
                               included: set<int>, run: seq<byte>, runIncluded0: set<int>, runIncluded: set<int>)
  {
    && books == books0
    && (batchId !in books0.idToIndex ==>
          && st == Done && replies == replies0.(upload := UploadChunkResponse.BATCH_RUN_NOT_FOUND_STATUS)
          && times == times0 && scratch == scratch0)
    && (batchId in books0.idToIndex ==>
          var k := books0.idToIndex[batchId];
          && 0 <= k < |times0|
          && Sorted(idx.sorted) && SlotPos(BATCH_RUN_HEADER_SIZE, |idx.sorted|) <= |scratch0|
          && SlotPos(BATCH_RUN_HEADER_SIZE, recordsNumber) <= |run0|
          && var outcome := StagedOutcome(idx, scratch0, records);
          && replies == replies0.(upload := UploadStatus(replies0.upload, outcome, st))
          && times == (if outcome == Processed && st == Done then times0[k := now] else times0)
          && Uploaded(idx, scratch0, records, scratch, included, run0, run, recordsNumber, st, runIncluded0, runIncluded))
  }

  /**
    What `onCompleteBatch` does: an unmapped id answers BATCH_RUN_NOT_FOUND
    and changes nothing else; otherwise the run's included records (`done0`)
    are merged from `run0` into the market state (`market0` to `market`),
    no other record of it changes, and the merge completes exactly when
    every included record merges; then the reply is SUCCESS and the run is
    removed, and if it does not, the exception ends the operation with the
    replies and the bookkeeping as they were.
  */
  ghost predicate CompleteServed(replies0: Replies, books0: Ledger, market0: seq<byte>, marketRecords: nat, run0: seq<byte>,
                                 recordsNumber: nat, done0: set<int>, batchId: int64,
                                 st: Status, replies: Replies, books: Ledger, market: seq<byte>)
  {
    && (batchId !in books0.idToIndex ==>
          && st == Done && replies == replies0.(complete := CompleteBatchRunResponse.BATCH_RUN_NOT_FOUND_STATUS)
          && market == market0 && books == books0)
    && (batchId in books0.idToIndex ==>
          var k := books0.idToIndex[batchId];
          && k in books0.queued
          && MergeBounds(market0, 0, marketRecords, run0, BATCH_RUN_HEADER_SIZE, recordsNumber)
          && Untouched(market0, market, 0, marketRecords, done0)
          && (st == Done <==> AllComplete(market0, 0, marketRecords, run0, BATCH_RUN_HEADER_SIZE, recordsNumber, done0))
          && (st == Done ==>
                && MergedInto(market0, market, 0, marketRecords, run0, BATCH_RUN_HEADER_SIZE, recordsNumber, done0)
                && replies == replies0.(complete := CompleteBatchRunResponse.SUCCESS_STATUS)
                && books == Ledger(books0.freeIndexes + [k], books0.idToIndex - {batchId}, books0.queued - {k}))
          && (st != Done ==> replies == replies0 && books == books0))
  }

  /** Staging a single record of a known ticker is one update of its instrument's record. */
  lemma StageSingle(idx: Indexer, s: seq<byte>, base: int, record: ChunkRecord)
    requires Sorted(idx.sorted) && 0 <= base && SlotPos(base, |idx.sorted|) <= |s| && record.instrument in idx.sorted
    ensures 0 <= DefineIndex(idx, record.instrument) < |idx.sorted|
    ensures InBounds(s, SlotPos(base, DefineIndex(idx, record.instrument)))
    ensures var u := UpdateBytes(s, SlotPos(base, DefineIndex(idx, record.instrument)), record.asOf, record.from, record.fromOffset, record.size);
      Stage(idx, s, base, [record])
        == Staging(u.0, {DefineIndex(idx, record.instrument)}, if u.1 == Done then Processed else Failed(u.1.error))
  {
    var i := DefineIndex(idx, record.instrument);
    DefineIndexMeaning(idx, record.instrument);
    SlotInside(base, i, |idx.sorted|);
    var u := UpdateBytes(s, SlotPos(base, i), record.asOf, record.from, record.fromOffset, record.size);
    StageFirst(idx, s, base, [record], i, u.0, u.1);
    assert [record][1..] == [];
  }

  /**
    Staging one record of a known instrument whose record is not newer, when
    it does not throw, includes exactly that instrument's record, which then
    holds the record's timestamp and payload.
  */
  lemma StagedOne(idx: Indexer, s: seq<byte>, base: int, record: ChunkRecord)
    requires Sorted(idx.sorted) && 0 <= base && SlotPos(base, |idx.sorted|) <= |s| && record.instrument in idx.sorted
    requires InBounds(s, SlotPos(base, DefineIndex(idx, record.instrument)))
    requires TimestampAt(s, SlotPos(base, DefineIndex(idx, record.instrument))) <= record.asOf
    requires !Stage(idx, s, base, [record]).outcome.Failed?
    ensures var i := DefineIndex(idx, record.instrument);
      var st := Stage(idx, s, base, [record]);
      && 0 <= i < |idx.sorted| && idx.sorted[i] == record.instrument
      && st.outcome == Processed && st.included == {i}
      && InBounds(st.bytes, SlotPos(base, i))
      && TimestampAt(st.bytes, SlotPos(base, i)) == record.asOf
      && 0 <= record.size <= PRICE_MAX_PAYLOAD_SIZE as int && 0 <= record.fromOffset && record.fromOffset + record.size <= |record.from|
      && PayloadAt(st.bytes, SlotPos(base, i)) == Ok(record.from[record.fromOffset..record.fromOffset + record.size])
  {
    DefineIndexMeaning(idx, record.instrument);
    StageSingle(idx, s, base, record);
    var p := SlotPos(base, DefineIndex(idx, record.instrument));
    UpdateOutcome(s, p, record.asOf, record.from, record.fromOffset, record.size);
    UpdatePayload(s, p, record.asOf, record.from, record.fromOffset, record.size);
  }

  /**
    A merged record whose source timestamp is newer than or equal to the
    target's ends up with the source's timestamp and payload.
  */
  lemma MergedWins(t0: seq<byte>, t: seq<byte>, tb: int, tn: nat, src: seq<byte>, sb: int, sn: nat, done: set<int>, j: int,
                   ts: int64, payload: seq<byte>)
    requires MergeBounds(t0, tb, tn, src, sb, sn) && |t| == |t0|
    requires MergedInto(t0, t, tb, tn, src, sb, sn, done) && AllComplete(t0, tb, tn, src, sb, sn, done) && j in done
    requires 0 <= j < sn && TimestampAt(src, SlotPos(sb, j)) == ts && PayloadAt(src, SlotPos(sb, j)) == Ok(payload)
    requires 0 <= j < tn && TimestampAt(t0, SlotPos(tb, j)) <= ts
    ensures InBounds(t, SlotPos(tb, j)) && TimestampAt(t, SlotPos(tb, j)) == ts && PayloadAt(t, SlotPos(tb, j)) == Ok(payload)
  {
    MergedRecord(t0, t, tb, tn, src, sb, sn, done, j);
  }

  /**
    A one-record upload of a known ticker that completes on a run whose
    record is not newer: the chunk was staged whole, the record's index joins
    the run's included set, and the run's record holds the uploaded
    timestamp and payload.
  */
  lemma UploadedOne(idx: Indexer, s0: seq<byte>, record: ChunkRecord, s: seq<byte>, included: set<int>,
                    t0: seq<byte>, t: seq<byte>, runIncluded0: set<int>, runIncluded: set<int>)
    requires Sorted(idx.sorted) && SlotPos(BATCH_RUN_HEADER_SIZE, |idx.sorted|) <= |s0| && SlotPos(BATCH_RUN_HEADER_SIZE, |idx.sorted|) <= |t0|
    requires Uploaded(idx, s0, [record], s, included, t0, t, |idx.sorted|, Done, runIncluded0, runIncluded)
    requires record.instrument in idx.sorted && 0 <= record.asOf
    requires var p := SlotPos(BATCH_RUN_HEADER_SIZE, DefineIndex(idx, record.instrument));
      InBounds(t0, p) && TimestampAt(t0, p) <= record.asOf
    ensures StagedOutcome(idx, s0, [record]) == Processed
    ensures var i := DefineIndex(idx, record.instrument);
      && 0 <= i < |idx.sorted| && idx.sorted[i] == record.instrument
      && runIncluded == runIncluded0 + {i} && |t| == |t0|
      && InBounds(t, SlotPos(BATCH_RUN_HEADER_SIZE, i)) && TimestampAt(t, SlotPos(BATCH_RUN_HEADER_SIZE, i)) == record.asOf
      && 0 <= record.size <= PRICE_MAX_PAYLOAD_SIZE as int && 0 <= record.fromOffset && record.fromOffset + record.size <= |record.from|
      && PayloadAt(t, SlotPos(BATCH_RUN_HEADER_SIZE, i)) == Ok(record.from[record.fromOffset..record.fromOffset + record.size])
  {
    var n, H := |idx.sorted|, BATCH_RUN_HEADER_SIZE;
    var i := DefineIndex(idx, record.instrument);
    DefineIndexMeaning(idx, record.instrument);
    SlotInside(H, i, n);
    ResetClearsTimestamps(s0, H, n, i);
    StagedOne(idx, ResetBytes(s0, H, n), H, record);
    MergedWins(t0, t, H, n, s, H, n, {i}, i, record.asOf, record.from[record.fromOffset..record.fromOffset + record.size]);
  }

  /** A stored payload within the cap is what the response's `putPayload` copies. */
  lemma CopiedStoredPayload(s: seq<byte>, p: int)
    requires InBounds(s, p) && PayloadAt(s, p).Ok? && |PayloadAt(s, p).value| <= PRICE_MAX_PAYLOAD_SIZE
    ensures CopiedPayload(s, p + PAYLOAD_FIELD_OFFSET, GetInt(s, p + PAYLOAD_SIZE_FIELD_OFFSET)) == PayloadAt(s, p)
  {
  }

  /** A market record that holds a price answers the last price with its ticker, timestamp and payload. */
  lemma LastPriceOfRecord(idx: Indexer, s: seq<byte>, instrument: string, reply: PriceReply, ts: int64, payload: seq<byte>)
    requires Sorted(idx.sorted) && SlotPos(0, |idx.sorted|) <= |s|
    requires instrument in idx.sorted && |instrument| <= INSTRUMENT_MAX_TICKER_LENGTH
    requires 0 <= DefineIndex(idx, instrument) && InBounds(s, SlotPos(0, DefineIndex(idx, instrument)))
    requires TimestampAt(s, SlotPos(0, DefineIndex(idx, instrument))) == ts != 0
    requires PayloadAt(s, SlotPos(0, DefineIndex(idx, instrument))) == Ok(payload) && |payload| <= PRICE_MAX_PAYLOAD_SIZE
    ensures LastPrice(idx, s, 0, instrument, reply) == (PriceReply(LastPriceResponse.SUCCESS_STATUS, instrument, ts, payload), Done)
  {
    CopiedStoredPayload(s, SlotPos(0, DefineIndex(idx, instrument)));
  }

  /**
    A price uploaded and completed is the last price: a one-record chunk of
    a known ticker uploaded to a started batch answers SUCCESS, completing
    the batch answers SUCCESS, and the last price of that ticker then
    answers SUCCESS with the ticker, the uploaded timestamp and payload,
    provided neither the batch's run nor the market held a newer price.
  */
  lemma UploadedPriceServed(idx: Indexer, replies0: Replies, books0: Ledger, times0: seq<int64>, scratch0: seq<byte>,
                            run0: seq<byte>, batchId: int64, record: ChunkRecord, now: int64,
                            st1: Status, replies1: Replies, books1: Ledger, times1: seq<int64>, scratch1: seq<byte>,
                            included1: set<int>, run1: seq<byte>, runIncluded0: set<int>, runIncluded1: set<int>,
                            market0: seq<byte>, st2: Status, replies2: Replies, books2: Ledger, market2: seq<byte>,
                            reply: PriceReply)
    requires UploadServed(idx, replies0, books0, times0, scratch0, run0, batchId, [record], now, |idx.sorted|,
                          st1, replies1, books1, times1, scratch1, included1, run1, runIncluded0, runIncluded1)
    requires CompleteServed(replies1, books1, market0, |idx.sorted|, run1, |idx.sorted|, runIncluded1, batchId,
                            st2, replies2, books2, market2)
    requires batchId in books0.idToIndex && st1 == Done && st2 == Done
    requires record.instrument in idx.sorted && |record.instrument| <= INSTRUMENT_MAX_TICKER_LENGTH && 0 < record.asOf
    requires var p := SlotPos(BATCH_RUN_HEADER_SIZE, DefineIndex(idx, record.instrument));
      InBounds(run0, p) && TimestampAt(run0, p) <= record.asOf
    requires var p := SlotPos(0, DefineIndex(idx, record.instrument));
      InBounds(market0, p) && TimestampAt(market0, p) <= record.asOf
    ensures replies1.upload == UploadChunkResponse.SUCCESS_STATUS
    ensures replies2.complete == CompleteBatchRunResponse.SUCCESS_STATUS
    ensures 0 <= record.size <= PRICE_MAX_PAYLOAD_SIZE as int && 0 <= record.fromOffset && record.fromOffset + record.size <= |record.from|
    ensures Sorted(idx.sorted) && SlotPos(0, |idx.sorted|) <= |market2|
    ensures LastPrice(idx, market2, 0, record.instrument, reply)
         == (PriceReply(LastPriceResponse.SUCCESS_STATUS, record.instrument, record.asOf,
                        record.from[record.fromOffset..record.fromOffset + record.size]), Done)
  {
    var n, H := |idx.sorted|, BATCH_RUN_HEADER_SIZE;
    UploadedOne(idx, scratch0, record, scratch1, included1, run0, run1, runIncluded0, runIncluded1);
    var i := DefineIndex(idx, record.instrument);
    var payload := record.from[record.fromOffset..record.fromOffset + record.size];
    assert books1 == books0;
    MergedWins(market0, market2, 0, n, run1, H, n, runIncluded1, i, record.asOf, payload);
    LastPriceOfRecord(idx, market2, record.instrument, reply, record.asOf, payload);
  }

  /** The outcome of serving a request: its response type, or the exception that ended it. */
  function Answer(messageType: int, st: Status): (r: Result<int32>)
    requires Supported(messageType)
    ensures r.Ok? <==> st == Done
    ensures r.Ok? ==> r.value == ResponseType(messageType)
    ensures r.Err? ==> r.error == st.error
  {
    if st == Done then Ok(ResponseType(messageType)) else Err(st.error)
  }

  class Handler {
    /** The last known price of every instrument, one record per instrument index. */
    const marketState: Block
    const indexer: Indexer
    const repository: Repository
    /** The scratch run an uploaded chunk is staged in. */
    const operational: BatchRun
    /** The response messages, as the values last written to them. */
    var replies: Replies

    ghost predicate Valid()
      reads repository, repository.Repr, marketState, marketState.view, operational, operational.block, operational.block.view
    {
      Wired(marketState, indexer, repository, operational) && this !in repository.Repr
    }

    /** Writing a reply leaves the handler valid: its validity does not depend on the replies. */
    twostate lemma RepliesOnly()
      requires old(Valid()) && unchanged(repository) && unchanged(repository.Repr)
      requires unchanged(marketState, marketState.view, operational, operational.block, operational.block.view)
      ensures Valid()
    {
    }

    /**
      A request that changes the repository (which stays valid), the market
      state's bytes, and the scratch run's bytes and included set leaves the
      handler valid.
    */
    twostate lemma PartsOnly()
      requires old(Valid()) && repository.Valid() && operational.Bound()
      requires unchanged(marketState, marketState.view, operational.block, operational.block.view)
      ensures Valid()
    {
    }

    /** The market state's bytes. */
    function Market(): seq<byte>
      reads marketState, marketState.view, marketState.view.writeBuffer
      requires marketState.view.writeBuffer != null
    {
      marketState.view.writeBuffer[..]
    }

    /** The scratch run's bytes. */
    function Scratch(): seq<byte>
      reads operational, operational.block, operational.block.view, operational.block.view.writeBuffer
      requires operational.block.view.writeBuffer != null
    {
      operational.block.view.writeBuffer[..]
    }

    /**
      The handler for a set of instruments, its repository's runs having one
      record per instrument; nothing is mapped and no instrument has a price.
    */
    constructor (instruments: seq<string>)
      ensures Valid() && indexer == NewIndexer(instruments) && replies == NO_REPLIES
      ensures repository.recordsNumber == |instruments| == |indexer.sorted|
      ensures repository.idToIndex == map[] && repository.queued == {}
      ensures forall i | 0 <= i < |indexer.sorted| :: !PriceAvailable(marketState, i)
    {
      var market, idx, repo, scratch := Assemble(instruments, |instruments|);
      marketState, indexer, repository, operational := market, idx, repo, scratch;
      replies := NO_REPLIES;
    }

    /**
      The constructor as the source writes it: the repository's runs get
      `MAX_ACTIVE_BATCHES_NUMBER` records each instead of one per instrument.
    */
    constructor AsWritten(instruments: seq<string>)
      ensures Valid() && indexer == NewIndexer(instruments) && replies == NO_REPLIES
      ensures repository.recordsNumber == MAX_ACTIVE_BATCHES_NUMBER && |indexer.sorted| == |instruments|
      ensures repository.idToIndex == map[] && repository.queued == {}
      ensures forall i | 0 <= i < |indexer.sorted| :: !PriceAvailable(marketState, i)
    {
      var market, idx, repo, scratch := Assemble(instruments, MAX_ACTIVE_BATCHES_NUMBER);
      marketState, indexer, repository, operational := market, idx, repo, scratch;
      replies := NO_REPLIES;
    }

    /**
      `onLastPrice`: the reply is what `LastPrice` gives on the market
      state's bytes; only the last-price response changes.
    */
    method OnLastPrice(instrument: string) returns (r: Status)
      requires Valid()
      modifies this, marketState.priceRecord
      ensures Valid() && Market() == old(Market())
      ensures (replies.lastPrice, r) == LastPrice(indexer, Market(), 0, instrument, old(replies.lastPrice))
      ensures replies == old(replies).(lastPrice := replies.lastPrice)
    {
      var answer;
      answer, r := ReadPrice(marketState, indexer, instrument, replies.lastPrice);
      replies := replies.(lastPrice := answer);
    }

    /**
      `onStartBatchRun`: with `MAX_ACTIVE_BATCHES_NUMBER` ids mapped the
      reply is CAN_NOT_CREATE_BATCH and nothing else changes; otherwise the
      generated id `nextId` is given a run created at `now`, and the reply is
      SUCCESS with that id. Creation throws (and no reply is written) only
      when no index is free, which cannot happen while every live run has
      its own id.
    */
    method OnStartBatchRun(nextId: int64, now: int64) returns (r: Status)
      requires Valid()
      modifies this, repository, repository.buffers
      ensures Valid() && Market() == old(Market())
      ensures StartServed(old(replies), old(repository.Bookkeeping()), old(repository.times), nextId, now,
                          r, replies, repository.Bookkeeping(), repository.times)
      ensures old(|repository.idToIndex|) == old(|repository.queued|) < MAX_ACTIVE_BATCHES_NUMBER ==> r == Done
    {
      ghost var replies0, books0, times0 := replies, repository.Bookkeeping(), repository.times;
      var created;
      created, r := StartRun(repository, nextId, now);
      ghost var books, times := repository.Bookkeeping(), repository.times;
      StartAnswered(replies0, books0, times0, nextId, now, created, r, books, times);
      label started:
      replies := StartReplies(replies, nextId, created, r);
      RepliesOnly@started();
      assert repository.Bookkeeping() == books && repository.times == times;
    }

    /**
      `onUploadChunk`, with the SUCCESS status the source leaves out: an
      unmapped batch id answers BATCH_RUN_NOT_FOUND and nothing else changes;
      otherwise the chunk is staged and merged as `Uploaded` says, the run is
      saved at `now` exactly when the merge completes, and the status is
      `UploadStatus` of how staging and merging ended.
    */
    method OnUploadChunk(batchId: int64, records: seq<ChunkRecord>, now: int64) returns (r: Status)
      requires Valid()
      modifies this, repository, repository.Repr, operational, operational.block.view.writeBuffer, operational.block.priceRecord
      ensures Valid() && Market() == old(Market())
      ensures repository.ids == old(repository.ids)
      ensures UploadServed(indexer, old(replies), old(repository.Bookkeeping()), old(repository.times), old(Scratch()),
                           old(repository.RunOf(batchId)), batchId, records, now, repository.recordsNumber,
                           r, replies, repository.Bookkeeping(), repository.times, Scratch(), operational.included,
                           repository.RunOf(batchId), old(repository.IncludedOf(batchId)), repository.IncludedOf(batchId))
    {
      r := Upload(batchId, records, now);
      PartsOnly();
    }

    /** The body of `onUploadChunk`, on the parts of the handler it uses. */
    method Upload(batchId: int64, records: seq<ChunkRecord>, now: int64) returns (r: Status)
      requires repository.Valid() && this !in repository.Repr && Sorted(indexer.sorted)
      requires operational.Bound() && operational.block.view.offset == 0 && operational.block.recordsNumber == |indexer.sorted|
      requires {operational, operational.block, operational.block.view, operational.block.priceRecord} !! repository.Repr
      requires operational.block.view.writeBuffer !in repository.Repr && operational.block.view.writeBuffer !in repository.buffers
      modifies this, repository, repository.Repr, operational, operational.block.view.writeBuffer, operational.block.priceRecord
      ensures repository.Valid() && operational.Bound()
      ensures repository.ids == old(repository.ids) && repository.idToIndex == old(repository.idToIndex)
      ensures repository.queued == old(repository.queued) && repository.freeIndexes == old(repository.freeIndexes)
      ensures batchId !in old(repository.idToIndex) ==>
        && r == Done && replies == old(replies).(upload := UploadChunkResponse.BATCH_RUN_NOT_FOUND_STATUS)
        && repository.times == old(repository.times) && operational.block.view.writeBuffer[..] == old(operational.block.view.writeBuffer[..])
      ensures batchId in old(repository.idToIndex) ==>
        var k := old(repository.idToIndex)[batchId];
        && 0 <= k < MAX_ACTIVE_BATCHES_NUMBER
        && SlotPos(BATCH_RUN_HEADER_SIZE, |indexer.sorted|) <= |old(operational.block.view.writeBuffer[..])|
        && SlotPos(BATCH_RUN_HEADER_SIZE, repository.recordsNumber) <= |old(repository.buffers[k][..])|
        && var outcome := StagedOutcome(indexer, old(operational.block.view.writeBuffer[..]), records);
        && replies == old(replies).(upload := UploadStatus(old(replies.upload), outcome, r))
        && repository.times == (if outcome == Processed && r == Done then old(repository.times)[k := now] else old(repository.times))
        && Uploaded(indexer, old(operational.block.view.writeBuffer[..]), records, operational.block.view.writeBuffer[..],
                    operational.included, old(repository.buffers[k][..]), repository.buffers[k][..], repository.recordsNumber, r,
                    old(repository.runs[k].included), repository.runs[k].included)
    {
      var found, outcome;
      found, outcome, r := UploadChunk(indexer, operational, repository, batchId, records, now);
      label uploaded:
      if !found {
        replies := replies.(upload := UploadChunkResponse.BATCH_RUN_NOT_FOUND_STATUS);
      } else {
        replies := replies.(upload := UploadStatus(replies.upload, outcome, r));
      }
      repository.Framed@uploaded();
    }

    /**
      `onCompleteBatch`: an unmapped batch id answers BATCH_RUN_NOT_FOUND and
      nothing else changes; otherwise the run is merged into the market
      state as `CompleteBatch` says, and when the merge completes the run is
      removed and the answer is SUCCESS. A merge that throws writes no
      status and keeps the run.
    */
    method OnCompleteBatch(batchId: int64) returns (r: Status)
      requires Valid()
      modifies this, repository, repository.Repr, marketState.view.writeBuffer, marketState.priceRecord
      ensures Valid() && repository.ids == old(repository.ids) && repository.times == old(repository.times)
      ensures CompleteServed(old(replies), old(repository.Bookkeeping()), old(Market()), marketState.recordsNumber,
                             old(repository.RunOf(batchId)), repository.recordsNumber, old(repository.IncludedOf(batchId)),
                             batchId, r, replies, repository.Bookkeeping(), Market())
    {
      r := Complete(batchId);
      PartsOnly();
    }

    /** The body of `onCompleteBatch`, on the parts of the handler it uses. */
    method Complete(batchId: int64) returns (r: Status)
      requires repository.Valid() && this !in repository.Repr
      requires marketState.Bound() && marketState.view.offset == 0 && marketState.headerSize == MARKET_STATE_HEADER_SIZE
      requires {marketState, marketState.view, marketState.priceRecord} !! repository.Repr
      requires marketState.view.writeBuffer !in repository.Repr && marketState.view.writeBuffer !in repository.buffers
      modifies this, repository, repository.Repr, marketState.view.writeBuffer, marketState.priceRecord
      ensures repository.Valid() && marketState.Bound()
      ensures repository.ids == old(repository.ids) && repository.times == old(repository.times)
      ensures batchId !in old(repository.idToIndex) ==>
        && r == Done && replies == old(replies).(complete := CompleteBatchRunResponse.BATCH_RUN_NOT_FOUND_STATUS)
        && marketState.view.writeBuffer[..] == old(marketState.view.writeBuffer[..])
        && repository.idToIndex == old(repository.idToIndex) && repository.queued == old(repository.queued)
        && repository.freeIndexes == old(repository.freeIndexes)
      ensures batchId in old(repository.idToIndex) ==>
        var k := old(repository.idToIndex)[batchId];
        && 0 <= k < MAX_ACTIVE_BATCHES_NUMBER && k in old(repository.queued)
        && MergeBounds(old(marketState.view.writeBuffer[..]), 0, marketState.recordsNumber,
                       old(repository.buffers[k][..]), BATCH_RUN_HEADER_SIZE, repository.recordsNumber)
        && Untouched(old(marketState.view.writeBuffer[..]), marketState.view.writeBuffer[..], 0, marketState.recordsNumber,
                     old(repository.runs[k].included))
        && (r == Done <==> AllComplete(old(marketState.view.writeBuffer[..]), 0, marketState.recordsNumber,
                                       old(repository.buffers[k][..]), BATCH_RUN_HEADER_SIZE, repository.recordsNumber,
                                       old(repository.runs[k].included)))
        && (r == Done ==>
              && MergedInto(old(marketState.view.writeBuffer[..]), marketState.view.writeBuffer[..], 0, marketState.recordsNumber,
                            old(repository.buffers[k][..]), BATCH_RUN_HEADER_SIZE, repository.recordsNumber,
                            old(repository.runs[k].included))
              && replies == old(replies).(complete := CompleteBatchRunResponse.SUCCESS_STATUS)
              && repository.idToIndex == old(repository.idToIndex) - {batchId}
              && repository.queued == old(repository.queued) - {k} && repository.freeIndexes == old(repository.freeIndexes) + [k])
        && (r != Done ==>
              && replies == old(replies)
              && repository.idToIndex == old(repository.idToIndex) && repository.queued == old(repository.queued)
              && repository.freeIndexes == old(repository.freeIndexes))
    {
      var found;
      found, r := CompleteBatch(marketState, repository, batchId);
      label completed:
      if !found {
        replies := replies.(complete := CompleteBatchRunResponse.BATCH_RUN_NOT_FOUND_STATUS);
      } else if r == Done {
        replies := replies.(complete := CompleteBatchRunResponse.SUCCESS_STATUS);
      }
      repository.Framed@completed();
    }

    /**
      `onCancelBatchRun`: the run the id maps to, if any, is removed, and the
      answer is SUCCESS either way.
    */
    method OnCancelBatchRun(batchId: int64)
      requires Valid()
      modifies this, repository, repository.Repr
      ensures Valid() && Market() == old(Market())
      ensures repository.ids == old(repository.ids) && repository.times == old(repository.times)
      ensures CancelServed(old(replies), old(repository.Bookkeeping()), batchId, replies, repository.Bookkeeping())
    {
      var found := CancelBatch(repository, batchId);
      PartsOnly();
      label cancelled:
      replies := replies.(cancel := CancelBatchRunResponse.SUCCESS_STATUS);
      RepliesOnly@cancelled();
    }

    /**
      `cleanUpCycle`: the one-argument `removeOutdated` with the eviction
      timeout, at `now`; the replies and the market state are kept.
    */
    method CleanUpCycle(now: int64)
      requires Valid()
      modifies repository, repository.Repr
      ensures Valid() && Market() == old(Market()) && repository.ids == old(repository.ids) && repository.times == old(repository.times)
      ensures replies == old(replies) && Scratch() == old(Scratch()) && operational.included == old(operational.included)
      ensures Evicted(old(repository.Bookkeeping()), repository.Bookkeeping(), repository.ids, repository.times, now)
    {
      var removed := repository.RemoveOutdatedOne(BATCH_EVICTION_TIMEOUT as int64, now);
      PartsOnly();
    }

    /**
      The dispatch half of `handleRequest`: the request of type `messageType`
      (its views read as `request`) goes to its operation, `nextId` being
      what the id generator would give and `now` the clock; an unsupported
      type throws IllegalArgumentException. `st` is how the operation ended
      and `staged` the bytes of the run an uploaded chunk went to.
    */
    method Serve(messageType: int32, request: Request, nextId: int64, now: int64) returns (st: Status, ghost staged: seq<byte>)
      requires Valid()
      modifies this, repository, repository.Repr, repository.buffers, marketState.view.writeBuffer, marketState.priceRecord
      modifies operational, operational.block.view.writeBuffer, operational.block.priceRecord
      ensures Valid()
      ensures !Supported(messageType as int) ==> st == Thrown(IllegalArgument)
      ensures messageType as int != COMPLETE_BATCH_REQUEST_MESSAGE_TYPE ==> Market() == old(Market())
      ensures !Supported(messageType as int) ==>
        replies == old(replies) && repository.Bookkeeping() == old(repository.Bookkeeping()) && repository.times == old(repository.times)
      ensures messageType as int == LAST_PRICE_REQUEST_MESSAGE_TYPE ==>
        && repository.Bookkeeping() == old(repository.Bookkeeping()) && repository.times == old(repository.times)
        && (replies.lastPrice, st) == LastPrice(indexer, old(Market()), 0, request.instrument, old(replies.lastPrice))
        && replies == old(replies).(lastPrice := replies.lastPrice)
      ensures messageType as int == START_BATCH_REQUEST_MESSAGE_TYPE ==>
        StartServed(old(replies), old(repository.Bookkeeping()), old(repository.times), nextId, now,
                    st, replies, repository.Bookkeeping(), repository.times)
      ensures messageType as int == CANCEL_BATCH_REQUEST_MESSAGE_TYPE ==>
        && st == Done && repository.times == old(repository.times)
        && CancelServed(old(replies), old(repository.Bookkeeping()), request.batchId, replies, repository.Bookkeeping())
      ensures messageType as int == UPLOAD_CHUNK_REQUEST_MESSAGE_TYPE ==>
        UploadServed(indexer, old(replies), old(repository.Bookkeeping()), old(repository.times), old(Scratch()),
                     old(repository.RunOf(request.batchId)), request.batchId, request.records, now, repository.recordsNumber,
                     st, replies, repository.Bookkeeping(), repository.times, Scratch(), operational.included, staged,
                     old(repository.IncludedOf(request.batchId)), repository.IncludedOf(request.batchId))
      ensures messageType as int == COMPLETE_BATCH_REQUEST_MESSAGE_TYPE ==>
        && repository.times == old(repository.times)
        && CompleteServed(old(replies), old(repository.Bookkeeping()), old(Market()), marketState.recordsNumber,
                          old(repository.RunOf(request.batchId)), repository.recordsNumber,
                          old(repository.IncludedOf(request.batchId)), request.batchId, st, replies,
                          repository.Bookkeeping(), Market())
    {
      st, staged := Done, [];
      if messageType as int == LAST_PRICE_REQUEST_MESSAGE_TYPE {
        st := OnLastPrice(request.instrument);
      } else if messageType as int == START_BATCH_REQUEST_MESSAGE_TYPE {
        st := OnStartBatchRun(nextId, now);
      } else if messageType as int == CANCEL_BATCH_REQUEST_MESSAGE_TYPE {
        OnCancelBatchRun(request.batchId);
      } else if messageType as int == UPLOAD_CHUNK_REQUEST_MESSAGE_TYPE {
        st := OnUploadChunk(request.batchId, request.records, now);
        staged := repository.RunOf(request.batchId);
      } else if messageType as int == COMPLETE_BATCH_REQUEST_MESSAGE_TYPE {
        st := OnCompleteBatch(request.batchId);
      } else {
        st := Thrown(IllegalArgument);
      }
    }

    /**
      `handleRequest`: the request is served as `Serve` says and answers with
      its response type, or with the exception that ended it; whatever
      happens, a clean-up cycle follows. `served` is the repository's
      bookkeeping as the operation left it, from which the cycle evicts at
      most one outdated run, and `runIncluded` the included set of the
      request's run as the operation left it.
    */
    method HandleRequest(messageType: int32, request: Request, nextId: int64, now: int64)
      returns (r: Result<int32>, st: Status, ghost served: Ledger, ghost staged: seq<byte>, ghost runIncluded: set<int>)
      requires Valid()
      modifies this, repository, repository.Repr, repository.buffers, marketState.view.writeBuffer, marketState.priceRecord
      modifies operational, operational.block.view.writeBuffer, operational.block.priceRecord
      ensures Valid()
      ensures r.Ok? ==> Supported(messageType as int) && r.value == ResponseType(messageType as int)
      ensures r == (if Supported(messageType as int) then Answer(messageType as int, st) else Err(IllegalArgument))
      ensures Evicted(served, repository.Bookkeeping(), repository.ids, repository.times, now)
      ensures messageType as int != COMPLETE_BATCH_REQUEST_MESSAGE_TYPE ==> Market() == old(Market())
      ensures !Supported(messageType as int) ==>
        replies == old(replies) && served == old(repository.Bookkeeping()) && repository.times == old(repository.times)
      ensures messageType as int == LAST_PRICE_REQUEST_MESSAGE_TYPE ==>
        && served == old(repository.Bookkeeping()) && repository.times == old(repository.times)
        && (replies.lastPrice, st) == LastPrice(indexer, old(Market()), 0, request.instrument, old(replies.lastPrice))
        && replies == old(replies).(lastPrice := replies.lastPrice)
      ensures messageType as int == START_BATCH_REQUEST_MESSAGE_TYPE ==>
        StartServed(old(replies), old(repository.Bookkeeping()), old(repository.times), nextId, now,
                    st, replies, served, repository.times)
      ensures messageType as int == CANCEL_BATCH_REQUEST_MESSAGE_TYPE ==>
        && st == Done && repository.times == old(repository.times)
        && CancelServed(old(replies), old(repository.Bookkeeping()), request.batchId, replies, served)
      ensures messageType as int == UPLOAD_CHUNK_REQUEST_MESSAGE_TYPE ==>
        UploadServed(indexer, old(replies), old(repository.Bookkeeping()), old(repository.times), old(Scratch()),
                     old(repository.RunOf(request.batchId)), request.batchId, request.records, now, repository.recordsNumber,
                     st, replies, served, repository.times, Scratch(), operational.included, staged,
                     old(repository.IncludedOf(request.batchId)), runIncluded)
      ensures messageType as int == COMPLETE_BATCH_REQUEST_MESSAGE_TYPE ==>
        && repository.times == old(repository.times)
        && CompleteServed(old(replies), old(repository.Bookkeeping()), old(Market()), marketState.recordsNumber,
                          old(repository.RunOf(request.batchId)), repository.recordsNumber,
                          old(repository.IncludedOf(request.batchId)), request.batchId, st, replies, served, Market())
    {
      st, staged := Serve(messageType, request, nextId, now);
      r := if Supported(messageType as int) then Answer(messageType as int, st) else Err(IllegalArgument);
      served, runIncluded := repository.Bookkeeping(), repository.IncludedOf(request.batchId);
      CleanUpCycle(now);
    }
  }
}
