/**
  The request that uploads a chunk of price records into a batch run: the
  batch id right after the message header, then the chunk itself (its
  record count and its records). One chunk view, passed in as `chunk`, is
  moved over the request's buffer for reading or for writing.
*/
module UploadChunkRequest {
  import opened Bytes
  import opened Errors
  import opened Flyweight
  import opened Message
  import opened MessageTypes
  import opened Configuration
  import PriceRecord
  import PriceRecordsChunk

  const BATCH_ID_FIELD_OFFSET: nat := MESSAGE_HEADER_LENGTH
  const REQUEST_HEADER_LENGTH: nat := BATCH_ID_FIELD_OFFSET + SIZE_OF_LONG

  /** Where the chunk's record count sits in the request. */
  const CHUNK_COUNT_OFFSET: nat := REQUEST_HEADER_LENGTH + PriceRecordsChunk.RECORDS_NUMBER_FIELD_OFFSET

  /** The largest request: a full chunk after the request header. */
  function MaxSize(): (r: nat)
    ensures r == REQUEST_HEADER_LENGTH + PriceRecordsChunk.DefineSize(MAX_CHUNK_SIZE)
  {
    REQUEST_HEADER_LENGTH + PriceRecordsChunk.CHUNK_HEADER_SIZE + MAX_CHUNK_SIZE * PriceRecord.SIZE_IN_BYTES
  }

  /** `sizeInBytes` as the source computes it: the chunk's count header is left out. */
  function SizeAsWritten(recordsNumber: int): int
  {
    REQUEST_HEADER_LENGTH + recordsNumber * PriceRecord.SIZE_IN_BYTES
  }

  /** The bytes a request with `recordsNumber` records takes: the request header and the whole chunk. */
  function Size(recordsNumber: int): int
  {
    REQUEST_HEADER_LENGTH + PriceRecordsChunk.DefineSize(recordsNumber)
  }

  /** The last of `recordsNumber` records lies inside the first `size` bytes of the request. */
  predicate LastRecordSent(recordsNumber: int, size: int)
  {
    REQUEST_HEADER_LENGTH + PriceRecordsChunk.DefineSize(recordsNumber - 1) + PriceRecord.SIZE_IN_BYTES <= size
  }

  /**
    The size as written is four bytes short of the chunk it claims to send:
    the sent bytes stop four bytes into the last record's payload, so the
    last record never arrives whole; an empty chunk loses its count.
  */
  lemma SizeAsWrittenCutsLastRecord(recordsNumber: int)
    requires 1 <= recordsNumber <= MAX_CHUNK_SIZE
    ensures SizeAsWritten(recordsNumber) == Size(recordsNumber) - PriceRecordsChunk.CHUNK_HEADER_SIZE
    ensures !LastRecordSent(recordsNumber, SizeAsWritten(recordsNumber))
    ensures SizeAsWritten(recordsNumber) == REQUEST_HEADER_LENGTH + PriceRecordsChunk.DefineSize(recordsNumber - 1)
              + PriceRecord.PAYLOAD_FIELD_OFFSET + PRICE_MAX_PAYLOAD_SIZE - PriceRecordsChunk.CHUNK_HEADER_SIZE
    ensures SizeAsWritten(0) < REQUEST_HEADER_LENGTH + PriceRecordsChunk.CHUNK_HEADER_SIZE
  {
    PriceRecordsChunk.RecordsAdjacent(recordsNumber - 1);
  }

  /** The corrected size sends every record and never exceeds the largest request. */
  lemma SizeCoversChunk(recordsNumber: int)
    requires 0 <= recordsNumber <= MAX_CHUNK_SIZE
    ensures recordsNumber >= 1 ==> LastRecordSent(recordsNumber, Size(recordsNumber))
    ensures REQUEST_HEADER_LENGTH + PriceRecordsChunk.CHUNK_HEADER_SIZE <= Size(recordsNumber) <= MaxSize()
    ensures recordsNumber == MAX_CHUNK_SIZE ==> Size(recordsNumber) == MaxSize()
  {
    PriceRecordsChunk.RecordsAdjacent(recordsNumber - 1);
  }

  /** The request's buffer has room for the largest request. */
  predicate Writable(m: Flyweight)
    reads m
  {
    CanWrite(m, 0, MaxSize())
  }

  predicate Readable(m: Flyweight)
    reads m
  {
    CanRead(m, 0, REQUEST_HEADER_LENGTH + PriceRecordsChunk.CHUNK_HEADER_SIZE)
  }

  function BatchId(m: Flyweight): int64
    reads m, m.readBuffer
    requires Readable(m)
  {
    ReadLong(m, BATCH_ID_FIELD_OFFSET)
  }

  function ChunkRecordsNumber(m: Flyweight): int32
    reads m, m.readBuffer
    requires Readable(m)
  {
    ReadInt(m, CHUNK_COUNT_OFFSET)
  }

  /** The batch id reads back; the header and the chunk's count stay as they were. */
  method SetBatchId(m: Flyweight, batchId: int64)
    requires Writable(m)
    modifies m.writeBuffer
    ensures m.writeBuffer[..] == Splice(old(m.writeBuffer[..]), m.offset + BATCH_ID_FIELD_OFFSET, EncodeLong(batchId))
    ensures BatchId(m) == batchId && HeaderOf(m) == old(HeaderOf(m))
    ensures ChunkRecordsNumber(m) == old(ChunkRecordsNumber(m))
  {
    GetIntElsewhere(m.writeBuffer[..], m.offset + BATCH_ID_FIELD_OFFSET, EncodeLong(batchId), m.offset + CHUNK_COUNT_OFFSET);
    SetLongField(m, BATCH_ID_FIELD_OFFSET, batchId);
  }

  /** `getChunkToRead`: the chunk view, bound for reading right after the request header. */
  method GetChunkToRead(m: Flyweight, chunk: Flyweight)
    requires m.readBuffer != null && chunk != m
    modifies chunk
    ensures chunk.readBuffer == m.readBuffer && chunk.writeBuffer == null
    ensures chunk.offset == m.offset + REQUEST_HEADER_LENGTH
    ensures Readable(m) ==> PriceRecordsChunk.RecordsNumber(chunk) == ChunkRecordsNumber(m)
  {
    chunk.WrapForRead(m.readBuffer, m.offset + REQUEST_HEADER_LENGTH);
  }

  /** `getChunk`: the same view bound for writing; it has room for a full chunk. */
  method GetChunk(m: Flyweight, chunk: Flyweight)
    requires Writable(m) && chunk != m
    modifies chunk
    ensures chunk.readBuffer == m.writeBuffer && chunk.writeBuffer == m.writeBuffer
    ensures chunk.offset == m.offset + REQUEST_HEADER_LENGTH
    ensures CanWrite(chunk, 0, PriceRecordsChunk.DefineSize(MAX_CHUNK_SIZE))
    ensures 0 <= ChunkRecordsNumber(m) <= MAX_CHUNK_SIZE as int ==> PriceRecordsChunk.Valid(chunk)
  {
    chunk.WrapForWrite(m.writeBuffer, m.offset + REQUEST_HEADER_LENGTH);
  }

  /**
    `putChunk`: copies the chunk's `sizeInBytes` bytes (its count and its
    records) right after the request header. The copy fails out of bounds
    when the chunk's bytes run past its own buffer; otherwise the request's
    chunk is byte for byte the source chunk and nothing else is written
    (`ChunkCopied` says what that keeps).
  */
  method PutChunk(m: Flyweight, chunk: Flyweight) returns (r: Status)
    requires Writable(m) && CanRead(chunk, 0, SIZE_OF_INT)
    requires 0 <= PriceRecordsChunk.RecordsNumber(chunk) <= MAX_CHUNK_SIZE as int
    modifies m.writeBuffer
    ensures r == Done <==> CanRead(chunk, 0, old(PriceRecordsChunk.SizeInBytes(chunk)))
    ensures r != Done ==> r == Thrown(IndexOutOfBounds) && m.writeBuffer[..] == old(m.writeBuffer[..])
    ensures r == Done ==> m.writeBuffer[..] == Splice(old(m.writeBuffer[..]), m.offset + REQUEST_HEADER_LENGTH,
      old(ReadBytes(chunk, 0, PriceRecordsChunk.SizeInBytes(chunk))))
    ensures r == Done ==> ReadBytes(m, REQUEST_HEADER_LENGTH, old(PriceRecordsChunk.SizeInBytes(chunk)))
                          == old(ReadBytes(chunk, 0, PriceRecordsChunk.SizeInBytes(chunk)))
  {
    var size := PriceRecordsChunk.SizeInBytes(chunk);
    if chunk.offset + size > chunk.readBuffer.Length {
      return Thrown(IndexOutOfBounds);
    }
    var bytes := ReadBytes(chunk, 0, size);
    assert bytes[..SIZE_OF_INT] == chunk.readBuffer[chunk.offset..chunk.offset + SIZE_OF_INT];
    ghost var s0 := m.writeBuffer[..];
    WriteBytes(m, REQUEST_HEADER_LENGTH, bytes);
    CopiedChunkReads(m, s0, bytes);
    r := Done;
  }

  /** The request's chunk bytes read back after they were copied in over `s0`. */
  lemma CopiedChunkReads(m: Flyweight, s0: seq<byte>, bytes: seq<byte>)
    requires Writable(m) && m.offset + REQUEST_HEADER_LENGTH + |bytes| <= |s0|
    requires m.writeBuffer[..] == Splice(s0, m.offset + REQUEST_HEADER_LENGTH, bytes)
    ensures CanRead(m, REQUEST_HEADER_LENGTH, |bytes|) && ReadBytes(m, REQUEST_HEADER_LENGTH, |bytes|) == bytes
  {
    SpliceAt(s0, m.offset + REQUEST_HEADER_LENGTH, bytes);
  }

  /** Copying a chunk after the request header keeps the header and batch id and carries the count over. */
  lemma ChunkCopied(s: seq<byte>, base: int, bytes: seq<byte>)
    requires 0 <= base && base + REQUEST_HEADER_LENGTH + |bytes| <= |s| && SIZE_OF_INT <= |bytes|
    ensures HeaderAt(Splice(s, base + REQUEST_HEADER_LENGTH, bytes), base) == HeaderAt(s, base)
    ensures GetLong(Splice(s, base + REQUEST_HEADER_LENGTH, bytes), base + BATCH_ID_FIELD_OFFSET)
            == GetLong(s, base + BATCH_ID_FIELD_OFFSET)
    ensures GetInt(Splice(s, base + REQUEST_HEADER_LENGTH, bytes), base + CHUNK_COUNT_OFFSET) == DecodeInt(bytes[..SIZE_OF_INT])
  {
    var pos := base + REQUEST_HEADER_LENGTH;
    var t := Splice(s, pos, bytes);
    SpliceAt(s, pos, bytes);
    assert t[pos..pos + SIZE_OF_INT] == bytes[..SIZE_OF_INT];
    HeaderAfterBodyWrite(s, base, pos, bytes);
    GetLongElsewhere(s, pos, bytes, base + BATCH_ID_FIELD_OFFSET);
  }

  /**
    `sizeInBytes` as the source has it: rebinds the chunk view and counts
    only the records after the request header.
  */
  method SizeInBytesAsWritten(m: Flyweight, chunk: Flyweight) returns (size: int)
    requires Readable(m) && chunk != m
    modifies chunk
    ensures size == SizeAsWritten(ChunkRecordsNumber(m))
    ensures chunk.readBuffer == m.readBuffer && chunk.writeBuffer == null && chunk.offset == m.offset + REQUEST_HEADER_LENGTH
  {
    GetChunkToRead(m, chunk);
    size := REQUEST_HEADER_LENGTH + PriceRecordsChunk.RecordsNumber(chunk) * PriceRecord.SIZE_IN_BYTES;
  }

  /** `sizeInBytes` counting the whole chunk: the request header and the chunk's own size. */
  method SizeInBytes(m: Flyweight, chunk: Flyweight) returns (size: int)
    requires Readable(m) && chunk != m
    modifies chunk
    ensures size == Size(ChunkRecordsNumber(m))
    ensures chunk.readBuffer == m.readBuffer && chunk.writeBuffer == null && chunk.offset == m.offset + REQUEST_HEADER_LENGTH
  {
    GetChunkToRead(m, chunk);
    size := REQUEST_HEADER_LENGTH + PriceRecordsChunk.SizeInBytes(chunk);
  }

  function UniqueType(): int32 { UPLOAD_CHUNK_REQUEST_MESSAGE_TYPE }
}
