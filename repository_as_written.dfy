/**
  The repository's id bookkeeping with the batch run header as the source
  lays it out (an 8-byte id at 0 and the last-update time 4 bytes later).
  `create` stores the id and then the clock reading in the run's header, and
  `remove` unmaps whatever id the header then holds, so a clock reading
  whose low half is not the id's high half leaves the removed batch mapped
  and `size` where it was. The repository the rest of the model uses keeps
  the two header fields apart.
*/
module RepositoryAsWritten {
  import opened Bytes
  import opened Errors
  import opened BatchRun

  /** The id map, the free-index queue and each pool slot's header bytes. */
  datatype Books = Books(idToIndex: map<int64, int>, freeIndexes: seq<int>, headers: seq<seq<byte>>)

  /** Every header has the source's width and every free index names a slot. */
  predicate Valid(b: Books)
  {
    && (forall k | 0 <= k < |b.headers| :: |b.headers[k]| == AS_WRITTEN_BATCH_RUN_HEADER_SIZE)
    && (forall j | 0 <= j < |b.freeIndexes| :: 0 <= b.freeIndexes[j] < |b.headers|)
  }

  /** The header bytes after `id(id)` and then `lastUpdateTimestamp(now)`. */
  function CreatedHeader(h: seq<byte>, id: int64, now: int64): (r: seq<byte>)
    requires |h| == AS_WRITTEN_BATCH_RUN_HEADER_SIZE
    ensures |r| == |h|
    ensures GetLong(r, AS_WRITTEN_LAST_UPDATE_TIMESTAMP_FIELD_OFFSET) == now
  {
    var r := Splice(Splice(h, AS_WRITTEN_ID_FIELD_OFFSET, EncodeLong(id)), AS_WRITTEN_LAST_UPDATE_TIMESTAMP_FIELD_OFFSET, EncodeLong(now));
    GetPutLong(Splice(h, AS_WRITTEN_ID_FIELD_OFFSET, EncodeLong(id)), AS_WRITTEN_LAST_UPDATE_TIMESTAMP_FIELD_OFFSET, now);
    r
  }

  /** `id()`: the 8 bytes at the id's offset. */
  function StoredId(h: seq<byte>): int64
    requires |h| == AS_WRITTEN_BATCH_RUN_HEADER_SIZE
  {
    GetLong(h, AS_WRITTEN_ID_FIELD_OFFSET)
  }

  /** `size`: the number of mapped ids. */
  function Size(b: Books): nat
  {
    |b.idToIndex|
  }

  /**
    `create(id)` at clock reading `now`: IndexOutOfBoundsException with no
    free slot; otherwise the oldest free slot is taken, its header written
    and the id mapped to it.
  */
  function Create(b: Books, id: int64, now: int64): (r: Result<(Books, int)>)
    requires Valid(b)
    ensures r.Err? <==> b.freeIndexes == []
    ensures r.Err? ==> r.error == IndexOutOfBounds
    ensures r.Ok? ==>
      && Valid(r.value.0) && r.value.1 == b.freeIndexes[0] && |r.value.0.headers| == |b.headers|
      && r.value.0.idToIndex == b.idToIndex[id := r.value.1] && r.value.0.freeIndexes == b.freeIndexes[1..]
      && GetLong(r.value.0.headers[r.value.1], AS_WRITTEN_LAST_UPDATE_TIMESTAMP_FIELD_OFFSET) == now
  {
    if b.freeIndexes == [] then Err(IndexOutOfBounds)
    else
      var k := b.freeIndexes[0];
      Ok((Books(b.idToIndex[id := k], b.freeIndexes[1..], b.headers[k := CreatedHeader(b.headers[k], id, now)]), k))
  }

  /** `remove` of the run in slot `k`: the slot is re-queued and the id its header now reads is unmapped. */
  function Remove(b: Books, k: int): (r: Books)
    requires Valid(b) && 0 <= k < |b.headers|
    ensures Valid(r) && r.headers == b.headers && r.freeIndexes == b.freeIndexes + [k]
    ensures forall id :: id in r.idToIndex <==> id in b.idToIndex && id != StoredId(b.headers[k])
  {
    Books(b.idToIndex - {StoredId(b.headers[k])}, b.freeIndexes + [k], b.headers)
  }

  /**
    When the id a header reads back is not mapped, `remove` leaves the map,
    and with it `size`, exactly as it was, though the slot is freed.
  */
  lemma RemoveMissesClobberedId(b: Books, k: int)
    requires Valid(b) && 0 <= k < |b.headers| && StoredId(b.headers[k]) !in b.idToIndex
    ensures Remove(b, k).idToIndex == b.idToIndex && Size(Remove(b, k)) == Size(b)
    ensures k in Remove(b, k).freeIndexes
  {
    assert Remove(b, k).idToIndex.Keys == b.idToIndex.Keys;
  }

  /**
    Creating batch 1 at clock reading 1 and removing it again leaves batch 1
    mapped to a slot that is back in the free queue, and `size` at 1: the
    header then reads the id 2^32 + 1.
  */
  lemma StaleMappingAfterRemove()
    ensures var b0 := Books(map[], [0], [seq(AS_WRITTEN_BATCH_RUN_HEADER_SIZE, _ => 0)]);
            var created := Create(b0, 1, 1);
            && created.Ok? && created.value.1 == 0
            && var b2 := Remove(created.value.0, 0);
            && 1 in b2.idToIndex && b2.idToIndex[1] == 0 && 0 in b2.freeIndexes
            && Size(b2) == Size(created.value.0) == 1
  {
    var b0 := Books(map[], [0], [seq(AS_WRITTEN_BATCH_RUN_HEADER_SIZE, _ => 0)]);
    var b1 := Create(b0, 1, 1).value.0;
    assert b1.headers[0] == CreatedHeader(seq(AS_WRITTEN_BATCH_RUN_HEADER_SIZE, _ => 0), 1, 1);
    IdClobberedAsWritten();
    assert StoredId(b1.headers[0]) == 0x1_0000_0001;
    assert b1.idToIndex == map[1 := 0];
    RemoveMissesClobberedId(b1, 0);
  }
}
