/**
  A batch run: a records block whose header holds the batch id and the time
  of its last update, plus the set of record indexes updated since the last
  reset. Merging a batch run into another block re-applies each included
  record to it through that block's newer-or-equal update.
*/
module BatchRun {
  import opened Bytes
  import opened Errors
  import opened Flyweight
  import opened IndexedPriceRecord
  import opened RecordsBlock
  import opened Configuration

  /** The header as the source lays it out: an 8-byte id at 0 but the last-update time only 4 bytes later. */
  const AS_WRITTEN_ID_FIELD_OFFSET: nat := 0
  const AS_WRITTEN_LAST_UPDATE_TIMESTAMP_FIELD_OFFSET: nat := AS_WRITTEN_ID_FIELD_OFFSET + SIZE_OF_INT
  const AS_WRITTEN_BATCH_RUN_HEADER_SIZE: nat := AS_WRITTEN_LAST_UPDATE_TIMESTAMP_FIELD_OFFSET + SIZE_OF_LONG

  /** The header with each field as wide as the `long` it holds. */
  const ID_FIELD_OFFSET: nat := 0
  const LAST_UPDATE_TIMESTAMP_FIELD_OFFSET: nat := ID_FIELD_OFFSET + SIZE_OF_LONG
  const BATCH_RUN_HEADER_SIZE: nat := LAST_UPDATE_TIMESTAMP_FIELD_OFFSET + SIZE_OF_LONG

  /**
    With the source's offsets, storing the id 1 and then the last-update
    time 1 makes the id read back as 2^32 + 1: the time's low half lands on
    the id's high half.
  */
  lemma IdClobberedAsWritten()
    ensures var s := Splice(Splice(seq(AS_WRITTEN_BATCH_RUN_HEADER_SIZE, _ => 0), AS_WRITTEN_ID_FIELD_OFFSET, EncodeLong(1)),
                            AS_WRITTEN_LAST_UPDATE_TIMESTAMP_FIELD_OFFSET, EncodeLong(1));
            GetLong(s, AS_WRITTEN_ID_FIELD_OFFSET) == 0x1_0000_0001 != 1
  {
    var one := EncodeLong(1);
    assert one == [1, 0, 0, 0, 0, 0, 0, 0];
    var s := Splice(Splice(seq(AS_WRITTEN_BATCH_RUN_HEADER_SIZE, _ => 0), AS_WRITTEN_ID_FIELD_OFFSET, one),
                    AS_WRITTEN_LAST_UPDATE_TIMESTAMP_FIELD_OFFSET, one);
    var b := s[..SIZE_OF_LONG];
    assert b == [1, 0, 0, 0, 1, 0, 0, 0];
    assert DecodeLE(b[7..]) == 0;
    assert DecodeLE(b[6..]) == 0;
    assert DecodeLE(b[5..]) == 0;
    assert DecodeLE(b[4..]) == 1;
    assert DecodeLE(b[3..]) == 0x100;
    assert DecodeLE(b[2..]) == 0x1_0000;
    assert DecodeLE(b[1..]) == 0x100_0000;
    assert DecodeLE(b) == 0x1_0000_0001;
    Pow256Widths();
  }

  /** With the corrected offsets the two header fields are apart: each reads back whatever is written after it. */
  lemma HeaderFieldsApart(s: seq<byte>, base: int, id: int64, time: int64)
    requires 0 <= base && base + BATCH_RUN_HEADER_SIZE <= |s|
    ensures GetLong(Splice(Splice(s, base + ID_FIELD_OFFSET, EncodeLong(id)), base + LAST_UPDATE_TIMESTAMP_FIELD_OFFSET, EncodeLong(time)),
                    base + ID_FIELD_OFFSET) == id
    ensures GetLong(Splice(Splice(s, base + LAST_UPDATE_TIMESTAMP_FIELD_OFFSET, EncodeLong(time)), base + ID_FIELD_OFFSET, EncodeLong(id)),
                    base + LAST_UPDATE_TIMESTAMP_FIELD_OFFSET) == time
  {
    var idPos, timePos := base + ID_FIELD_OFFSET, base + LAST_UPDATE_TIMESTAMP_FIELD_OFFSET;
    GetPutLong(s, idPos, id);
    GetLongElsewhere(Splice(s, idPos, EncodeLong(id)), timePos, EncodeLong(time), idPos);
    GetPutLong(s, timePos, time);
    GetLongElsewhere(Splice(s, timePos, EncodeLong(time)), idPos, EncodeLong(id), timePos);
  }

  /** `Objects.hash(index)`: 31 + index, wrapped to a Java `int`. */
  function HashOf(index: int32): (h: int32)
    ensures -0x8000_0000 < index + 31 < 0x8000_0000 ==> h == index + 31
  {
    var v := (31 + index) % TWO_32;
    if v >= 0x8000_0000 then v - TWO_32 else v
  }

  /**
    Merging record `j` of a source block (records at `sb` of `src`) into a
    target block with `tn` records at `tb` of `t`: an index the target does
    not have throws IndexOutOfBoundsException and changes nothing; otherwise
    the target's update is applied with the source record's timestamp,
    payload size and payload bytes.
  */
  function MergeStep(t: seq<byte>, tb: int, tn: nat, src: seq<byte>, sb: int, j: int): (r: (seq<byte>, Status))
    requires 0 <= tb && SlotPos(tb, tn) <= |t|
    requires 0 <= sb && 0 <= j && SlotPos(sb, j) + MESSAGE_SIZE <= |src|
    ensures |r.0| == |t|
  {
    if j >= tn then (t, Thrown(IndexOutOfBounds))
    else
      var p := SlotPos(sb, j);
      UpdateBytes(t, SlotPos(tb, j), TimestampAt(src, p), src, p + PAYLOAD_FIELD_OFFSET, GetInt(src, p + PAYLOAD_SIZE_FIELD_OFFSET))
  }

  lemma MergeStepUnfold(t: seq<byte>, tb: int, tn: nat, src: seq<byte>, sb: int, j: int)
    requires 0 <= tb && SlotPos(tb, tn) <= |t|
    requires 0 <= sb && 0 <= j && SlotPos(sb, j) + MESSAGE_SIZE <= |src|
    ensures j >= tn ==> MergeStep(t, tb, tn, src, sb, j) == (t, Thrown(IndexOutOfBounds))
    ensures j < tn ==> MergeStep(t, tb, tn, src, sb, j) == UpdateBytes(t, SlotPos(tb, j), TimestampAt(src, SlotPos(sb, j)), src,
                                                                      SlotPos(sb, j) + PAYLOAD_FIELD_OFFSET, GetInt(src, SlotPos(sb, j) + PAYLOAD_SIZE_FIELD_OFFSET))
  {
  }

  /** The bounds a merge of a source with `sn` records at `sb` into a target with `tn` records at `tb` works within. */
  predicate MergeBounds(t0: seq<byte>, tb: int, tn: nat, src: seq<byte>, sb: int, sn: nat)
  {
    0 <= tb && SlotPos(tb, tn) <= |t0| && 0 <= sb && SlotPos(sb, sn) <= |src|
  }

  /** Every target record outside `done` is as it was in `t0`, and so are the header and the bytes past the records. */
  predicate Untouched(t0: seq<byte>, t: seq<byte>, tb: int, tn: nat, done: set<int>)
    requires 0 <= tb && SlotPos(tb, tn) <= |t0|
  {
    && |t| == |t0| && SameOutside(t0, t, tb, SlotPos(tb, tn))
    && forall j | 0 <= j < tn && j !in done :: RecordBytes(t, SlotPos(tb, j)) == RecordBytes(t0, SlotPos(tb, j))
  }

  /** Merging every source record in `done` into `t0` completes. */
  predicate AllComplete(t0: seq<byte>, tb: int, tn: nat, src: seq<byte>, sb: int, sn: nat, done: set<int>)
    requires MergeBounds(t0, tb, tn, src, sb, sn)
  {
    forall j | j in done :: 0 <= j < sn && MergeStep(t0, tb, tn, src, sb, j).1 == Done
  }

  /** Every target record in `done` holds what merging the source's record into its original bytes gives. */
  predicate MergedInto(t0: seq<byte>, t: seq<byte>, tb: int, tn: nat, src: seq<byte>, sb: int, sn: nat, done: set<int>)
    requires MergeBounds(t0, tb, tn, src, sb, sn) && |t| == |t0|
  {
    forall j | j in done :: 0 <= j < tn && 0 <= j < sn
      && RecordBytes(t, SlotPos(tb, j)) == RecordBytes(MergeStep(t0, tb, tn, src, sb, j).0, SlotPos(tb, j))
  }

  /** A write confined to record `j` leaves every other record, the header and the bytes past the records as they were. */
  lemma OtherRecordsKept(t: seq<byte>, u: seq<byte>, tb: int, tn: nat, j: int)
    requires 0 <= tb && SlotPos(tb, tn) <= |t| && 0 <= j < tn
    requires SameOutside(t, u, SlotPos(tb, j), SlotPos(tb, j) + MESSAGE_SIZE)
    ensures SameOutside(t, u, tb, SlotPos(tb, tn))
    ensures forall k | 0 <= k < tn && k != j :: RecordBytes(u, SlotPos(tb, k)) == RecordBytes(t, SlotPos(tb, k))
  {
    var p := SlotPos(tb, j);
    SameOutsideWiden(t, u, p, p + MESSAGE_SIZE, tb, SlotPos(tb, tn));
    forall k | 0 <= k < tn && k != j
      ensures RecordBytes(u, SlotPos(tb, k)) == RecordBytes(t, SlotPos(tb, k))
    {
      if k < j { SlotsApart(tb, k, j); } else { SlotsApart(tb, j, k); }
      SameOutsideSlice(t, u, p, p + MESSAGE_SIZE, SlotPos(tb, k), SlotPos(tb, k) + MESSAGE_SIZE);
    }
  }

  /**
    A merge step on bytes that still hold the original record behaves as on
    the original bytes: the same outcome and the same resulting record, and
    nothing outside that record changes.
  */
  lemma MergeStepOnRecord(t0: seq<byte>, t: seq<byte>, tb: int, tn: nat, src: seq<byte>, sb: int, sn: nat, j: int)
    requires MergeBounds(t0, tb, tn, src, sb, sn) && |t| == |t0| && 0 <= j < tn && 0 <= j < sn
    requires RecordBytes(t, SlotPos(tb, j)) == RecordBytes(t0, SlotPos(tb, j))
    ensures MergeStep(t, tb, tn, src, sb, j).1 == MergeStep(t0, tb, tn, src, sb, j).1
    ensures RecordBytes(MergeStep(t, tb, tn, src, sb, j).0, SlotPos(tb, j)) == RecordBytes(MergeStep(t0, tb, tn, src, sb, j).0, SlotPos(tb, j))
    ensures SameOutside(t, MergeStep(t, tb, tn, src, sb, j).0, SlotPos(tb, j), SlotPos(tb, j) + MESSAGE_SIZE)
  {
    var p, q := SlotPos(tb, j), SlotPos(sb, j);
    var ts, at, size := TimestampAt(src, q), q + PAYLOAD_FIELD_OFFSET, GetInt(src, q + PAYLOAD_SIZE_FIELD_OFFSET);
    MergeStepUnfold(t0, tb, tn, src, sb, j);
    MergeStepUnfold(t, tb, tn, src, sb, j);
    assert t0[p..p + MESSAGE_SIZE] == t[p..p + MESSAGE_SIZE];
    UpdateLocal(t0, t, p, ts, src, at, size);
    UpdateWithin(t, p, ts, src, at, size);
  }

  /**
    One merge step applied to the current target bytes behaves as it would
    on the original bytes, since its record has not been touched yet: the
    same outcome, only its own record changes, and once it completes that
    record joins the merged ones.
  */
  lemma MergeStepLocal(t0: seq<byte>, t: seq<byte>, tb: int, tn: nat, src: seq<byte>, sb: int, sn: nat, done: set<int>, j: int)
    requires MergeBounds(t0, tb, tn, src, sb, sn) && Untouched(t0, t, tb, tn, done)
    requires 0 <= j < sn && j !in done
    ensures MergeStep(t, tb, tn, src, sb, j).1 == MergeStep(t0, tb, tn, src, sb, j).1
    ensures Untouched(t0, MergeStep(t, tb, tn, src, sb, j).0, tb, tn, done + {j})
    ensures MergeStep(t, tb, tn, src, sb, j).1 == Done && MergedInto(t0, t, tb, tn, src, sb, sn, done)
            ==> MergedInto(t0, MergeStep(t, tb, tn, src, sb, j).0, tb, tn, src, sb, sn, done + {j})
  {
    if j < tn {
      var u := MergeStep(t, tb, tn, src, sb, j).0;
      MergeStepOnRecord(t0, t, tb, tn, src, sb, sn, j);
      OtherRecordsKept(t, u, tb, tn, j);
      SameOutsideTrans(t0, t, u, tb, SlotPos(tb, tn));
    }
  }

  /** Records untouched outside a set are untouched outside any larger set. */
  lemma UntouchedGrow(t0: seq<byte>, t: seq<byte>, tb: int, tn: nat, done: set<int>, more: set<int>)
    requires 0 <= tb && SlotPos(tb, tn) <= |t0| && Untouched(t0, t, tb, tn, done) && done <= more
    ensures Untouched(t0, t, tb, tn, more)
  {
  }

  /** One more completed merge step. */
  lemma AllCompleteStep(t0: seq<byte>, tb: int, tn: nat, src: seq<byte>, sb: int, sn: nat, done: set<int>, j: int)
    requires MergeBounds(t0, tb, tn, src, sb, sn) && AllComplete(t0, tb, tn, src, sb, sn, done)
    requires 0 <= j < sn && MergeStep(t0, tb, tn, src, sb, j).1 == Done
    ensures AllComplete(t0, tb, tn, src, sb, sn, done + {j})
  {
  }

  /** A step that throws keeps the whole merge from completing. */
  lemma NotAllComplete(t0: seq<byte>, tb: int, tn: nat, src: seq<byte>, sb: int, sn: nat, included: set<int>, j: int)
    requires MergeBounds(t0, tb, tn, src, sb, sn) && j in included
    requires 0 <= j < sn && MergeStep(t0, tb, tn, src, sb, j).1 != Done
    ensures !AllComplete(t0, tb, tn, src, sb, sn, included)
  {
  }

  /**
    What a merged record means: its timestamp is the newer of the two and
    never moves backwards, its index is kept, and it holds the source's
    payload when the source's timestamp won (ties included); otherwise the
    record is as it was.
  */
  lemma MergedRecord(t0: seq<byte>, t: seq<byte>, tb: int, tn: nat, src: seq<byte>, sb: int, sn: nat, done: set<int>, j: int)
    requires MergeBounds(t0, tb, tn, src, sb, sn) && |t| == |t0|
    requires MergedInto(t0, t, tb, tn, src, sb, sn, done) && AllComplete(t0, tb, tn, src, sb, sn, done) && j in done
    ensures 0 <= j < tn && 0 <= j < sn
    ensures TimestampAt(t, SlotPos(tb, j)) >= TimestampAt(t0, SlotPos(tb, j))
    ensures TimestampAt(t, SlotPos(tb, j)) >= TimestampAt(src, SlotPos(sb, j))
    ensures TimestampAt(t, SlotPos(tb, j)) == TimestampAt(t0, SlotPos(tb, j))
         || TimestampAt(t, SlotPos(tb, j)) == TimestampAt(src, SlotPos(sb, j))
    ensures IndexAt(t, SlotPos(tb, j)) == IndexAt(t0, SlotPos(tb, j))
    ensures TimestampAt(src, SlotPos(sb, j)) >= TimestampAt(t0, SlotPos(tb, j)) ==>
              PayloadAt(src, SlotPos(sb, j)).Ok? && PayloadAt(t, SlotPos(tb, j)) == PayloadAt(src, SlotPos(sb, j))
    ensures TimestampAt(src, SlotPos(sb, j)) < TimestampAt(t0, SlotPos(tb, j)) ==>
              RecordBytes(t, SlotPos(tb, j)) == RecordBytes(t0, SlotPos(tb, j))
  {
    var p, q := SlotPos(tb, j), SlotPos(sb, j);
    assert RecordBytes(t, p) == RecordBytes(MergeStep(t0, tb, tn, src, sb, j).0, p);
    MergeStepUnfold(t0, tb, tn, src, sb, j);
    UpdatedRecord(t0, t, p, src, q);
  }

  /** The record at `p` of `t` is the record at `p` of `t0` after a successful update from the record at `q` of `src`. */
  lemma UpdatedRecord(t0: seq<byte>, t: seq<byte>, p: int, src: seq<byte>, q: int)
    requires InBounds(t0, p) && |t| == |t0| && InBounds(src, q)
    requires var u := UpdateBytes(t0, p, TimestampAt(src, q), src, q + PAYLOAD_FIELD_OFFSET, GetInt(src, q + PAYLOAD_SIZE_FIELD_OFFSET));
      u.1 == Done && RecordBytes(t, p) == RecordBytes(u.0, p)
    ensures TimestampAt(t, p) >= TimestampAt(t0, p) && TimestampAt(t, p) >= TimestampAt(src, q)
    ensures TimestampAt(t, p) == TimestampAt(t0, p) || TimestampAt(t, p) == TimestampAt(src, q)
    ensures IndexAt(t, p) == IndexAt(t0, p)
    ensures TimestampAt(src, q) >= TimestampAt(t0, p) ==> PayloadAt(src, q).Ok? && PayloadAt(t, p) == PayloadAt(src, q)
    ensures TimestampAt(src, q) < TimestampAt(t0, p) ==> RecordBytes(t, p) == RecordBytes(t0, p)
  {
    var ts, at, size := TimestampAt(src, q), q + PAYLOAD_FIELD_OFFSET, GetInt(src, q + PAYLOAD_SIZE_FIELD_OFFSET);
    var u := UpdateBytes(t0, p, ts, src, at, size).0;
    UpdateOutcome(t0, p, ts, src, at, size);
    SameRecord(u, t, p);
    if ts >= TimestampAt(t0, p) {
      UpdatePayload(t0, p, ts, src, at, size);
      PayloadOnRecord(u, t, p);
    }
  }

  /** A payload that fits its record's payload area reads the same from any buffer holding the same record. */
  lemma PayloadOnRecord(s: seq<byte>, t: seq<byte>, p: int)
    requires InBounds(s, p) && InBounds(t, p) && RecordBytes(s, p) == RecordBytes(t, p)
    requires PayloadAt(s, p).Ok? && |PayloadAt(s, p).value| <= PRICE_MAX_PAYLOAD_SIZE
    ensures PayloadAt(t, p) == PayloadAt(s, p)
  {
    var sizePos, at := p + PAYLOAD_SIZE_FIELD_OFFSET, p + PAYLOAD_FIELD_OFFSET;
    SliceInside(s, t, p, p + MESSAGE_SIZE, sizePos, sizePos + SIZE_OF_INT);
    SliceInside(s, t, p, p + MESSAGE_SIZE, at, at + GetInt(s, sizePos));
  }

  /** A set that is not empty has a member. */
  lemma Member<T>(s: set<T>) returns (x: T)
    requires s != {}
    ensures x in s
  {
    x :| x in s;
  }

  /** Moving a member from one part of a split set to the other keeps the split. */
  lemma MoveMember<T>(rest: set<T>, done: set<T>, all: set<T>, x: T)
    requires rest !! done && rest + done == all && x in rest
    ensures (rest - {x}) !! (done + {x}) && (rest - {x}) + (done + {x}) == all
  {
  }

  class BatchRun {
    /** The run's place in the repository's pool; equality and hashing go by it alone. */
    const index: int32
    const block: Block
    /** `includedRecordIndexes`: the records updated since the last reset. */
    var included: set<int>

    constructor (index: int32, recordsNumber: nat)
      ensures this.index == index && included == {} && Valid()
      ensures block.recordsNumber == recordsNumber && block.headerSize == BATCH_RUN_HEADER_SIZE
      ensures fresh(block) && fresh(block.view) && fresh(block.priceRecord)
      ensures block.view.readBuffer == null && block.view.writeBuffer == null
    {
      this.index := index;
      block := new Block(recordsNumber, BATCH_RUN_HEADER_SIZE);
      included := {};
    }

    /** The header has the run's layout and every included index names one of the run's records. */
    predicate Valid()
      reads this, block
    {
      && block.Valid() && block.headerSize == BATCH_RUN_HEADER_SIZE
      && forall i | i in included :: 0 <= i < block.recordsNumber
    }

    /** The run is bound to a buffer that holds all of it. */
    predicate Bound()
      reads this, block, block.view
    {
      Valid() && block.Bound()
    }

    function Id(): int64
      reads this, block, block.view, block.view.readBuffer
      requires Bound()
    {
      ReadLong(block.view, ID_FIELD_OFFSET)
    }

    function LastUpdateTimestamp(): int64
      reads this, block, block.view, block.view.readBuffer
      requires Bound()
    {
      ReadLong(block.view, LAST_UPDATE_TIMESTAMP_FIELD_OFFSET)
    }

    /** `id(long)`: the id reads back and the last-update time is kept. */
    method SetId(id: int64)
      requires Bound()
      modifies block.view.writeBuffer
      ensures block.view.writeBuffer[..] == Splice(old(block.view.writeBuffer[..]), block.view.offset + ID_FIELD_OFFSET, EncodeLong(id))
      ensures Id() == id && LastUpdateTimestamp() == old(LastUpdateTimestamp())
    {
      WriteLong(block.view, ID_FIELD_OFFSET, id);
      GetPutLong(old(block.view.writeBuffer[..]), block.view.offset + ID_FIELD_OFFSET, id);
      GetLongElsewhere(old(block.view.writeBuffer[..]), block.view.offset + ID_FIELD_OFFSET, EncodeLong(id),
        block.view.offset + LAST_UPDATE_TIMESTAMP_FIELD_OFFSET);
    }

    /** `lastUpdateTimestamp(long)`: the time reads back and the id is kept. */
    method SetLastUpdateTimestamp(time: int64)
      requires Bound()
      modifies block.view.writeBuffer
      ensures block.view.writeBuffer[..]
           == Splice(old(block.view.writeBuffer[..]), block.view.offset + LAST_UPDATE_TIMESTAMP_FIELD_OFFSET, EncodeLong(time))
      ensures LastUpdateTimestamp() == time && Id() == old(Id())
    {
      WriteLong(block.view, LAST_UPDATE_TIMESTAMP_FIELD_OFFSET, time);
      GetPutLong(old(block.view.writeBuffer[..]), block.view.offset + LAST_UPDATE_TIMESTAMP_FIELD_OFFSET, time);
      GetLongElsewhere(old(block.view.writeBuffer[..]), block.view.offset + LAST_UPDATE_TIMESTAMP_FIELD_OFFSET, EncodeLong(time),
        block.view.offset + ID_FIELD_OFFSET);
    }

    /**
      `tryUpdateRecord` as the source has it: the index is added to the
      included set before the block checks it, so an index the block throws
      on stays included and the run no longer satisfies `Valid`.
    */
    method TryUpdateRecordAsWritten(i: int, timestamp: int64, from: seq<byte>, fromOffset: int, size: int32) returns (r: Status)
      requires Bound()
      modifies this, block.view.writeBuffer, block.priceRecord
      ensures included == old(included) + {i}
      ensures !(0 <= i < block.recordsNumber) ==> r == Thrown(IndexOutOfBounds) && !Valid()
      ensures !(0 <= i < block.recordsNumber) ==> block.view.writeBuffer[..] == old(block.view.writeBuffer[..])
      ensures 0 <= i < block.recordsNumber ==>
        && Bound()
        && (block.view.writeBuffer[..], r) == UpdateBytes(old(block.view.writeBuffer[..]), block.Slot(i), timestamp, from, fromOffset, size)
    {
      included := included + {i};
      r := block.TryUpdateRecord(i, timestamp, from, fromOffset, size);
    }

    /**
      `tryUpdateRecord`: an index outside the block throws
      IndexOutOfBoundsException and changes nothing; otherwise it is included
      and its record updated by the block's newer-or-equal rule, whether or
      not the timestamp wins.
    */
    method TryUpdateRecord(i: int, timestamp: int64, from: seq<byte>, fromOffset: int, size: int32) returns (r: Status)
      requires Bound()
      modifies this, block.view.writeBuffer, block.priceRecord
      ensures Bound()
      ensures included == if 0 <= i < block.recordsNumber then old(included) + {i} else old(included)
      ensures !(0 <= i < block.recordsNumber) ==> r == Thrown(IndexOutOfBounds) && block.view.writeBuffer[..] == old(block.view.writeBuffer[..])
      ensures 0 <= i < block.recordsNumber ==>
        (block.view.writeBuffer[..], r) == UpdateBytes(old(block.view.writeBuffer[..]), block.Slot(i), timestamp, from, fromOffset, size)
    {
      if 0 <= i < block.recordsNumber {
        included := included + {i};
      }
      r := block.TryUpdateRecord(i, timestamp, from, fromOffset, size);
    }

    /** `reset`: no record is included any more and every record's timestamp is zeroed; the header is kept. */
    method Reset()
      requires Bound()
      modifies this, block.view.writeBuffer, block.priceRecord
      ensures Bound() && included == {}
      ensures block.view.writeBuffer[..] == ResetBytes(old(block.view.writeBuffer[..]), block.RecordsBase(), block.recordsNumber)
      ensures Id() == old(Id()) && LastUpdateTimestamp() == old(LastUpdateTimestamp())
    {
      ghost var s0, base := block.view.writeBuffer[..], block.RecordsBase();
      included := {};
      block.Reset();
      PrefixInside(block.recordsNumber, block.recordsNumber);
      ResetWithin(s0, base, block.recordsNumber);
      ghost var at := block.view.offset;
      SameOutsideSlice(s0, block.view.writeBuffer[..], base, SlotPos(base, block.recordsNumber), at, at + SIZE_OF_LONG);
      SameOutsideSlice(s0, block.view.writeBuffer[..], base, SlotPos(base, block.recordsNumber), at + SIZE_OF_LONG, base);
    }

    /**
      `RecordsUpdater.accept` for record `j`: the record view moves to it and
      its timestamp, payload size and payload bytes go to the target's
      `tryUpdateRecord`.
    */
    method MergeRecord(target: Block, j: int) returns (r: Status)
      requires Bound() && target.Bound() && 0 <= j < block.recordsNumber
      requires target.view.writeBuffer != block.view.writeBuffer
      requires target.priceRecord != block.priceRecord && target.priceRecord != block.view && target.view != block.priceRecord
      modifies target.view.writeBuffer, target.priceRecord, block.priceRecord
      ensures MergeBounds(old(target.view.writeBuffer[..]), target.RecordsBase(), target.recordsNumber,
                          block.view.writeBuffer[..], block.RecordsBase(), block.recordsNumber)
      ensures (target.view.writeBuffer[..], r) == MergeStep(old(target.view.writeBuffer[..]), target.RecordsBase(), target.recordsNumber,
                                                            block.view.writeBuffer[..], block.RecordsBase(), j)
    {
      PrefixInside(block.recordsNumber, block.recordsNumber);
      ghost var t, src, q := target.view.writeBuffer[..], block.view.writeBuffer[..], block.Slot(j);
      ghost var tb, tn, sb := target.RecordsBase(), target.recordsNumber, block.RecordsBase();
      MergeStepUnfold(t, tb, tn, src, sb, j);
      block.SelectRecord(j);
      var timestamp := IndexedPriceRecord.Timestamp(block.priceRecord);
      var payload := block.priceRecord.readBuffer;
      var at := AbsolutePayloadOffset(block.priceRecord);
      var size := IndexedPriceRecord.PayloadSize(block.priceRecord);
      assert payload[..] == src && at == q + PAYLOAD_FIELD_OFFSET;
      assert timestamp == TimestampAt(src, q) && size == GetInt(src, q + PAYLOAD_SIZE_FIELD_OFFSET);
      r := target.TryUpdateRecord(j, timestamp, payload[..], at, size);
      ghost var u := target.view.writeBuffer[..];
      assert q == SlotPos(sb, j);
      if j < tn {
        assert (u, r) == UpdateBytes(t, SlotPos(tb, j), timestamp, src, at, size);
      } else {
        assert (u, r) == (t, Thrown(IndexOutOfBounds));
      }
      assert (u, r) == MergeStep(t, tb, tn, src, sb, j);
      assert target.RecordsBase() == tb && block.RecordsBase() == sb && block.view.writeBuffer[..] == src;
    }

    /**
      `mergeTo`: each included record of this run is handed to the target's
      `tryUpdateRecord` with its timestamp, payload size and payload bytes,
      in no particular order. The target's records outside the included set,
      its header and the rest of its buffer are untouched; the merge
      completes exactly when every included record merges, and then each
      included target record holds its merge. The first record that throws
      stops the merge and its exception is the result. `handed` is the set
      of records handed to the target: all included ones when the merge
      completes, and otherwise those up to the one that threw.
    */
    method MergeTo(target: Block) returns (r: Status, handed: set<int>)
      requires Bound() && target.Bound()
      requires target.view.writeBuffer != block.view.writeBuffer
      requires target.priceRecord != block.priceRecord && target.priceRecord != block.view && target.view != block.priceRecord
      modifies target.view.writeBuffer, target.priceRecord, block.priceRecord
      ensures MergeBounds(old(target.view.writeBuffer[..]), target.RecordsBase(), target.recordsNumber,
                          block.view.writeBuffer[..], block.RecordsBase(), block.recordsNumber)
      ensures Untouched(old(target.view.writeBuffer[..]), target.view.writeBuffer[..], target.RecordsBase(), target.recordsNumber, included)
      ensures r == Done <==> AllComplete(old(target.view.writeBuffer[..]), target.RecordsBase(), target.recordsNumber,
                                         block.view.writeBuffer[..], block.RecordsBase(), block.recordsNumber, included)
      ensures r == Done ==> MergedInto(old(target.view.writeBuffer[..]), target.view.writeBuffer[..], target.RecordsBase(), target.recordsNumber,
                                       block.view.writeBuffer[..], block.RecordsBase(), block.recordsNumber, included)
      ensures r != Done ==> exists j | j in included :: 0 <= j < block.recordsNumber
                              && MergeStep(old(target.view.writeBuffer[..]), target.RecordsBase(), target.recordsNumber,
                                           block.view.writeBuffer[..], block.RecordsBase(), j).1 == r
      ensures handed <= included && (r == Done ==> handed == included)
    {
      ghost var buffer, t0, src := target.view.writeBuffer, target.view.writeBuffer[..], block.view.writeBuffer[..];
      ghost var tb, tn, sb, sn := target.RecordsBase(), target.recordsNumber, block.RecordsBase(), block.recordsNumber;
      PrefixInside(sn, sn);
      var rest := included;
      var done: set<int> := {};
      r := Done;
      while rest != {}
        invariant rest !! done && rest + done == included
        invariant target.view.writeBuffer == buffer && target.RecordsBase() == tb
        invariant block.view.writeBuffer[..] == src && block.RecordsBase() == sb
        invariant Untouched(t0, buffer[..], tb, tn, done)
        invariant AllComplete(t0, tb, tn, src, sb, sn, done)
        invariant MergedInto(t0, buffer[..], tb, tn, src, sb, sn, done)
        decreases |rest|
      {
        ghost var some := Member(rest);
        var idx :| idx in rest;
        ghost var t := buffer[..];
        var s := MergeRecord(target, idx);
        assert target.view.writeBuffer == buffer && target.RecordsBase() == tb;
        assert block.view.writeBuffer[..] == src && block.RecordsBase() == sb;
        ghost var u := buffer[..];
        assert (u, s) == MergeStep(t, tb, tn, src, sb, idx);
        MergeStepLocal(t0, t, tb, tn, src, sb, sn, done, idx);
        if s != Done {
          UntouchedGrow(t0, u, tb, tn, done + {idx}, included);
          NotAllComplete(t0, tb, tn, src, sb, sn, included, idx);
          return s, done + {idx};
        }
        AllCompleteStep(t0, tb, tn, src, sb, sn, done, idx);
        MoveMember(rest, done, included, idx);
        rest := rest - {idx};
        done := done + {idx};
      }
      assert done == included;
      handed := done;
    }

    /**
      `mergeTo` with another run as the target: the target's own
      `tryUpdateRecord` takes each record, so besides the merge into its
      block every record handed to it joins its included set. The records
      are handed over one by one; their indexes join the set together once
      the merge ends. A merge that completes includes all of this run's
      records in the target; one that throws includes at most those.
    */
    method MergeToRun(target: BatchRun) returns (r: Status)
      requires Bound() && target.Bound()
      requires target.block.view.writeBuffer != block.view.writeBuffer
      requires target.block.priceRecord != block.priceRecord && target.block.priceRecord != block.view && target.block.view != block.priceRecord
      modifies target, target.block.view.writeBuffer, target.block.priceRecord, block.priceRecord
      ensures target.Bound()
      ensures MergeBounds(old(target.block.view.writeBuffer[..]), target.block.RecordsBase(), target.block.recordsNumber,
                          block.view.writeBuffer[..], block.RecordsBase(), block.recordsNumber)
      ensures Untouched(old(target.block.view.writeBuffer[..]), target.block.view.writeBuffer[..], target.block.RecordsBase(),
                        target.block.recordsNumber, included)
      ensures r == Done <==> AllComplete(old(target.block.view.writeBuffer[..]), target.block.RecordsBase(), target.block.recordsNumber,
                                         block.view.writeBuffer[..], block.RecordsBase(), block.recordsNumber, included)
      ensures r == Done ==> MergedInto(old(target.block.view.writeBuffer[..]), target.block.view.writeBuffer[..], target.block.RecordsBase(),
                                       target.block.recordsNumber, block.view.writeBuffer[..], block.RecordsBase(), block.recordsNumber, included)
      ensures old(target.included) <= target.included <= old(target.included) + included
      ensures r == Done ==> target.included == old(target.included) + included
    {
      var handed;
      r, handed := MergeTo(target.block);
      target.included := target.included + set j | j in handed && 0 <= j < target.block.recordsNumber;
    }

    /** `equals`: two runs are equal exactly when they hold the same pool index. */
    function Equals(o: BatchRun?): (r: bool)
    {
      o == this || (o != null && index == o.index)
    }

    /** `hashCode`: `Objects.hash` of the pool index. */
    function HashCode(): (h: int32)
    {
      HashOf(index)
    }
  }

  /** `equals` goes by the pool index alone, is an equivalence, and equal runs hash alike. */
  lemma EqualsByIndex(a: BatchRun, b: BatchRun, c: BatchRun)
    ensures a.Equals(b) <==> a.index == b.index
    ensures a.Equals(a) && !a.Equals(null)
    ensures a.Equals(b) ==> b.Equals(a)
    ensures a.Equals(b) && b.Equals(c) ==> a.Equals(c)
    ensures a.Equals(b) ==> a.HashCode() == b.HashCode()
  {
  }
}
