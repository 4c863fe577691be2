/**
  A block of indexed price records: an optional header followed by
  `recordsNumber` records laid end to end in one buffer. Records are
  addressed by instrument index and are only written through
  `tryUpdateRecord`, where a newer-or-equal timestamp wins. One shared
  record view, `priceRecord`, is moved to the record being read or written.
*/
module RecordsBlock {
  import opened Bytes
  import opened Errors
  import opened Flyweight
  import opened IndexedPriceRecord

  /** `defineBlockSizeInBytes`: the header followed by `recordsNumber` records. */
  function DefineBlockSizeInBytes(headerSize: int, recordsNumber: int): int
  {
    headerSize + recordsNumber * MESSAGE_SIZE
  }

  /**
    Where record `i` starts when the records start at `base`. The record
    width is written as the number it is (`MESSAGE_SIZE` is 32), which keeps
    the arithmetic on positions linear.
  */
  function SlotPos(base: int, i: int): (r: int)
    ensures r == base + i * MESSAGE_SIZE
  {
    base + i * 32
  }

  /** Records are laid end to end: an earlier record ends before a later one starts. */
  lemma SlotsApart(base: int, i: int, j: int)
    requires i < j
    ensures SlotPos(base, i) + MESSAGE_SIZE <= SlotPos(base, j)
  {
  }

  /** Record `i` of `n` lies inside the records area and past the header. */
  lemma SlotInside(base: int, i: int, n: int)
    requires 0 <= i < n
    ensures base <= SlotPos(base, i) && SlotPos(base, i) + MESSAGE_SIZE <= SlotPos(base, n)
  {
  }

  /** The first `k` of `n` records lie inside the records area. */
  lemma PrefixInside(k: int, n: int)
    requires 0 <= k <= n
    ensures k * MESSAGE_SIZE <= n * MESSAGE_SIZE
  {
  }

  /** `reset` on the bytes: the timestamps of the first `k` records are zeroed, one record after another. */
  function ResetBytes(s: seq<byte>, base: int, k: nat): (r: seq<byte>)
    requires 0 <= base && SlotPos(base, k) <= |s|
    ensures |r| == |s|
  {
    if k == 0 then s
    else Splice(ResetBytes(s, base, k - 1), SlotPos(base, k - 1) + TIMESTAMP_FIELD_OFFSET, EncodeLong(0))
  }

  /** The bytes of the record at `p`, and the payload part of them (size and payload area). */
  function RecordBytes(s: seq<byte>, p: int): seq<byte>
    requires InBounds(s, p)
  {
    s[p..p + MESSAGE_SIZE]
  }

  function PayloadBytes(s: seq<byte>, p: int): seq<byte>
    requires InBounds(s, p)
  {
    s[p + PAYLOAD_SIZE_FIELD_OFFSET..p + MESSAGE_SIZE]
  }

  /** The record at `p` of `t` is the one of `s` with its timestamp cleared: 0, same index, same payload. */
  predicate Cleared(s: seq<byte>, t: seq<byte>, p: int)
    requires InBounds(s, p) && InBounds(t, p)
  {
    TimestampAt(t, p) == 0 && IndexAt(t, p) == IndexAt(s, p) && PayloadBytes(t, p) == PayloadBytes(s, p)
  }

  /** Zeroing the timestamp of the record at `q` clears it. */
  lemma ZeroOwnTimestamp(s: seq<byte>, q: int)
    requires InBounds(s, q)
    ensures Cleared(s, Splice(s, q + TIMESTAMP_FIELD_OFFSET, EncodeLong(0)), q)
  {
    var at, zero := q + TIMESTAMP_FIELD_OFFSET, EncodeLong(0);
    GetPutLong(s, at, 0);
    GetIntElsewhere(s, at, zero, q);
    SpliceElsewhere(s, at, zero, q + PAYLOAD_SIZE_FIELD_OFFSET, MESSAGE_SIZE - PAYLOAD_SIZE_FIELD_OFFSET);
  }

  /** Two buffers that agree on a record agree on its index, its timestamp and its payload. */
  lemma SameRecord(s: seq<byte>, t: seq<byte>, p: int)
    requires InBounds(s, p) && InBounds(t, p) && RecordBytes(s, p) == RecordBytes(t, p)
    ensures IndexAt(t, p) == IndexAt(s, p) && TimestampAt(t, p) == TimestampAt(s, p)
    ensures PayloadBytes(t, p) == PayloadBytes(s, p)
  {
    SliceInside(s, t, p, p + MESSAGE_SIZE, p, p + SIZE_OF_INT);
    SliceInside(s, t, p, p + MESSAGE_SIZE, p + TIMESTAMP_FIELD_OFFSET, p + PAYLOAD_SIZE_FIELD_OFFSET);
    SliceInside(s, t, p, p + MESSAGE_SIZE, p + PAYLOAD_SIZE_FIELD_OFFSET, p + MESSAGE_SIZE);
  }

  /** Zeroing the timestamp of the record at `q` leaves a record at `p`, apart from it, as it was. */
  lemma ZeroOtherTimestamp(s: seq<byte>, q: int, p: int)
    requires InBounds(s, q) && InBounds(s, p)
    requires p + MESSAGE_SIZE <= q || q + MESSAGE_SIZE <= p
    ensures RecordBytes(Splice(s, q + TIMESTAMP_FIELD_OFFSET, EncodeLong(0)), p) == RecordBytes(s, p)
  {
    SpliceElsewhere(s, q + TIMESTAMP_FIELD_OFFSET, EncodeLong(0), p, MESSAGE_SIZE);
  }

  /** A reset of the first `k` records leaves every later record as it was. */
  lemma {:induction false} ResetUntouched(s: seq<byte>, base: int, k: nat, j: int)
    requires 0 <= base && SlotPos(base, k) <= |s|
    requires k <= j && SlotPos(base, j) + MESSAGE_SIZE <= |s|
    ensures RecordBytes(ResetBytes(s, base, k), SlotPos(base, j)) == RecordBytes(s, SlotPos(base, j))
  {
    if k > 0 {
      PrefixInside(k - 1, k);
      SlotsApart(base, k - 1, j);
      ResetUntouched(s, base, k - 1, j);
      ZeroOtherTimestamp(ResetBytes(s, base, k - 1), SlotPos(base, k - 1), SlotPos(base, j));
    }
  }

  /** Clearing is judged on the record's bytes alone. */
  lemma ClearedOnRecord(s: seq<byte>, s': seq<byte>, t: seq<byte>, t': seq<byte>, p: int)
    requires InBounds(s, p) && InBounds(s', p) && InBounds(t, p) && InBounds(t', p)
    requires RecordBytes(s, p) == RecordBytes(s', p) && RecordBytes(t, p) == RecordBytes(t', p)
    requires Cleared(s, t, p)
    ensures Cleared(s', t', p)
  {
    SameRecord(s, s', p);
    SameRecord(t, t', p);
  }

  /** Zeroing the timestamp of a record that still holds its original bytes clears it. */
  lemma ZeroClears(s: seq<byte>, prev: seq<byte>, q: int)
    requires InBounds(s, q) && InBounds(prev, q) && RecordBytes(prev, q) == RecordBytes(s, q)
    ensures Cleared(s, Splice(prev, q + TIMESTAMP_FIELD_OFFSET, EncodeLong(0)), q)
  {
    var t := Splice(prev, q + TIMESTAMP_FIELD_OFFSET, EncodeLong(0));
    ZeroOwnTimestamp(prev, q);
    ClearedOnRecord(prev, s, t, t, q);
  }

  /** The last record a reset reaches is cleared by it. */
  lemma ResetClearsLast(s: seq<byte>, base: int, k: nat)
    requires 0 <= base && SlotPos(base, k) <= |s| && 0 < k
    ensures Cleared(s, ResetBytes(s, base, k), SlotPos(base, k - 1))
  {
    PrefixInside(k - 1, k);
    var prev, q := ResetBytes(s, base, k - 1), SlotPos(base, k - 1);
    ResetUntouched(s, base, k - 1, k - 1);
    ResetStep(s, base, k - 1);
    ZeroClears(s, prev, q);
  }

  /** After a reset of the first `k` records, each of them is cleared. */
  lemma {:induction false} ResetCleared(s: seq<byte>, base: int, k: nat, j: int)
    requires 0 <= base && SlotPos(base, k) <= |s| && 0 <= j < k
    ensures Cleared(s, ResetBytes(s, base, k), SlotPos(base, j))
  {
    if j == k - 1 {
      ResetClearsLast(s, base, k);
    } else {
      PrefixInside(k - 1, k);
      SlotsApart(base, j, k - 1);
      ResetCleared(s, base, k - 1, j);
      ZeroOtherTimestamp(ResetBytes(s, base, k - 1), SlotPos(base, k - 1), SlotPos(base, j));
      ClearedOnRecord(s, s, ResetBytes(s, base, k - 1), ResetBytes(s, base, k), SlotPos(base, j));
    }
  }

  /** One more record reset is one more timestamp zeroed. */
  lemma ResetStep(s: seq<byte>, base: int, k: nat)
    requires 0 <= base && SlotPos(base, k) + MESSAGE_SIZE <= |s|
    ensures SlotPos(base, k + 1) <= |s|
    ensures ResetBytes(s, base, k + 1) == Splice(ResetBytes(s, base, k), SlotPos(base, k) + TIMESTAMP_FIELD_OFFSET, EncodeLong(0))
  {
  }

  /** A reset writes nothing outside the records it resets: the header and whatever follows are untouched. */
  lemma {:induction false} ResetWithin(s: seq<byte>, base: int, k: nat)
    requires 0 <= base && SlotPos(base, k) <= |s|
    ensures SameOutside(s, ResetBytes(s, base, k), base, SlotPos(base, k))
  {
    if k == 0 {
      assert ResetBytes(s, base, k) == s;
    } else {
      PrefixInside(k - 1, k);
      ResetWithin(s, base, k - 1);
      var prev := ResetBytes(s, base, k - 1);
      var hi := SlotPos(base, k);
      SameOutsideWiden(s, prev, base, SlotPos(base, k - 1), base, hi);
      SpliceWithin(prev, SlotPos(base, k - 1) + TIMESTAMP_FIELD_OFFSET, EncodeLong(0), base, hi);
      SameOutsideTrans(s, prev, ResetBytes(s, base, k), base, hi);
    }
  }

  /** The update of the record a view is moved to: newer-or-equal timestamp wins, then the payload is put. */
  method UpdateSelected(f: Flyweight, timestamp: int64, from: seq<byte>, fromOffset: int, size: int32) returns (r: Status)
    requires IndexedPriceRecord.Writable(f)
    modifies f.writeBuffer
    ensures (f.writeBuffer[..], r) == UpdateBytes(old(f.writeBuffer[..]), f.offset, timestamp, from, fromOffset, size)
  {
    ghost var s0 := f.writeBuffer[..];
    r := Done;
    var current := IndexedPriceRecord.Timestamp(f);
    if timestamp >= current {
      SetTimestamp(f, timestamp);
      assert f.writeBuffer[..] == Splice(s0, f.offset + TIMESTAMP_FIELD_OFFSET, EncodeLong(timestamp));
      r := PutPayload(f, from, fromOffset, size);
    }
  }

  class Block {
    const recordsNumber: nat
    const headerSize: nat
    /** The block's own binding: its buffer and offset. */
    const view: Flyweight
    /** The shared record view, moved by `selectRecord`. */
    const priceRecord: Flyweight

    constructor (recordsNumber: nat, headerSize: nat)
      ensures this.recordsNumber == recordsNumber && this.headerSize == headerSize
      ensures Valid() && fresh(view) && fresh(priceRecord)
      ensures view.readBuffer == null && view.writeBuffer == null
    {
      this.recordsNumber := recordsNumber;
      this.headerSize := headerSize;
      view := new Flyweight();
      priceRecord := new Flyweight();
    }

    /** Moving the record view never moves the block. */
    predicate Valid()
      reads this
    {
      view != priceRecord
    }

    function SizeInBytes(): int
      reads this
    {
      DefineBlockSizeInBytes(headerSize, recordsNumber)
    }

    /** The block is bound for writing to a buffer that holds all of it. */
    predicate Bound()
      reads this, view
    {
      Valid() && CanWrite(view, 0, SizeInBytes())
    }

    /** Where the records start in the buffer. */
    function RecordsBase(): int
      reads this, view
    {
      view.offset + headerSize
    }

    /** `selectRecord`'s position for record `i`. */
    function Slot(i: int): int
      reads this, view
    {
      SlotPos(RecordsBase(), i)
    }

    function RecordTimestamp(i: int): int64
      reads this, view, view.readBuffer
      requires Bound() && 0 <= i < recordsNumber
    {
      SlotInside(RecordsBase(), i, recordsNumber);
      TimestampAt(view.readBuffer[..], Slot(i))
    }

    /**
      `wrapForWrite`: binds the block only when the buffer has room for all
      of it past `offset`; otherwise IllegalArgumentException and no change.
    */
    method WrapForWrite(buffer: array<byte>, offset: int) returns (r: Status)
      requires Valid()
      modifies view
      ensures r == Done <==> buffer.Length - offset >= SizeInBytes()
      ensures r == Done ==> view.readBuffer == buffer && view.writeBuffer == buffer && view.offset == offset
      ensures r == Done && 0 <= offset ==> Bound()
      ensures r != Done ==> r == Thrown(IllegalArgument) && unchanged(view)
    {
      if buffer.Length - offset < SizeInBytes() {
        return Thrown(IllegalArgument);
      }
      view.WrapForWrite(buffer, offset);
      r := Done;
    }

    /** `selectRecord`: moves the record view to record `i`, without checking `i`. */
    method SelectRecord(i: int)
      requires Valid() && view.writeBuffer != null
      modifies priceRecord
      ensures priceRecord.readBuffer == view.writeBuffer && priceRecord.writeBuffer == view.writeBuffer
      ensures priceRecord.offset == Slot(i)
    {
      priceRecord.WrapForWrite(view.writeBuffer, Slot(i));
    }

    /**
      `getPriceRecord`: an index outside [0, recordsNumber) throws
      IndexOutOfBoundsException; otherwise the record view covers record `i`.
    */
    method GetPriceRecord(i: int) returns (r: Status)
      requires Bound()
      modifies priceRecord
      ensures r == Done <==> 0 <= i < recordsNumber
      ensures r != Done ==> r == Thrown(IndexOutOfBounds) && unchanged(priceRecord)
      ensures r == Done ==> && priceRecord.readBuffer == view.writeBuffer && priceRecord.writeBuffer == view.writeBuffer
                            && priceRecord.offset == Slot(i) && IndexedPriceRecord.Writable(priceRecord)
                            && IndexedPriceRecord.Timestamp(priceRecord) == RecordTimestamp(i)
    {
      if i < 0 || i >= recordsNumber {
        return Thrown(IndexOutOfBounds);
      }
      SelectRecord(i);
      SlotInside(RecordsBase(), i, recordsNumber);
      r := Done;
    }

    /**
      `tryUpdateRecord`: an index outside [0, recordsNumber) throws
      IndexOutOfBoundsException before anything is written; otherwise record
      `i` is updated as `UpdateBytes` says (newer-or-equal wins).
    */
    method TryUpdateRecord(i: int, timestamp: int64, from: seq<byte>, fromOffset: int, size: int32) returns (r: Status)
      requires Bound()
      modifies view.writeBuffer, priceRecord
      ensures !(0 <= i < recordsNumber) ==> r == Thrown(IndexOutOfBounds) && view.writeBuffer[..] == old(view.writeBuffer[..])
      ensures 0 <= i < recordsNumber ==>
        (view.writeBuffer[..], r) == UpdateBytes(old(view.writeBuffer[..]), Slot(i), timestamp, from, fromOffset, size)
    {
      r := GetPriceRecord(i);
      if r != Done {
        return;
      }
      r := UpdateSelected(priceRecord, timestamp, from, fromOffset, size);
    }

    /** One step of `reset`: the record view moves to record `i` and its timestamp is zeroed. */
    method ZeroTimestamp(i: int)
      requires Bound() && 0 <= i < recordsNumber
      modifies view.writeBuffer, priceRecord
      ensures view.writeBuffer[..] == Splice(old(view.writeBuffer[..]), Slot(i) + TIMESTAMP_FIELD_OFFSET, EncodeLong(0))
    {
      var r := GetPriceRecord(i);
      SetTimestamp(priceRecord, 0);
    }

    /** `reset`: zeroes the timestamp of every record, one after another. */
    method Reset()
      requires Bound()
      modifies view.writeBuffer, priceRecord
      ensures view.writeBuffer[..] == ResetBytes(old(view.writeBuffer[..]), RecordsBase(), recordsNumber)
    {
      ghost var s0, base := view.writeBuffer[..], RecordsBase();
      var index := 0;
      while index < recordsNumber
        invariant 0 <= index <= recordsNumber && SlotPos(base, index) <= |s0|
        invariant view.writeBuffer[..] == ResetBytes(s0, base, index)
      {
        SlotInside(base, index, recordsNumber);
        ResetStep(s0, base, index);
        ZeroTimestamp(index);
        index := index + 1;
      }
    }
  }

  /**
    After `reset` every record of the block reads timestamp 0 and keeps its
    index and payload bytes; the header and the rest of the buffer are
    untouched.
  */
  lemma ResetClearsTimestamps(s: seq<byte>, base: int, n: nat, j: int)
    requires 0 <= base && SlotPos(base, n) <= |s| && 0 <= j < n
    ensures TimestampAt(ResetBytes(s, base, n), SlotPos(base, j)) == 0
    ensures IndexAt(ResetBytes(s, base, n), SlotPos(base, j)) == IndexAt(s, SlotPos(base, j))
    ensures PayloadBytes(ResetBytes(s, base, n), SlotPos(base, j)) == PayloadBytes(s, SlotPos(base, j))
    ensures SameOutside(s, ResetBytes(s, base, n), base, SlotPos(base, n))
  {
    ResetCleared(s, base, n, j);
    SlotInside(base, j, n);
    ResetWithin(s, base, n);
  }
}

/** The current market: a records block with no header, one record per known instrument. */
module MarketState {
  import opened Bytes
  import opened IndexedPriceRecord
  import opened RecordsBlock

  const MARKET_STATE_HEADER_SIZE: nat := 0

  method NewMarketState(recordsNumber: nat) returns (b: Block)
    ensures fresh(b) && fresh(b.view) && fresh(b.priceRecord) && b.Valid()
    ensures b.recordsNumber == recordsNumber && b.headerSize == MARKET_STATE_HEADER_SIZE
    ensures b.view.writeBuffer == null && b.view.readBuffer == null
  {
    b := new Block(recordsNumber, MARKET_STATE_HEADER_SIZE);
  }

  /** With no header the block is exactly its records, and record `i` starts `i` records past the offset. */
  lemma MarketStateLayout(b: Block, i: int)
    requires b.headerSize == MARKET_STATE_HEADER_SIZE
    ensures b.SizeInBytes() == b.recordsNumber * MESSAGE_SIZE
    ensures b.Slot(i) == b.view.offset + i * MESSAGE_SIZE
  {
  }

  /** A record whose timestamp is still 0 holds no price yet. */
  predicate PriceAvailable(b: Block, i: int)
    reads b, b.view, b.view.readBuffer
    requires b.Bound() && 0 <= i < b.recordsNumber
  {
    b.RecordTimestamp(i) != 0
  }
}
