/**
  The single-producer, single-consumer ring buffer each client reads its
  responses from (Agrona's `OneToOneRingBuffer`): the gateway's reader
  thread writes the records it receives, the client reads them back in the
  same order. A record takes its length plus an 8-byte record header in the
  ring, rounded up to the 8-byte alignment; a record that does not fit in
  the room left is refused, not queued.
*/
module InboundRing {
  import opened Bytes
  import opened Errors

  const RECORD_HEADER_LENGTH: nat := 8
  const RECORD_ALIGNMENT: nat := 8

  /** One queued record: the message type it was written with and its bytes. */
  datatype InboundRecord = InboundRecord(msgType: int32, bytes: seq<byte>)

  /** The room a record of `length` bytes takes in the ring. */
  function Footprint(length: nat): (r: nat)
    ensures r % RECORD_ALIGNMENT == 0
    ensures length + RECORD_HEADER_LENGTH <= r < length + RECORD_HEADER_LENGTH + RECORD_ALIGNMENT
  {
    var n := length + RECORD_HEADER_LENGTH;
    (n + RECORD_ALIGNMENT - 1) / RECORD_ALIGNMENT * RECORD_ALIGNMENT
  }

  /** The room the queued records take together. */
  function Used(records: seq<InboundRecord>): (r: nat)
    ensures r >= RECORD_HEADER_LENGTH * |records|
  {
    if records == [] then 0 else Footprint(|records[0].bytes|) + Used(records[1..])
  }

  /** Queuing a record uses exactly its footprint more. */
  lemma {:induction false} UsedAppend(records: seq<InboundRecord>, x: InboundRecord)
    ensures Used(records + [x]) == Used(records) + Footprint(|x.bytes|)
  {
    if records != [] {
      assert (records + [x])[1..] == records[1..] + [x];
      UsedAppend(records[1..], x);
    }
  }

  class RingBuffer {
    /** The ring's capacity in bytes. */
    const capacity: nat
    var records: seq<InboundRecord>

    predicate Valid()
      reads this
    {
      Used(records) <= capacity
    }

    constructor (capacity: nat)
      ensures Valid() && this.capacity == capacity && records == []
    {
      this.capacity := capacity;
      records := [];
    }

    /**
      `write`: true, with the record queued after the others, when its
      footprint fits in the room left; false, with nothing queued, otherwise.
    */
    method Write(msgType: int32, bytes: seq<byte>) returns (written: bool)
      modifies this
      ensures old(Valid()) ==> Valid()
      ensures written <==> Used(old(records)) + Footprint(|bytes|) <= capacity
      ensures records == if written then old(records) + [InboundRecord(msgType, bytes)] else old(records)
    {
      if Used(records) + Footprint(|bytes|) <= capacity {
        UsedAppend(records, InboundRecord(msgType, bytes));
        records := records + [InboundRecord(msgType, bytes)];
        return true;
      }
      return false;
    }

    /** `read` of at most one record: the oldest queued record, which leaves the ring; nothing when it is empty. */
    method Read() returns (r: Option<InboundRecord>)
      requires Valid()
      modifies this
      ensures Valid()
      ensures old(records) == [] ==> r == None && records == []
      ensures old(records) != [] ==> r == Some(old(records)[0]) && records == old(records)[1..]
    {
      if records == [] {
        return None;
      }
      r := Some(records[0]);
      records := records[1..];
    }
  }
}
