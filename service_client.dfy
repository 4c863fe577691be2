/**
  The client side of a call (`AbstractServiceClient`): the request is
  stamped with the client's id and a fresh correlation id and sent through
  the gateway's registered publication; the client then polls its inbound
  ring until a response carrying the same correlation id arrives or the
  clock passes the deadline.

  The clock is a parameter: `clock` lists the readings the call takes, in
  order. The first fixes the deadline; the poll loop takes one reading per
  unanswered round.
*/
module ServiceClient {
  import opened Bytes
  import opened Errors
  import opened Flyweight
  import opened Message
  import opened AeronPublication
  import opened ServerPublication
  import opened InboundRing

  const MAX_RESPONSE_SIZE: nat := 512

  datatype CallStatus = ResponseReceived | Timeout

  /** One read of the ring: whether it delivered the awaited response, the records left and the poller's buffer after it. */
  datatype Round = Round(matched: bool, rest: seq<InboundRecord>, buffer: seq<byte>)

  /** How a poll ended, the records it left, how many clock readings it took and the poller's buffer after it. */
  datatype Polled = Polled(status: CallStatus, rest: seq<InboundRecord>, readings: nat, buffer: seq<byte>)

  /**
    `onMessage`'s copy: the record's bytes over the start of the poller's
    buffer, the rest of the buffer kept; IndexOutOfBoundsException when they
    do not fit.
  */
  function Delivered(buffer: seq<byte>, bytes: seq<byte>): (r: Result<seq<byte>>)
    ensures r.Err? <==> |bytes| > |buffer|
    ensures r.Err? ==> r.error == IndexOutOfBounds
    ensures r.Ok? ==> |r.value| == |buffer| && r.value[..|bytes|] == bytes && r.value[|bytes|..] == buffer[|bytes|..]
  {
    if |bytes| > |buffer| then Err(IndexOutOfBounds)
    else
      SpliceAt(buffer, 0, bytes);
      Ok(Splice(buffer, 0, bytes))
  }

  /**
    `ringBuffer.read(this, 1)` followed by the correlation check: nothing
    when the ring is empty; otherwise the oldest record leaves the ring and
    is delivered, and it is the awaited response when the buffer then holds
    `correlationId` at the header's correlation id offset.
  */
  function ReadRound(queue: seq<InboundRecord>, buffer: seq<byte>, correlationId: int64): (r: Result<Round>)
    requires |buffer| == MAX_RESPONSE_SIZE
    ensures r.Ok? ==> |r.value.buffer| == MAX_RESPONSE_SIZE
    ensures r.Ok? && r.value.matched ==> GetLong(r.value.buffer, CORRELATION_ID_FIELD_OFFSET) == correlationId
  {
    if queue == [] then Ok(Round(false, queue, buffer))
    else
      var delivered := Delivered(buffer, queue[0].bytes);
      if delivered.Err? then Err(delivered.error)
      else Ok(Round(GetLong(delivered.value, CORRELATION_ID_FIELD_OFFSET) == correlationId, queue[1..], delivered.value))
  }

  /** `deadline - now < 0` in Java's wrapping `long` arithmetic. */
  predicate PastDeadline(deadline: int64, now: int64)
  {
    SubLong(deadline, now) < 0
  }

  /** Some reading of `clock` is past the deadline: a poll over these readings ends. */
  predicate Expires(clock: seq<int64>, deadline: int64)
  {
    exists k | 0 <= k < |clock| :: PastDeadline(deadline, clock[k])
  }

  /** A reading before the deadline leaves the expiry to the readings after it. */
  lemma ExpiresLater(clock: seq<int64>, deadline: int64)
    requires Expires(clock, deadline) && !PastDeadline(deadline, clock[0])
    ensures Expires(clock[1..], deadline)
  {
    var k :| 0 <= k < |clock| && PastDeadline(deadline, clock[k]);
    assert clock[1..][k - 1] == clock[k];
  }

  /**
    `pollNextMessage`: each round reads one record; a delivered response
    with the awaited correlation id ends the poll, otherwise the clock is
    read and a reading past the deadline ends it with a timeout. An
    exception from the delivery ends it with that exception.
  */
  function Poll(queue: seq<InboundRecord>, buffer: seq<byte>, clock: seq<int64>, deadline: int64, correlationId: int64)
    : (r: Result<Polled>)
    requires |buffer| == MAX_RESPONSE_SIZE && Expires(clock, deadline)
    ensures r.Ok? ==> |r.value.buffer| == MAX_RESPONSE_SIZE && |r.value.rest| <= |queue|
    decreases |clock|
  {
    var round := ReadRound(queue, buffer, correlationId);
    if round.Err? then Err(round.error)
    else if round.value.matched then Ok(Polled(ResponseReceived, round.value.rest, 0, round.value.buffer))
    else if PastDeadline(deadline, clock[0]) then Ok(Polled(Timeout, round.value.rest, 1, round.value.buffer))
    else
      ExpiresLater(clock, deadline);
      Later(Poll(round.value.rest, round.value.buffer, clock[1..], deadline, correlationId), 1)
  }

  /** One round of a poll, unfolded. */
  lemma PollStep(queue: seq<InboundRecord>, buffer: seq<byte>, clock: seq<int64>, deadline: int64, correlationId: int64)
    requires |buffer| == MAX_RESPONSE_SIZE && Expires(clock, deadline)
    ensures var round := ReadRound(queue, buffer, correlationId);
      var p := Poll(queue, buffer, clock, deadline, correlationId);
      && (round.Err? ==> p == Err(round.error))
      && (round.Ok? && round.value.matched ==> p == Ok(Polled(ResponseReceived, round.value.rest, 0, round.value.buffer)))
      && (round.Ok? && !round.value.matched && PastDeadline(deadline, clock[0]) ==>
            p == Ok(Polled(Timeout, round.value.rest, 1, round.value.buffer)))
      && (round.Ok? && !round.value.matched && !PastDeadline(deadline, clock[0]) ==>
            Expires(clock[1..], deadline)
            && p == Later(Poll(round.value.rest, round.value.buffer, clock[1..], deadline, correlationId), 1))
  {
  }

  /** An unanswered round before the deadline hands the rest of the poll to the next clock reading. */
  lemma PollAdvance(queue: seq<InboundRecord>, buffer: seq<byte>, clock: seq<int64>, i: nat, deadline: int64, correlationId: int64)
    requires |buffer| == MAX_RESPONSE_SIZE && i < |clock| && Expires(clock[i..], deadline)
    requires var round := ReadRound(queue, buffer, correlationId); round.Ok? && !round.value.matched
    requires !PastDeadline(deadline, clock[i])
    ensures Expires(clock[i + 1..], deadline)
    ensures var round := ReadRound(queue, buffer, correlationId);
      Later(Poll(round.value.rest, round.value.buffer, clock[i + 1..], deadline, correlationId), i + 1)
      == Later(Poll(queue, buffer, clock[i..], deadline, correlationId), i)
  {
    assert clock[i..][1..] == clock[i + 1..];
    PollStep(queue, buffer, clock[i..], deadline, correlationId);
  }

  /** A poll outcome with `n` more clock readings counted. */
  function Later(p: Result<Polled>, n: nat): Result<Polled>
  {
    if p.Err? then p else Ok(p.value.(readings := p.value.readings + n))
  }

  /** A poll consumes records from the front of the ring only: what it leaves is a suffix of what it found. */
  lemma {:induction false} PollLeavesSuffix(queue: seq<InboundRecord>, buffer: seq<byte>, clock: seq<int64>, deadline: int64, correlationId: int64)
    requires |buffer| == MAX_RESPONSE_SIZE && Expires(clock, deadline)
    ensures var p := Poll(queue, buffer, clock, deadline, correlationId);
      p.Ok? ==> p.value.rest == queue[|queue| - |p.value.rest|..]
    decreases |clock|
  {
    var round := ReadRound(queue, buffer, correlationId);
    if round.Ok? && !round.value.matched && !PastDeadline(deadline, clock[0]) {
      ExpiresLater(clock, deadline);
      var rest := round.value.rest;
      PollLeavesSuffix(rest, round.value.buffer, clock[1..], deadline, correlationId);
      var p := Poll(rest, round.value.buffer, clock[1..], deadline, correlationId);
      if p.Ok? && queue != [] {
        assert rest == queue[1..];
        assert queue[1..][|rest| - |p.value.rest|..] == queue[|queue| - |p.value.rest|..];
      }
    }
  }

  /**
    A poll that reports the response leaves in the buffer the last record it
    consumed, and that record carries the awaited correlation id.
  */
  lemma {:induction false} PollReceived(queue: seq<InboundRecord>, buffer: seq<byte>, clock: seq<int64>, deadline: int64, correlationId: int64)
    requires |buffer| == MAX_RESPONSE_SIZE && Expires(clock, deadline)
    requires var p := Poll(queue, buffer, clock, deadline, correlationId); p.Ok? && p.value.status == ResponseReceived
    ensures var p := Poll(queue, buffer, clock, deadline, correlationId);
      && |p.value.rest| < |queue|
      && var last := queue[|queue| - |p.value.rest| - 1];
      && |last.bytes| <= MAX_RESPONSE_SIZE
      && p.value.buffer[..|last.bytes|] == last.bytes
      && GetLong(p.value.buffer, CORRELATION_ID_FIELD_OFFSET) == correlationId
    decreases |clock|
  {
    var round := ReadRound(queue, buffer, correlationId);
    if !round.value.matched {
      ExpiresLater(clock, deadline);
      var rest := round.value.rest;
      PollReceived(rest, round.value.buffer, clock[1..], deadline, correlationId);
      var p := Poll(rest, round.value.buffer, clock[1..], deadline, correlationId);
      if queue != [] {
        assert rest == queue[1..];
        assert queue[1..][|rest| - |p.value.rest| - 1] == queue[|queue| - |p.value.rest| - 1];
      }
    }
  }

  /**
    A poll that times out took its last reading past the deadline and every
    earlier one before it.
  */
  lemma {:induction false} PollTimedOut(queue: seq<InboundRecord>, buffer: seq<byte>, clock: seq<int64>, deadline: int64, correlationId: int64)
    requires |buffer| == MAX_RESPONSE_SIZE && Expires(clock, deadline)
    requires var p := Poll(queue, buffer, clock, deadline, correlationId); p.Ok? && p.value.status == Timeout
    ensures var p := Poll(queue, buffer, clock, deadline, correlationId);
      && 1 <= p.value.readings <= |clock|
      && PastDeadline(deadline, clock[p.value.readings - 1])
      && forall j | 0 <= j < p.value.readings - 1 :: !PastDeadline(deadline, clock[j])
    decreases |clock|
  {
    var round := ReadRound(queue, buffer, correlationId);
    if !PastDeadline(deadline, clock[0]) {
      ExpiresLater(clock, deadline);
      PollTimedOut(round.value.rest, round.value.buffer, clock[1..], deadline, correlationId);
      var p := Poll(round.value.rest, round.value.buffer, clock[1..], deadline, correlationId);
      forall j | 0 <= j < p.value.readings
        ensures !PastDeadline(deadline, clock[j])
      {
        if j > 0 {
          assert clock[j] == clock[1..][j - 1];
        }
      }
    }
  }

  /**
    The ring is read before the clock: a response already waiting at the
    front of the ring is taken even when the deadline has passed.
  */
  lemma WaitingResponseWins(queue: seq<InboundRecord>, buffer: seq<byte>, clock: seq<int64>, deadline: int64, correlationId: int64)
    requires |buffer| == MAX_RESPONSE_SIZE && Expires(clock, deadline)
    requires queue != [] && MESSAGE_HEADER_LENGTH <= |queue[0].bytes| <= MAX_RESPONSE_SIZE
    requires GetLong(queue[0].bytes, CORRELATION_ID_FIELD_OFFSET) == correlationId
    ensures Poll(queue, buffer, clock, deadline, correlationId)
         == Ok(Polled(ResponseReceived, queue[1..], 0, Splice(buffer, 0, queue[0].bytes)))
  {
    var b := Splice(buffer, 0, queue[0].bytes);
    SpliceAt(buffer, 0, queue[0].bytes);
    assert b[CORRELATION_ID_FIELD_OFFSET..CORRELATION_ID_FIELD_OFFSET + SIZE_OF_LONG]
        == queue[0].bytes[CORRELATION_ID_FIELD_OFFSET..CORRELATION_ID_FIELD_OFFSET + SIZE_OF_LONG];
  }

  /** A record that fits the poller's buffer and is long enough to carry a header, but answers another request. */
  predicate Unrelated(x: InboundRecord, correlationId: int64)
  {
    MESSAGE_HEADER_LENGTH <= |x.bytes| <= MAX_RESPONSE_SIZE
    && GetLong(x.bytes, CORRELATION_ID_FIELD_OFFSET) != correlationId
  }

  /** When no queued record answers the request, the poll can only time out. */
  lemma {:induction false} UnansweredTimesOut(queue: seq<InboundRecord>, buffer: seq<byte>, clock: seq<int64>, deadline: int64, correlationId: int64)
    requires |buffer| == MAX_RESPONSE_SIZE && Expires(clock, deadline)
    requires forall k | 0 <= k < |queue| :: Unrelated(queue[k], correlationId)
    ensures var p := Poll(queue, buffer, clock, deadline, correlationId); p.Ok? && p.value.status == Timeout
    decreases |clock|
  {
    var round := ReadRound(queue, buffer, correlationId);
    if queue != [] {
      var b := Splice(buffer, 0, queue[0].bytes);
      SpliceAt(buffer, 0, queue[0].bytes);
      assert Unrelated(queue[0], correlationId);
      assert b[CORRELATION_ID_FIELD_OFFSET..CORRELATION_ID_FIELD_OFFSET + SIZE_OF_LONG]
          == queue[0].bytes[CORRELATION_ID_FIELD_OFFSET..CORRELATION_ID_FIELD_OFFSET + SIZE_OF_LONG];
      assert !round.value.matched;
    }
    if !PastDeadline(deadline, clock[0]) {
      ExpiresLater(clock, deadline);
      var rest := round.value.rest;
      forall k | 0 <= k < |rest|
        ensures Unrelated(rest[k], correlationId)
      {
        assert rest[k] == queue[k + 1];
      }
      UnansweredTimesOut(rest, round.value.buffer, clock[1..], deadline, correlationId);
    }
  }

  /** The clock readings of a call: the first fixes the deadline, and the poll's readings after it pass that deadline. */
  predicate CallReady(clock: seq<int64>, waitTimeoutNs: int64)
  {
    |clock| >= 1 && Expires(clock[1..], AddLong(clock[0], waitTimeoutNs))
  }

  /** The poll of a call whose first reading is `clock[0]`: the deadline is that reading plus the wait timeout. */
  function Await(queue: seq<InboundRecord>, buffer: seq<byte>, clock: seq<int64>, waitTimeoutNs: int64, correlationId: int64)
    : Result<Polled>
    requires |buffer| == MAX_RESPONSE_SIZE && CallReady(clock, waitTimeoutNs)
  {
    Poll(queue, buffer, clock[1..], AddLong(clock[0], waitTimeoutNs), correlationId)
  }

  /** `checkForErrors` after the poll: the response buffer, or the exception the call ends with. */
  function Answer(p: Result<Polled>): Result<seq<byte>>
  {
    if p.Err? then Err(p.error)
    else if p.value.status == Timeout then Err(ConnectionTimeout)
    else Ok(p.value.buffer)
  }

  /** A call that returns normally returns the response to its own request. */
  lemma AnswerIsTheResponse(queue: seq<InboundRecord>, buffer: seq<byte>, clock: seq<int64>, waitTimeoutNs: int64, correlationId: int64)
    requires |buffer| == MAX_RESPONSE_SIZE && CallReady(clock, waitTimeoutNs)
    ensures var a := Answer(Await(queue, buffer, clock, waitTimeoutNs, correlationId));
      a.Ok? ==> |a.value| == MAX_RESPONSE_SIZE && GetLong(a.value, CORRELATION_ID_FIELD_OFFSET) == correlationId
  {
    var p := Await(queue, buffer, clock, waitTimeoutNs, correlationId);
    if p.Ok? && p.value.status == ResponseReceived {
      PollReceived(queue, buffer, clock[1..], AddLong(clock[0], waitTimeoutNs), correlationId);
    }
  }

  /** A call none of whose queued records answers it ends in ConnectionTimeoutException. */
  lemma UnansweredCallTimesOut(queue: seq<InboundRecord>, buffer: seq<byte>, clock: seq<int64>, waitTimeoutNs: int64, correlationId: int64)
    requires |buffer| == MAX_RESPONSE_SIZE && CallReady(clock, waitTimeoutNs)
    requires forall k | 0 <= k < |queue| :: Unrelated(queue[k], correlationId)
    ensures Answer(Await(queue, buffer, clock, waitTimeoutNs, correlationId)) == Err(ConnectionTimeout)
  {
    UnansweredTimesOut(queue, buffer, clock[1..], AddLong(clock[0], waitTimeoutNs), correlationId);
  }

  /** A request's bytes once `startOperation` has put the client id and the correlation id into its header at `base`. */
  function Started(s: seq<byte>, base: int, clientId: int32, correlationId: int64): (r: seq<byte>)
    requires 0 <= base && base + MESSAGE_HEADER_LENGTH <= |s|
    ensures |r| == |s|
  {
    Splice(Splice(s, base + CLIENT_ID_FIELD_OFFSET, EncodeInt(clientId)), base + CORRELATION_ID_FIELD_OFFSET, EncodeLong(correlationId))
  }

  /** A started request's bytes once the gateway's send has put the publication's connection id into its header too. */
  function Routed(s: seq<byte>, base: int, connectionId: int64, clientId: int32, correlationId: int64): (r: seq<byte>)
    requires 0 <= base && base + MESSAGE_HEADER_LENGTH <= |s|
    ensures |r| == |s|
  {
    Splice(Started(s, base, clientId, correlationId), base + CONNECTION_ID_FIELD_OFFSET, EncodeLong(connectionId))
  }

  /** Starting an operation sets exactly the client id and the correlation id of the header; nothing else changes. */
  lemma StartedHeader(s: seq<byte>, base: int, clientId: int32, correlationId: int64)
    requires 0 <= base && base + MESSAGE_HEADER_LENGTH <= |s|
    ensures HeaderAt(Started(s, base, clientId, correlationId), base) == HeaderAt(s, base).(clientId := clientId, correlationId := correlationId)
    ensures SameOutside(s, Started(s, base, clientId, correlationId), base, base + MESSAGE_HEADER_LENGTH)
  {
    var s1 := Splice(s, base + CLIENT_ID_FIELD_OFFSET, EncodeInt(clientId));
    PutClientIdAt(s, base, clientId);
    PutCorrelationIdAt(s1, base, correlationId);
    SpliceWithin(s, base + CLIENT_ID_FIELD_OFFSET, EncodeInt(clientId), base, base + MESSAGE_HEADER_LENGTH);
    SpliceWithin(s1, base + CORRELATION_ID_FIELD_OFFSET, EncodeLong(correlationId), base, base + MESSAGE_HEADER_LENGTH);
    SameOutsideTrans(s, s1, Started(s, base, clientId, correlationId), base, base + MESSAGE_HEADER_LENGTH);
  }

  /** A routed request's header holds all three ids with its type kept; nothing past the header changes. */
  lemma RoutedHeader(s: seq<byte>, base: int, connectionId: int64, clientId: int32, correlationId: int64)
    requires 0 <= base && base + MESSAGE_HEADER_LENGTH <= |s|
    ensures HeaderAt(Routed(s, base, connectionId, clientId, correlationId), base)
         == HeaderAt(s, base).(connectionId := connectionId, clientId := clientId, correlationId := correlationId)
    ensures SameOutside(s, Routed(s, base, connectionId, clientId, correlationId), base, base + MESSAGE_HEADER_LENGTH)
  {
    var s2 := Started(s, base, clientId, correlationId);
    StartedHeader(s, base, clientId, correlationId);
    PutConnectionIdAt(s2, base, connectionId);
    SpliceWithin(s2, base + CONNECTION_ID_FIELD_OFFSET, EncodeLong(connectionId), base, base + MESSAGE_HEADER_LENGTH);
    SameOutsideTrans(s, s2, Routed(s, base, connectionId, clientId, correlationId), base, base + MESSAGE_HEADER_LENGTH);
  }

  /**
    The gateway's `registeredPublication`, shared by the gateway and every
    client it made: null until the first connect, replaced as a whole by
    each connect.
  */
  class Registration {
    var publication: ServerPublication?

    constructor ()
      ensures publication == null
    {
      publication := null;
    }

    /**
      The gateway's `send`: the request goes out through the registered
      publication, stamped with its connection id; NullPointerException
      before the first connect.
    */
    method Send(request: Flyweight, sizeInBytes: nat, offers: seq<int>) returns (sent: Status)
      requires HeaderWritable(request) && CanRead(request, 0, sizeInBytes)
      requires publication != null && !publication.publication.closed ==> Settles(offers, true)
      modifies request.writeBuffer
      modifies if publication != null then {publication.publication} else {}
      ensures publication == null ==> sent == Thrown(NullPointer) && request.writeBuffer[..] == old(request.writeBuffer[..])
      ensures publication != null && old(publication.publication.closed) ==>
        sent == Thrown(IllegalState) && request.writeBuffer[..] == old(request.writeBuffer[..])
        && publication.publication.log == old(publication.publication.log)
      ensures publication != null && !old(publication.publication.closed) ==>
        && request.writeBuffer[..] == Splice(old(request.writeBuffer[..]), request.offset + CONNECTION_ID_FIELD_OFFSET, EncodeLong(publication.connectionId))
        && (sent == Done <==> Outcome(offers, true) == Accepted)
        && (sent == Done ==> publication.publication.log == old(publication.publication.log) + [ReadBytes(request, 0, sizeInBytes)])
        && (sent != Done ==> sent == Thrown(IllegalState) && publication.publication.closed
                             && publication.publication.log == old(publication.publication.log))
    {
      var registered := publication;
      if registered == null {
        return Thrown(NullPointer);
      }
      ghost var s0 := request.writeBuffer[..];
      ghost var attempts;
      sent, attempts := registered.SendRequest(request, sizeInBytes, offers);
      if !old(registered.publication.closed) {
        SentIsOutcome(offers, true, attempts, sent, registered.publication.closed, registered.publication.log,
                      old(registered.publication.log), ReadBytes(request, 0, sizeInBytes));
      }
    }
  }

  /** `ResponsePoller`: the buffer each response is copied to, over the client's inbound ring. */
  class ResponsePoller {
    const buffer: array<byte>
    const ring: RingBuffer
    var messageType: int32
    var length: nat

    predicate Valid()
      reads ring
    {
      buffer.Length == MAX_RESPONSE_SIZE && ring.Valid()
    }

    constructor (ring: RingBuffer)
      requires ring.Valid()
      ensures Valid() && this.ring == ring && fresh(buffer)
      ensures forall i | 0 <= i < MAX_RESPONSE_SIZE :: buffer[i] == 0
    {
      buffer := new byte[MAX_RESPONSE_SIZE](_ => 0);
      this.ring := ring;
      messageType, length := 0, 0;
    }

    /** `onMessage`: the record is copied to the start of the buffer and its type and length kept. */
    method OnMessage(msgType: int32, bytes: seq<byte>) returns (r: Status)
      requires Valid()
      modifies this, buffer
      ensures Valid() && messageType == msgType
      ensures var d := Delivered(old(buffer[..]), bytes);
        && (d.Err? ==> r == Thrown(d.error) && buffer[..] == old(buffer[..]) && length == old(length))
        && (d.Ok? ==> r == Done && buffer[..] == d.value && length == |bytes|)
    {
      messageType := msgType;
      if |bytes| > buffer.Length {
        return Thrown(IndexOutOfBounds);
      }
      forall i | 0 <= i < |bytes| {
        buffer[i] := bytes[i];
      }
      assert buffer[..] == Splice(old(buffer[..]), 0, bytes);
      length := |bytes|;
      r := Done;
    }

    /**
      One read of the ring: the oldest record, if any, leaves the ring and
      is delivered; `received` tells whether there was one. An exception
      from the delivery is passed on, the record consumed all the same.
    */
    method ReadRecord(ghost correlationId: int64) returns (received: bool, st: Status)
      requires Valid()
      modifies this, buffer, ring
      ensures Valid()
      ensures var round := ReadRound(old(ring.records), old(buffer[..]), correlationId);
        && (round.Err? ==> st == Thrown(round.error))
        && (round.Ok? ==> st == Done && ring.records == round.value.rest && buffer[..] == round.value.buffer
                          && round.value.matched == (received && GetLong(buffer[..], CORRELATION_ID_FIELD_OFFSET) == correlationId))
    {
      var next := ring.Read();
      if next.None? {
        return false, Done;
      }
      st := OnMessage(next.value.msgType, next.value.bytes);
      received := true;
    }

    /** `readCorrelationId`: the correlation id field of the buffer's header. */
    method ReadCorrelationId() returns (id: int64)
      requires Valid()
      ensures id == GetLong(buffer[..], CORRELATION_ID_FIELD_OFFSET)
    {
      id := GetLong(buffer[..], CORRELATION_ID_FIELD_OFFSET);
    }

    /** `pollNextMessage`, proved against `Poll`; `readings` is the number of clock readings it took. */
    method PollNextMessage(deadline: int64, correlationId: int64, clock: seq<int64>) returns (r: Result<CallStatus>, ghost readings: nat)
      requires Valid() && Expires(clock, deadline)
      modifies this, buffer, ring
      ensures Valid()
      ensures var p := Poll(old(ring.records), old(buffer[..]), clock, deadline, correlationId);
        && (p.Err? ==> r == Err(p.error))
        && (p.Ok? ==> r == Ok(p.value.status) && ring.records == p.value.rest && buffer[..] == p.value.buffer
                      && readings == p.value.readings)
    {
      ghost var target := Poll(old(ring.records), old(buffer[..]), clock, deadline, correlationId);
      var i := 0;
      while true
        invariant Valid() && 0 <= i <= |clock| && Expires(clock[i..], deadline)
        invariant Later(Poll(ring.records, buffer[..], clock[i..], deadline, correlationId), i) == target
        decreases |clock| - i
      {
        ghost var queue, before := ring.records, buffer[..];
        PollStep(queue, before, clock[i..], deadline, correlationId);
        var received, st := ReadRecord(correlationId);
        if st.Thrown? {
          return Err(st.error), i;
        }
        var id := 0;
        if received {
          id := ReadCorrelationId();
        }
        if received && id == correlationId {
          return Ok(ResponseReceived), i;
        }
        var now := clock[i];
        if SubLong(deadline, now) < 0 {
          return Ok(Timeout), i + 1;
        }
        PollAdvance(queue, before, clock, i, deadline, correlationId);
        i := i + 1;
      }
    }
  }

  class ServiceClient {
    const clientId: int32
    const poller: ResponsePoller
    const registration: Registration
    const waitTimeoutNs: int64

    predicate Valid()
      reads poller.ring
    {
      poller.Valid()
    }

    constructor (clientId: int32, registration: Registration, waitTimeoutNs: int64, ring: RingBuffer)
      requires ring.Valid()
      ensures Valid() && fresh(poller) && fresh(poller.buffer) && poller.ring == ring
      ensures this.clientId == clientId && this.registration == registration && this.waitTimeoutNs == waitTimeoutNs
    {
      this.clientId := clientId;
      this.registration := registration;
      this.waitTimeoutNs := waitTimeoutNs;
      poller := new ResponsePoller(ring);
    }

    /** `receiveMessage`: the record is offered to the inbound ring; a record the ring refuses is dropped. */
    method ReceiveMessage(msgType: int32, bytes: seq<byte>)
      modifies poller.ring
      ensures old(poller.ring.Valid()) ==> poller.ring.Valid()
      ensures poller.ring.records
           == if Used(old(poller.ring.records)) + Footprint(|bytes|) <= poller.ring.capacity
              then old(poller.ring.records) + [InboundRecord(msgType, bytes)]
              else old(poller.ring.records)
    {
      var written := poller.ring.Write(msgType, bytes);
    }

    /** `startOperation`: the client id and the correlation id go into the request's header, the rest of it kept. */
    method StartOperation(request: Flyweight, correlationId: int64)
      requires HeaderWritable(request)
      modifies request.writeBuffer
      ensures request.writeBuffer[..] == Started(old(request.writeBuffer[..]), request.offset, clientId, correlationId)
    {
      SetClientId(request, clientId);
      SetCorrelationId(request, correlationId);
    }

    /** `checkForErrors`: a timeout becomes ConnectionTimeoutException. */
    method CheckForErrors(status: CallStatus) returns (r: Status)
      ensures r == Done <==> status == ResponseReceived
      ensures r != Done ==> r == Thrown(ConnectionTimeout)
    {
      if status == Timeout {
        return Thrown(ConnectionTimeout);
      }
      return Done;
    }

    /**
      The wait after the send: the deadline is the first clock reading plus
      the wait timeout, the poll takes the readings after it, and the
      outcome goes through `checkForErrors`.
    */
    method AwaitResponse(correlationId: int64, clock: seq<int64>) returns (r: Result<CallStatus>)
      requires Valid() && CallReady(clock, waitTimeoutNs)
      modifies poller, poller.buffer, poller.ring
      ensures Valid()
      ensures var p := Await(old(poller.ring.records), old(poller.buffer[..]), clock, waitTimeoutNs, correlationId);
        && (Answer(p).Err? ==> r == Err(Answer(p).error))
        && (Answer(p).Ok? ==> r == Ok(ResponseReceived) && poller.buffer[..] == Answer(p).value)
        && (p.Ok? ==> poller.ring.records == p.value.rest)
    {
      var nanoTime := clock[0];
      var deadline := AddLong(nanoTime, waitTimeoutNs);
      var status, readings := poller.PollNextMessage(deadline, correlationId, clock[1..]);
      if status.Err? {
        return Err(status.error);
      }
      var checked := CheckForErrors(status.value);
      if checked.Thrown? {
        return Err(checked.error);
      }
      r := status;
    }

    /**
      The first half of `makeCall`: the request is stamped with this
      client's id and the correlation id and sent through the registered
      publication; only its header changes.
    */
    method Dispatch(request: Flyweight, sizeInBytes: nat, correlationId: int64, offers: seq<int>) returns (sent: Status)
      requires HeaderWritable(request) && CanRead(request, 0, sizeInBytes)
      requires registration.publication != null && !registration.publication.publication.closed ==> Settles(offers, true)
      modifies request.writeBuffer
      modifies if registration.publication != null then {registration.publication.publication} else {}
      ensures registration.publication == null ==> sent == Thrown(NullPointer)
      ensures registration.publication != null && old(registration.publication.publication.closed) ==> sent == Thrown(IllegalState)
      ensures sent == Done || sent == Thrown(NullPointer) || sent == Thrown(IllegalState)
      ensures registration.publication == null || old(registration.publication.publication.closed) ==>
        request.writeBuffer[..] == Started(old(request.writeBuffer[..]), request.offset, clientId, correlationId)
      ensures registration.publication != null && !old(registration.publication.publication.closed) ==>
        && request.writeBuffer[..] == Routed(old(request.writeBuffer[..]), request.offset, registration.publication.connectionId, clientId, correlationId)
        && (sent == Done <==> Outcome(offers, true) == Accepted)
      ensures sent != Done && registration.publication != null ==>
        registration.publication.publication.log == old(registration.publication.publication.log)
      ensures sent == Done ==>
        && registration.publication != null
        && registration.publication.publication.log == old(registration.publication.publication.log) + [ReadBytes(request, 0, sizeInBytes)]
    {
      ghost var s0, base := request.writeBuffer[..], request.offset;
      StartOperation(request, correlationId);
      ghost var s2 := request.writeBuffer[..];
      assert s2 == Started(s0, base, clientId, correlationId);
      sent := registration.Send(request, sizeInBytes, offers);
    }

    /**
      `makeCall`: stamps the request, sends it through the registered
      publication, and awaits the response; `sent` is how the send ended.
      A failed send ends the call with its exception before any wait.
    */
    method MakeCall(request: Flyweight, sizeInBytes: nat, correlationId: int64, clock: seq<int64>, offers: seq<int>)
      returns (r: Result<CallStatus>, ghost sent: Status)
      requires Valid() && HeaderWritable(request) && CanRead(request, 0, sizeInBytes)
      requires request.writeBuffer != poller.buffer
      requires CallReady(clock, waitTimeoutNs)
      requires registration.publication != null && !registration.publication.publication.closed ==> Settles(offers, true)
      modifies request.writeBuffer, poller, poller.buffer, poller.ring
      modifies if registration.publication != null then {registration.publication.publication} else {}
      ensures Valid()
      ensures registration.publication == null ==> sent == Thrown(NullPointer)
      ensures registration.publication != null && old(registration.publication.publication.closed) ==> sent == Thrown(IllegalState)
      ensures sent == Done || sent == Thrown(NullPointer) || sent == Thrown(IllegalState)
      ensures registration.publication == null || old(registration.publication.publication.closed) ==>
        request.writeBuffer[..] == Started(old(request.writeBuffer[..]), request.offset, clientId, correlationId)
      ensures registration.publication != null && !old(registration.publication.publication.closed) ==>
        && request.writeBuffer[..] == Routed(old(request.writeBuffer[..]), request.offset, registration.publication.connectionId, clientId, correlationId)
        && (sent == Done <==> Outcome(offers, true) == Accepted)
      ensures sent != Done ==> r == Err(sent.error) && poller.ring.records == old(poller.ring.records) && poller.buffer[..] == old(poller.buffer[..])
      ensures sent != Done && registration.publication != null ==>
        registration.publication.publication.log == old(registration.publication.publication.log)
      ensures sent == Done ==>
        && registration.publication != null
        && registration.publication.publication.log == old(registration.publication.publication.log) + [ReadBytes(request, 0, sizeInBytes)]
      ensures sent == Done ==>
        var p := Await(old(poller.ring.records), old(poller.buffer[..]), clock, waitTimeoutNs, correlationId);
        && (Answer(p).Err? ==> r == Err(Answer(p).error))
        && (Answer(p).Ok? ==> r == Ok(ResponseReceived) && poller.buffer[..] == Answer(p).value)
        && (p.Ok? ==> poller.ring.records == p.value.rest)
    {
      var st := Dispatch(request, sizeInBytes, correlationId, offers);
      sent := st;
      if st != Done {
        return Err(st.error), sent;
      }
      ghost var bytes, s3 := ReadBytes(request, 0, sizeInBytes), request.writeBuffer[..];
      ghost var log := registration.publication.publication.log;
      r := AwaitResponse(correlationId, clock);
      assert request.writeBuffer[..] == s3;
      assert ReadBytes(request, 0, sizeInBytes) == bytes;
      assert registration.publication.publication.log == log;
    }
  }
}
