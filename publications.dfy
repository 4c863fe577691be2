/**
  The part of an Aeron publication the runtime relies on. Whether an offer is
  accepted is the transport's decision, so each offer is given the code the
  transport answers with: a non-negative position when the bytes were
  accepted, otherwise one of the negative codes below. `log` records the
  messages the transport accepted.
*/
module AeronPublication {
  import opened Bytes
  import opened Errors

  const NOT_CONNECTED: int := -1
  const BACK_PRESSURED: int := -2
  const ADMIN_ACTION: int := -3
  const CLOSED: int := -4
  const MAX_POSITION_EXCEEDED: int := -5

  class Publication {
    var closed: bool
    var log: seq<seq<byte>>

    constructor ()
      ensures !closed && log == []
    {
      closed := false;
      log := [];
    }

    method IsClosed() returns (b: bool)
      ensures b == closed
    {
      b := closed;
    }

    method Close()
      modifies this
      ensures closed && log == old(log)
    {
      closed := true;
    }

    /** Offers `bytes`; `answer` is the transport's reply, and accepted bytes join the log. */
    method Offer(bytes: seq<byte>, answer: int) returns (result: int)
      modifies this
      ensures result == answer && closed == old(closed)
      ensures log == if answer >= 0 then old(log) + [bytes] else old(log)
    {
      if answer >= 0 {
        log := log + [bytes];
      }
      result := answer;
    }
  }

  /** The receiving end of a stream; closing it stops delivery. */
  class Subscription {
    var closed: bool

    constructor ()
      ensures !closed
    {
      closed := false;
    }

    method Close()
      modifies this
      ensures closed
    {
      closed := true;
    }
  }

  /** How a publication wrapper reacts to an offer result. */
  datatype Verdict = Accepted | Retry | Fatal

  /** Some offer in `offers` settles the send loop under `verdict`. */
  predicate Settles(offers: seq<int>, client: bool)
  {
    exists k | 0 <= k < |offers| :: OfferVerdict(offers[k], client) != Retry
  }

  /**
    The client-side wrapper treats CLOSED and MAX_POSITION_EXCEEDED as fatal;
    the server-side wrapper also treats NOT_CONNECTED as fatal. Every other
    negative result is retried.
  */
  function OfferVerdict(result: int, client: bool): Verdict
  {
    if result >= 0 then Accepted
    else if result == CLOSED || result == MAX_POSITION_EXCEEDED then Fatal
    else if !client && result == NOT_CONNECTED then Fatal
    else Retry
  }

  /**
    What a send loop that made `attempts` offers of `bytes` has done: every
    answer before the last was a retry and the last was not; an accepted last answer means success
    and the bytes joined the log; a fatal one means IllegalStateException, a
    closed publication and an unchanged log.
  */
  predicate Sent(offers: seq<int>, client: bool, attempts: int, r: Status, closed: bool,
                 log: seq<seq<byte>>, oldLog: seq<seq<byte>>, bytes: seq<byte>)
  {
    && 1 <= attempts <= |offers|
    && (forall j | 0 <= j < attempts - 1 :: OfferVerdict(offers[j], client) == Retry)
    && OfferVerdict(offers[attempts - 1], client) != Retry
    && (OfferVerdict(offers[attempts - 1], client) == Accepted ==> r == Done && !closed && log == oldLog + [bytes])
    && (OfferVerdict(offers[attempts - 1], client) == Fatal ==> r == Thrown(IllegalState) && closed && log == oldLog)
  }

  /** A finished send loop either succeeded with the bytes logged or threw with the log unchanged. */
  lemma SentOutcome(offers: seq<int>, client: bool, attempts: int, r: Status, closed: bool,
                    log: seq<seq<byte>>, oldLog: seq<seq<byte>>, bytes: seq<byte>)
    requires Sent(offers, client, attempts, r, closed, log, oldLog, bytes)
    ensures r == Done ==> log == oldLog + [bytes] && !closed
    ensures r != Done ==> r == Thrown(IllegalState) && log == oldLog && closed
  {
  }

  /** The verdict of the first answer in `offers` that is not a retry; Retry when every answer is one. */
  function Outcome(offers: seq<int>, client: bool): Verdict
  {
    if offers == [] then Retry
    else if OfferVerdict(offers[0], client) != Retry then OfferVerdict(offers[0], client)
    else Outcome(offers[1..], client)
  }

  /** The first answer that is not a retry decides the outcome. */
  lemma {:induction false} OutcomeAt(offers: seq<int>, client: bool, k: nat)
    requires k < |offers| && OfferVerdict(offers[k], client) != Retry
    requires forall j | 0 <= j < k :: OfferVerdict(offers[j], client) == Retry
    ensures Outcome(offers, client) == OfferVerdict(offers[k], client)
  {
    if k > 0 {
      OutcomeAt(offers[1..], client, k - 1);
    }
  }

  /**
    However many offers a send loop made, it succeeded exactly when the
    first answer that is not a retry is an acceptance.
  */
  lemma SentIsOutcome(offers: seq<int>, client: bool, attempts: int, r: Status, closed: bool,
                      log: seq<seq<byte>>, oldLog: seq<seq<byte>>, bytes: seq<byte>)
    requires Sent(offers, client, attempts, r, closed, log, oldLog, bytes)
    ensures r == Done <==> Outcome(offers, client) == Accepted
  {
    OutcomeAt(offers, client, attempts - 1);
  }

  /** The two wrappers disagree on NOT_CONNECTED and on nothing else. */
  lemma VerdictsDifferOnlyOnNotConnected(result: int)
    ensures OfferVerdict(result, true) != OfferVerdict(result, false) <==> result == NOT_CONNECTED
    ensures OfferVerdict(NOT_CONNECTED, true) == Retry && OfferVerdict(NOT_CONNECTED, false) == Fatal
  {
  }
}

/**
  The client's handle on the server: every request it sends is stamped with
  the connection id the server assigned (0 before the handshake completes).
*/
module ServerPublication {
  import opened Bytes
  import opened Errors
  import opened Flyweight
  import opened Message
  import opened AeronPublication

  class ServerPublication {
    const connectionId: int64
    const publication: Publication

    constructor (connectionId: int64, publication: Publication)
      ensures this.connectionId == connectionId && this.publication == publication
    {
      this.connectionId := connectionId;
      this.publication := publication;
    }

    /**
      Stamps the connection id and offers the message's `sizeInBytes` bound
      bytes until the transport accepts them or answers with a fatal code;
      `attempts` is the number of offers made.
    */
    method SendRequest(message: Flyweight, sizeInBytes: nat, offers: seq<int>) returns (r: Status, ghost attempts: nat)
      requires HeaderWritable(message) && CanRead(message, 0, sizeInBytes)
      requires !publication.closed ==> Settles(offers, true)
      modifies message.writeBuffer, publication
      ensures old(publication.closed) ==> r == Thrown(IllegalState)
      ensures old(publication.closed) ==> message.writeBuffer[..] == old(message.writeBuffer[..]) && publication.log == old(publication.log)
      ensures !old(publication.closed) ==>
        && message.writeBuffer[..] == Splice(old(message.writeBuffer[..]), message.offset + CONNECTION_ID_FIELD_OFFSET, EncodeLong(connectionId))
        && Sent(offers, true, attempts, r, publication.closed, publication.log, old(publication.log),
                ReadBytes(message, 0, sizeInBytes))
    {
      var isClosed := publication.IsClosed();
      if isClosed {
        return Thrown(IllegalState), 0;
      }
      ghost var s0 := message.writeBuffer[..];
      SetConnectionId(message, connectionId);
      ghost var s1 := message.writeBuffer[..];
      assert s1 == Splice(s0, message.offset + CONNECTION_ID_FIELD_OFFSET, EncodeLong(connectionId));
      var bytes := ReadBytes(message, 0, sizeInBytes);
      ghost var log0 := publication.log;
      r, attempts := OfferLoop(bytes, offers);
      assert message.writeBuffer[..] == s1;
      assert ReadBytes(message, 0, sizeInBytes) == bytes;
    }

    /**
      The offer loop: offers `bytes` once per given answer until one is
      accepted or fatal; every earlier answer was a retry.
    */
    method OfferLoop(bytes: seq<byte>, offers: seq<int>) returns (r: Status, ghost attempts: nat)
      requires !publication.closed && Settles(offers, true)
      modifies publication
      ensures Sent(offers, true, attempts, r, publication.closed, publication.log, old(publication.log), bytes)
    {
      var i := 0;
      var result := publication.Offer(bytes, offers[0]);
      while result < 0
        invariant 0 <= i < |offers| && result == offers[i]
        invariant exists k | i <= k < |offers| :: OfferVerdict(offers[k], true) != Retry
        invariant forall j | 0 <= j < i :: OfferVerdict(offers[j], true) == Retry
        invariant !publication.closed
        invariant publication.log == if result >= 0 then old(publication.log) + [bytes] else old(publication.log)
        decreases |offers| - i
      {
        r := CheckResult(result);
        if r != Done {
          return r, i + 1;
        }
        i := i + 1;
        result := publication.Offer(bytes, offers[i]);
      }
      r, attempts := Done, i + 1;
    }

    /** A fatal result closes the publication and throws IllegalStateException. */
    method CheckResult(result: int) returns (r: Status)
      requires result < 0
      modifies publication
      ensures r == Done <==> OfferVerdict(result, true) == Retry
      ensures r != Done ==> r == Thrown(IllegalState) && publication.closed
      ensures r == Done ==> publication.closed == old(publication.closed)
      ensures publication.log == old(publication.log)
    {
      if result == CLOSED || result == MAX_POSITION_EXCEEDED {
        Close();
        return Thrown(IllegalState);
      }
      return Done;
    }

    method Close()
      modifies publication
      ensures publication.closed && publication.log == old(publication.log)
    {
      publication.Close();
    }
  }
}

/**
  The server's handle on one client connection: every response it sends is
  stamped with the connection id and with the client id and correlation id
  of the request it answers.
*/
module ConnectionPublication {
  import opened Bytes
  import opened Errors
  import opened Flyweight
  import opened Message
  import opened AeronPublication

  /** A buffer's bytes after the three header ids of the message at `base` are stamped. */
  function Stamped(s: seq<byte>, base: int, connectionId: int64, clientId: int32, correlationId: int64): (r: seq<byte>)
    requires 0 <= base && base + MESSAGE_HEADER_LENGTH <= |s|
    ensures |r| == |s|
  {
    var s1 := Splice(s, base + CONNECTION_ID_FIELD_OFFSET, EncodeLong(connectionId));
    var s2 := Splice(s1, base + CLIENT_ID_FIELD_OFFSET, EncodeInt(clientId));
    Splice(s2, base + CORRELATION_ID_FIELD_OFFSET, EncodeLong(correlationId))
  }

  /** Stamping sets exactly the three ids in the header; the message type is kept. */
  lemma StampedHeader(s: seq<byte>, base: int, connectionId: int64, clientId: int32, correlationId: int64)
    requires 0 <= base && base + MESSAGE_HEADER_LENGTH <= |s|
    ensures HeaderAt(Stamped(s, base, connectionId, clientId, correlationId), base)
         == HeaderAt(s, base).(connectionId := connectionId, clientId := clientId, correlationId := correlationId)
  {
    var s1 := Splice(s, base + CONNECTION_ID_FIELD_OFFSET, EncodeLong(connectionId));
    var s2 := Splice(s1, base + CLIENT_ID_FIELD_OFFSET, EncodeInt(clientId));
    PutConnectionIdAt(s, base, connectionId);
    PutClientIdAt(s1, base, clientId);
    PutCorrelationIdAt(s2, base, correlationId);
  }

  method StampIds(message: Flyweight, connectionId: int64, clientId: int32, correlationId: int64)
    requires HeaderWritable(message)
    modifies message.writeBuffer
    ensures message.writeBuffer[..] == Stamped(old(message.writeBuffer[..]), message.offset, connectionId, clientId, correlationId)
    ensures HeaderOf(message) == old(HeaderOf(message)).(connectionId := connectionId, clientId := clientId, correlationId := correlationId)
  {
    ghost var s0, base := message.writeBuffer[..], message.offset;
    WriteBytes(message, CONNECTION_ID_FIELD_OFFSET, EncodeLong(connectionId));
    WriteBytes(message, CLIENT_ID_FIELD_OFFSET, EncodeInt(clientId));
    WriteBytes(message, CORRELATION_ID_FIELD_OFFSET, EncodeLong(correlationId));
    assert message.writeBuffer[..] == Stamped(s0, base, connectionId, clientId, correlationId);
    StampedHeader(s0, base, connectionId, clientId, correlationId);
  }

  class ConnectionPublication {
    const connectionId: int64
    const publication: Publication

    constructor (connectionId: int64, publication: Publication)
      ensures this.connectionId == connectionId && this.publication == publication
    {
      this.connectionId := connectionId;
      this.publication := publication;
    }

    method GetConnectionId() returns (id: int64)
      ensures id == connectionId
    {
      id := connectionId;
    }

    /**
      Stamps the three header ids and offers the message's `sizeInBytes`
      bound bytes until the transport accepts them or answers with a fatal code.
    */
    method SendResponse(message: Flyweight, sizeInBytes: nat, clientId: int32, correlationId: int64, offers: seq<int>)
      returns (r: Status, ghost attempts: nat)
      requires HeaderWritable(message) && CanRead(message, 0, sizeInBytes)
      requires !publication.closed ==> Settles(offers, false)
      modifies message.writeBuffer, publication
      ensures old(publication.closed) ==> r == Thrown(IllegalState)
      ensures old(publication.closed) ==> message.writeBuffer[..] == old(message.writeBuffer[..]) && publication.log == old(publication.log)
      ensures !old(publication.closed) ==>
        && HeaderOf(message) == old(HeaderOf(message)).(connectionId := connectionId, clientId := clientId, correlationId := correlationId)
        && Sent(offers, false, attempts, r, publication.closed, publication.log, old(publication.log),
                ReadBytes(message, 0, sizeInBytes))
      ensures !old(publication.closed) ==>
        message.writeBuffer[..] == Stamped(old(message.writeBuffer[..]), message.offset, connectionId, clientId, correlationId)
    {
      var isClosed := publication.IsClosed();
      if isClosed {
        return Thrown(IllegalState), 0;
      }
      StampIds(message, connectionId, clientId, correlationId);
      ghost var stamped, header := message.writeBuffer[..], HeaderOf(message);
      var bytes := ReadBytes(message, 0, sizeInBytes);
      r, attempts := OfferLoop(bytes, offers);
      assert message.writeBuffer[..] == stamped;
      assert HeaderOf(message) == header && ReadBytes(message, 0, sizeInBytes) == bytes;
    }

    /**
      The offer loop: offers `bytes` once per given answer until one is
      accepted or fatal; every earlier answer was a retry.
    */
    method OfferLoop(bytes: seq<byte>, offers: seq<int>) returns (r: Status, ghost attempts: nat)
      requires !publication.closed && Settles(offers, false)
      modifies publication
      ensures Sent(offers, false, attempts, r, publication.closed, publication.log, old(publication.log), bytes)
    {
      var i := 0;
      var result := publication.Offer(bytes, offers[0]);
      while result < 0
        invariant 0 <= i < |offers| && result == offers[i]
        invariant exists k | i <= k < |offers| :: OfferVerdict(offers[k], false) != Retry
        invariant forall j | 0 <= j < i :: OfferVerdict(offers[j], false) == Retry
        invariant !publication.closed
        invariant publication.log == if result >= 0 then old(publication.log) + [bytes] else old(publication.log)
        decreases |offers| - i
      {
        r := CheckResult(result);
        if r != Done {
          return r, i + 1;
        }
        i := i + 1;
        result := publication.Offer(bytes, offers[i]);
      }
      r, attempts := Done, i + 1;
    }

    /** A fatal result (NOT_CONNECTED included) closes the publication and throws IllegalStateException. */
    method CheckResult(result: int) returns (r: Status)
      requires result < 0
      modifies publication
      ensures r == Done <==> OfferVerdict(result, false) == Retry
      ensures r != Done ==> r == Thrown(IllegalState) && publication.closed
      ensures r == Done ==> publication.closed == old(publication.closed)
      ensures publication.log == old(publication.log)
    {
      if result == CLOSED || result == MAX_POSITION_EXCEEDED || result == NOT_CONNECTED {
        Close();
        return Thrown(IllegalState);
      }
      return Done;
    }

    method Close()
      modifies publication
      ensures publication.closed && publication.log == old(publication.log)
    {
      publication.Close();
    }
  }
}
