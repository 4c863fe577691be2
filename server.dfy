/**
  The server end of the RPC runtime. Every fragment that reaches the server
  is either a handshake (CREATE_CONNECTION), which opens a publication back
  to the client, files it under a fresh connection id and acknowledges it,
  or a request on a known connection, which goes to the service handler and
  whose response is sent back stamped with the request's ids. A connection
  whose handler or publication fails is closed and forgotten; fragments on
  unknown connections are dropped.

  The transport's answers (does the new publication connect in time, what
  each offer returns), the id generator and the handler's response are
  parameters of the operations.
*/
module Server {
  import opened Bytes
  import opened Errors
  import opened Flyweight
  import opened Message
  import opened SystemMessageTypes
  import opened AeronPublication
  import opened ConnectionPublication
  import opened InboundRing
  import opened ServiceClient
  import opened ConnectionControlClient
  import CreateConnectionCommand
  import ConnectionAckResponse

  /** How long, in milliseconds, a new client publication may take to connect. */
  const CLIENT_CONNECTION_TIMEOUT: int := 1000

  /**
    The client channel a CREATE_CONNECTION fragment names, or the exception
    reading it throws: NegativeArraySizeException for a negative length
    prefix. A fragment too short to hold the channel (or the stream id
    before it) is the model's own choice of IndexOutOfBoundsException: the
    fragment is taken to be its own buffer, where the source's reads would
    go on into Aeron's term or reassembly buffer.
  */
  function CommandChannel(bytes: seq<byte>): Result<seq<byte>>
  {
    if |bytes| < CreateConnectionCommand.CLIENT_CHANNEL_FIELD_OFFSET + SIZE_OF_INT then Err(IndexOutOfBounds)
    else CreateConnectionCommand.StringAt(bytes, CreateConnectionCommand.CLIENT_CHANNEL_FIELD_OFFSET)
  }

  /** The acknowledgement the server sends: a bare header of the ack type carrying the three ids. */
  function SentAck(connectionId: int64, clientId: int32, correlationId: int64): (r: seq<byte>)
    ensures |r| == ConnectionAckResponse.MESSAGE_SIZE
  {
    EncodeHeader(Header(CONNECTION_ACK_MESSAGE_TYPE, connectionId, clientId, correlationId))
  }

  /** The acknowledgement reads back as an ack addressed to the client and call it answers. */
  lemma SentAckHeader(connectionId: int64, clientId: int32, correlationId: int64)
    ensures HeaderAt(SentAck(connectionId, clientId, correlationId), 0)
         == Header(CONNECTION_ACK_MESSAGE_TYPE, connectionId, clientId, correlationId)
  {
    HeaderRoundTrip(Header(CONNECTION_ACK_MESSAGE_TYPE, connectionId, clientId, correlationId));
  }

  /**
    The two ends of the handshake agree: once the acknowledgement the server
    sends to the handshake client heads that client's inbound queue, the
    client's handshake returns the connection id the server assigned.
  */
  lemma AckCompletesHandshake(rest: seq<InboundRecord>, buffer: seq<byte>, clock: seq<int64>,
                              connectionId: int64, correlationId: int64)
    requires |buffer| == MAX_RESPONSE_SIZE && CallReady(clock, WAIT_TIMEOUT_NS)
    ensures Handshake([InboundRecord(CONNECTION_ACK_MESSAGE_TYPE, SentAck(connectionId, CONNECTION_CONTROL_CLIENT_ID, correlationId))] + rest,
                      buffer, clock, correlationId)
         == Ok(connectionId)
  {
    AckedHandshake(rest, buffer, clock, connectionId, correlationId);
  }

  /** The handler's response can be stamped and sent: a message bound for writing that holds `size` bytes. */
  predicate Sendable(response: Flyweight, size: nat)
    reads response
  {
    HeaderWritable(response) && CanRead(response, 0, size)
  }

  class Server {
    var connections: map<int64, ConnectionPublication>
    var running: bool
    const ack: Flyweight

    /** The transport publications of the connections the server knows. */
    ghost function Publications(): set<Publication>
      reads this
    {
      set k | k in connections :: connections[k].publication
    }

    /**
      The ack is a header-sized message of its own type at the start of a
      buffer of its own; every connection is filed under its own id, no two
      share a publication, and while the server runs every one of them is open.
    */
    ghost predicate Valid()
      reads this, ack, ack.writeBuffer, Publications()
    {
      Filed() && OpenExcept({})
    }

    ghost predicate Filed()
      reads this, ack, ack.writeBuffer
    {
      && ack.Valid() && ack.writeBuffer != null && ack.offset == 0
      && ack.writeBuffer.Length == ConnectionAckResponse.MESSAGE_SIZE
      && HeaderOf(ack).msgType == CONNECTION_ACK_MESSAGE_TYPE
      && (forall k | k in connections :: connections[k].connectionId == k)
      && (forall k, j | k in connections && j in connections && k != j :: connections[k].publication != connections[j].publication)
    }

    /** While the server runs, every connection outside `failed` is open. */
    ghost predicate OpenExcept(failed: set<int64>)
      reads this, Publications()
    {
      running ==> forall k | k in connections && k !in failed :: !connections[k].publication.closed
    }

    /** A running server with no connections and its acknowledgement message allocated. */
    constructor ()
      ensures Valid() && running && connections == map[]
      ensures fresh(ack) && fresh(ack.writeBuffer)
    {
      connections := map[];
      running := true;
      ack := new Flyweight();
      new;
      AllocateMemoryForMessage(ack, ConnectionAckResponse.MESSAGE_SIZE, ConnectionAckResponse.UniqueType());
    }

    /** The fragment makes the server offer something: an ack to a new connection, or a response on an open one. */
    ghost predicate Sends(bytes: seq<byte>, publicationConnects: bool, handled: Result<Flyweight>)
      reads this, Publications()
      requires |bytes| >= MESSAGE_HEADER_LENGTH
    {
      var h := HeaderAt(bytes, 0);
      if h.msgType == CreateConnectionCommand.UniqueType() then CommandChannel(bytes).Ok? && publicationConnects
      else h.connectionId in connections && handled.Ok? && !connections[h.connectionId].publication.closed
    }

    /**
      Handles one fragment. A handshake whose channel cannot be read throws
      what reading it throws; every other failure is caught. A handshake
      whose publication connects in time and whose ack is accepted files the
      new connection under `nextConnectionId`; a request on a known
      connection is answered with the handler's response, or the connection
      is closed and forgotten when the handler or the send fails.
    */
    method OnMessage(bytes: seq<byte>, nextConnectionId: int64, publicationConnects: bool,
                     handled: Result<Flyweight>, responseSize: nat, offers: seq<int>)
      returns (r: Status, ghost created: ConnectionPublication?)
      requires Valid() && |bytes| >= MESSAGE_HEADER_LENGTH
      requires handled.Ok? ==> Sendable(handled.value, responseSize) && handled.value.writeBuffer != ack.writeBuffer
      requires Sends(bytes, publicationConnects, handled) ==> Settles(offers, false)
      modifies this`connections, ack.writeBuffer, Publications(), if handled.Ok? then {handled.value.writeBuffer} else {}
      ensures Valid()
      ensures HeaderAt(bytes, 0).msgType == CreateConnectionCommand.UniqueType() ==>
        Connected(bytes, nextConnectionId, publicationConnects, offers, r, created, old(connections), connections)
      ensures HeaderAt(bytes, 0).msgType == CreateConnectionCommand.UniqueType() ==>
        forall p | p in old(Publications()) :: p.log == old(p.log) && p.closed == old(p.closed)
      ensures HeaderAt(bytes, 0).msgType == CreateConnectionCommand.UniqueType() && created != null ==>
        fresh(created) && fresh(created.publication) && created.publication.log == Acked(bytes, nextConnectionId, offers)
      ensures HeaderAt(bytes, 0).msgType != CreateConnectionCommand.UniqueType() ==> r == Done && created == null
      ensures HeaderAt(bytes, 0).msgType != CreateConnectionCommand.UniqueType() ==>
        var h := HeaderAt(bytes, 0);
        && (h.connectionId !in old(connections) ==> connections == old(connections))
        && (forall p | p in old(Publications()) && (h.connectionId !in old(connections) || p != old(connections)[h.connectionId].publication)
              :: p.log == old(p.log) && p.closed == old(p.closed))
      ensures HeaderAt(bytes, 0).msgType != CreateConnectionCommand.UniqueType() && HeaderAt(bytes, 0).connectionId in old(connections) ==>
        var h := HeaderAt(bytes, 0);
        var p := old(connections)[h.connectionId].publication;
        var replied := handled.Ok? && !old(p.closed) && Outcome(offers, false) == Accepted;
        && (replied ==> connections == old(connections) && !p.closed && p.log == old(p.log) + [ReadBytes(handled.value, 0, responseSize)])
        && (replied ==> HeaderOf(handled.value) == old(HeaderOf(handled.value)).(connectionId := h.connectionId, clientId := h.clientId, correlationId := h.correlationId))
        && (!replied ==> connections == old(connections) - {h.connectionId} && p.closed && p.log == old(p.log))
    {
      if GetInt(bytes, TYPE_FIELD_OFFSET) == CreateConnectionCommand.UniqueType() {
        r, created := OnConnect(bytes, nextConnectionId, publicationConnects, offers);
      } else {
        OnRequest(bytes, handled, responseSize, offers);
        r, created := Done, null;
      }
    }

    /**
      The outcome of a handshake fragment: an unreadable channel throws and
      changes nothing; a publication that does not connect in time changes
      nothing; otherwise a new connection with id `nextConnectionId` exists,
      and it is filed exactly when its ack was accepted.
    */
    ghost predicate Connected(bytes: seq<byte>, nextConnectionId: int64, publicationConnects: bool, offers: seq<int>,
                              r: Status, created: ConnectionPublication?,
                              before: map<int64, ConnectionPublication>, after: map<int64, ConnectionPublication>)
      reads if created != null then {created.publication} else {}
    {
      && (CommandChannel(bytes).Err? ==> r == Thrown(CommandChannel(bytes).error) && created == null && after == before)
      && (CommandChannel(bytes).Ok? ==> r == Done)
      && (CommandChannel(bytes).Ok? && !publicationConnects ==> created == null && after == before)
      && (CommandChannel(bytes).Ok? && publicationConnects ==>
            && created != null && created.connectionId == nextConnectionId
            && (Outcome(offers, false) == Accepted ==> after == before[nextConnectionId := created] && !created.publication.closed)
            && (Outcome(offers, false) != Accepted ==> after == before && created.publication.closed))
    }

    /** What the new connection's publication carries: the ack addressed to the handshake's client and call, once it was accepted. */
    ghost function Acked(bytes: seq<byte>, nextConnectionId: int64, offers: seq<int>): seq<seq<byte>>
      requires |bytes| >= MESSAGE_HEADER_LENGTH
    {
      var h := HeaderAt(bytes, 0);
      if Outcome(offers, false) == Accepted then [SentAck(nextConnectionId, h.clientId, h.correlationId)] else []
    }

    method OnConnect(bytes: seq<byte>, nextConnectionId: int64, publicationConnects: bool, offers: seq<int>)
      returns (r: Status, ghost created: ConnectionPublication?)
      requires Valid() && |bytes| >= MESSAGE_HEADER_LENGTH
      requires CommandChannel(bytes).Ok? && publicationConnects ==> Settles(offers, false)
      modifies this`connections, ack.writeBuffer
      ensures Valid()
      ensures Connected(bytes, nextConnectionId, publicationConnects, offers, r, created, old(connections), connections)
      ensures forall p | p in old(Publications()) :: p.log == old(p.log) && p.closed == old(p.closed)
      ensures created != null ==>
        fresh(created) && fresh(created.publication) && created.publication.log == Acked(bytes, nextConnectionId, offers)
    {
      var h := HeaderAt(bytes, 0);
      var channel := CommandChannel(bytes);
      if channel.Err? {
        return Thrown(channel.error), null;
      }
      var streamId := GetInt(bytes, CreateConnectionCommand.CLIENT_STREAM_ID_FIELD_OFFSET);
      var connection := CreateConnection(channel.value, streamId, nextConnectionId, publicationConnects);
      created := connection;
      if connection == null {
        return Done, null;
      }
      assert connection.publication !in Publications();
      var sent := Accept(connection, h.clientId, h.correlationId, offers);
      r := Done;
    }

    /**
      The guarded part of `onConnect`: the ack is sent on the new connection,
      which is then filed under its id; when the send throws, the connection
      is closed instead.
    */
    method Accept(connection: ConnectionPublication, clientId: int32, correlationId: int64, offers: seq<int>)
      returns (sent: Status)
      requires Valid() && !connection.publication.closed && connection.publication.log == []
      requires connection.publication !in Publications() && Settles(offers, false)
      modifies this`connections, ack.writeBuffer, connection.publication
      ensures Valid()
      ensures sent == Done <==> Outcome(offers, false) == Accepted
      ensures sent == Done ==> connections == old(connections)[connection.connectionId := connection] && !connection.publication.closed
      ensures sent != Done ==> connections == old(connections) && connection.publication.closed
      ensures connection.publication.log == if sent == Done then [SentAck(connection.connectionId, clientId, correlationId)] else []
    {
      sent := Acknowledge(connection, clientId, correlationId, offers);
      if sent == Done {
        var id := connection.GetConnectionId();
        File(id, connection);
      } else {
        connection.Close();
      }
    }

    /** Files an open connection, whose publication no other connection has, under its id. */
    method File(id: int64, connection: ConnectionPublication)
      requires Valid() && id == connection.connectionId
      requires !connection.publication.closed && connection.publication !in Publications()
      modifies this`connections
      ensures Valid() && connections == old(connections)[id := connection]
    {
      connections := connections[id := connection];
    }

    /** Sends the ack on a new connection, addressed to the handshake's client and call. */
    method Acknowledge(connection: ConnectionPublication, clientId: int32, correlationId: int64, offers: seq<int>)
      returns (sent: Status)
      requires Valid() && !connection.publication.closed && connection.publication.log == []
      requires connection.publication !in Publications() && Settles(offers, false)
      modifies ack.writeBuffer, connection.publication
      ensures Valid()
      ensures sent == Done <==> Outcome(offers, false) == Accepted
      ensures sent == Done ==> !connection.publication.closed
      ensures connection.publication.log == if sent == Done then [SentAck(connection.connectionId, clientId, correlationId)] else []
    {
      ghost var attempts;
      sent, attempts := connection.SendResponse(ack, ConnectionAckResponse.MESSAGE_SIZE, clientId, correlationId, offers);
      SentIsOutcome(offers, false, attempts, sent, connection.publication.closed, connection.publication.log, [],
                    ReadBytes(ack, 0, ConnectionAckResponse.MESSAGE_SIZE));
      assert ReadBytes(ack, 0, ConnectionAckResponse.MESSAGE_SIZE) == ack.writeBuffer[..];
      HeaderBytes(ack.writeBuffer[..]);
    }

    /**
      Opens a publication to the client's channel and wraps it as connection
      `connectionId`, or gives nothing (the publication closed) when it does
      not connect within CLIENT_CONNECTION_TIMEOUT.
    */
    static method CreateConnection(channel: seq<byte>, streamId: int32, connectionId: int64, connects: bool)
      returns (connection: ConnectionPublication?)
      ensures connects <==> connection != null
      ensures connection != null ==>
        && fresh(connection) && fresh(connection.publication) && connection.connectionId == connectionId
        && !connection.publication.closed && connection.publication.log == []
    {
      var publication := new Publication();
      if !connects {
        publication.Close();
        return null;
      }
      connection := new ConnectionPublication(connectionId, publication);
    }

    method OnRequest(bytes: seq<byte>, handled: Result<Flyweight>, responseSize: nat, offers: seq<int>)
      requires Valid() && |bytes| >= MESSAGE_HEADER_LENGTH
      requires HeaderAt(bytes, 0).msgType != CreateConnectionCommand.UniqueType()
      requires handled.Ok? ==> Sendable(handled.value, responseSize) && handled.value.writeBuffer != ack.writeBuffer
      requires Sends(bytes, false, handled) ==> Settles(offers, false)
      modifies this`connections, Publications(), if handled.Ok? then {handled.value.writeBuffer} else {}
      ensures Valid()
      ensures var h := HeaderAt(bytes, 0);
        && (h.connectionId !in old(connections) ==> connections == old(connections))
        && (forall p | p in old(Publications()) && (h.connectionId !in old(connections) || p != old(connections)[h.connectionId].publication)
              :: p.log == old(p.log) && p.closed == old(p.closed))
      ensures HeaderAt(bytes, 0).connectionId in old(connections) ==>
        var h := HeaderAt(bytes, 0);
        var p := old(connections)[h.connectionId].publication;
        var replied := handled.Ok? && !old(p.closed) && Outcome(offers, false) == Accepted;
        && (replied ==> connections == old(connections) && !p.closed && p.log == old(p.log) + [ReadBytes(handled.value, 0, responseSize)])
        && (replied ==> HeaderOf(handled.value) == old(HeaderOf(handled.value)).(connectionId := h.connectionId, clientId := h.clientId, correlationId := h.correlationId))
        && (!replied ==> connections == old(connections) - {h.connectionId} && p.closed && p.log == old(p.log))
    {
      var connectionId := GetLong(bytes, CONNECTION_ID_FIELD_OFFSET);
      var clientId := GetInt(bytes, CLIENT_ID_FIELD_OFFSET);
      var correlationId := GetLong(bytes, CORRELATION_ID_FIELD_OFFSET);
      if connectionId !in connections {
        return;
      }
      var connection := connections[connectionId];
      if handled.Err? {
        Forget(connectionId);
        return;
      }
      var sent := Reply(connection, handled.value, responseSize, clientId, correlationId, offers);
      if sent != Done {
        Forget(connectionId);
      }
    }

    /** Sends the handler's response on a known connection; only that connection's publication can fail. */
    method Reply(connection: ConnectionPublication, response: Flyweight, responseSize: nat,
                 clientId: int32, correlationId: int64, offers: seq<int>) returns (sent: Status)
      requires Valid() && connection.connectionId in connections && connections[connection.connectionId] == connection
      requires Sendable(response, responseSize) && response.writeBuffer != ack.writeBuffer
      requires !connection.publication.closed ==> Settles(offers, false)
      modifies response.writeBuffer, connection.publication
      ensures Filed() && OpenExcept({connection.connectionId})
      ensures sent == Done <==> !old(connection.publication.closed) && Outcome(offers, false) == Accepted
      ensures sent == Done ==>
        && !connection.publication.closed
        && connection.publication.log == old(connection.publication.log) + [ReadBytes(response, 0, responseSize)]
      ensures sent == Done ==> HeaderOf(response) == old(HeaderOf(response)).(connectionId := connection.connectionId, clientId := clientId, correlationId := correlationId)
      ensures sent != Done ==> connection.publication.log == old(connection.publication.log)
    {
      ghost var wasClosed := connection.publication.closed;
      ghost var attempts;
      sent, attempts := connection.SendResponse(response, responseSize, clientId, correlationId, offers);
      if !wasClosed {
        SentIsOutcome(offers, false, attempts, sent, connection.publication.closed, connection.publication.log,
                      old(connection.publication.log), ReadBytes(response, 0, responseSize));
      }
    }

    /** The handler or the send failed: the connection is closed and no longer known. */
    method Forget(connectionId: int64)
      requires Filed() && OpenExcept({connectionId}) && connectionId in connections
      modifies this`connections, connections[connectionId].publication
      ensures Valid() && connections == old(connections) - {connectionId}
      ensures var p := old(connections)[connectionId].publication; p.closed && p.log == old(p.log)
    {
      connections[connectionId].Close();
      connections := connections - {connectionId};
    }

    /** Stops the server and closes every connection it knows; the connections stay filed. */
    method Close()
      requires Valid()
      modifies this`running, Publications()
      ensures Valid() && !running && connections == old(connections)
      ensures forall k | k in connections :: connections[k].publication.closed
      ensures forall p | p in Publications() :: p.log == old(p.log)
    {
      running := false;
      var remaining := connections.Keys;
      while remaining != {}
        invariant remaining <= connections.Keys && !running && connections == old(connections)
        invariant forall k | k in connections && k !in remaining :: connections[k].publication.closed
        invariant forall p | p in Publications() :: p.log == old(p.log)
        decreases remaining
      {
        var k :| k in remaining;
        connections[k].Close();
        remaining := remaining - {k};
      }
    }
  }
}
