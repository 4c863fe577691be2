/**
  The client side's entry point (`AbstractServiceGateway`): it owns the pool
  of service clients, the handshake client and the registration every
  client sends through, connects to the server, and routes each inbound
  fragment to the client whose id is in its header.

  The transport's decisions are inputs: whether the publication and the
  subscription open, the answers to each offer, and the clock readings of
  the handshake's wait.
*/
module ServiceGateway {
  import opened Bytes
  import opened Errors
  import opened Message
  import opened AeronPublication
  import opened ServerPublication
  import opened InboundRing
  import opened ServiceClient
  import opened FixSizeObjectPool
  import opened ProtocolConfiguration
  import opened ConnectionControlClient
  import CreateConnectionCommand

  /** The handshake client's inbound ring holds 1024 bytes of records. */
  const CONTROL_RING_CAPACITY: nat := 1024

  /** The reader of the client subscription, as far as the gateway sees it: started, running, stopped. */
  class ReadCycleTask {
    const subscription: Subscription
    var running: bool

    constructor (subscription: Subscription)
      ensures this.subscription == subscription && !running
    {
      this.subscription := subscription;
      running := false;
    }

    /** `run` once the executor starts it: the task reports running until stopped. */
    method Run()
      modifies this
      ensures running
    {
      running := true;
    }

    method IsRunning() returns (b: bool)
      ensures b == running
    {
      b := running;
    }

    /** `stop`: the task stops and its subscription is closed. */
    method Stop()
      modifies this, subscription
      ensures !running && subscription.closed
    {
      running := false;
      subscription.Close();
    }
  }

  class ServiceGateway {
    /** Holds the registered publication the clients send through. */
    const registration: Registration
    const control: ConnectionControlClient
    const clients: FixSizeObjectPool<ServiceClient>
    var readCycleTask: ReadCycleTask?
    /** Whether the gateway's lock is held. */
    ghost var locked: bool

    /**
      Pooled client i has id i and sends through this gateway's
      registration, as the handshake client does.
    */
    ghost predicate Valid()
      reads control.client.poller.ring, control.command, control.ack, clients
    {
      && control.Valid() && control.client.registration == registration
      && clients.Valid()
      && forall i | 0 <= i < |clients.instances| ::
           clients.instances[i].registration == registration && clients.instances[i].clientId as int == i
    }

    /**
      The gateway over a pool of clients built for it: the handshake client
      gets the client channel and stream id the server should answer on. A
      channel too long for the handshake command makes the handshake
      client's construction throw IndexOutOfBoundsException, and with it
      the gateway's (`control.built`).
    */
    constructor (clientChannel: seq<byte>, clientStreamId: int32, registration: Registration, clients: FixSizeObjectPool<ServiceClient>)
      requires |clientChannel| <= CreateConnectionCommand.MAX_STRING_BYTES
      requires clients.Valid()
      requires forall i | 0 <= i < |clients.instances| ::
        clients.instances[i].registration == registration && clients.instances[i].clientId as int == i
      ensures control.built == Done <==> SIZE_OF_INT + |clientChannel| <= MAX_CHANNEL_LENGTH
      ensures control.built != Done ==> control.built == Thrown(IndexOutOfBounds)
      ensures control.built == Done ==> Valid()
      ensures !locked && readCycleTask == null
      ensures this.registration == registration && this.clients == clients
      ensures control.built == Done ==> CreateConnectionCommand.ClientChannel(control.command) == Ok(clientChannel)
      ensures control.built == Done ==> CreateConnectionCommand.ClientStreamId(control.command) == clientStreamId
    {
      var ring := new RingBuffer(CONTROL_RING_CAPACITY);
      this.registration := registration;
      this.clients := clients;
      control := new ConnectionControlClient(clientChannel, clientStreamId, registration, ring);
      readCycleTask := null;
      locked := false;
    }

    /** The client an inbound header's client id names: the handshake client for -1, else the pool's instance. */
    function RouteOf(clientId: int32): Option<ServiceClient>
      reads this, clients
    {
      if clientId == CONNECTION_CONTROL_CLIENT_ID then Some(control.client)
      else if 0 <= clientId as int < |clients.instances| then Some(clients.instances[clientId])
      else None
    }

    /** The ring an inbound fragment with this client id is written to, if any. */
    function RoutedRing(clientId: int32): set<object>
      reads this, clients
    {
      var c := RouteOf(clientId);
      if c.None? then {} else {c.value.poller.ring}
    }

    /**
      `onFragment`: the fragment goes to the inbound ring of the client its
      header names; an id outside the pool raises the pool's
      IllegalArgumentException and nothing is written.
    */
    method OnFragment(bytes: seq<byte>) returns (r: Status)
      requires Valid() && |bytes| >= CLIENT_ID_FIELD_OFFSET + SIZE_OF_INT
      modifies RoutedRing(GetInt(bytes, CLIENT_ID_FIELD_OFFSET))
      ensures Valid()
      ensures var route := RouteOf(GetInt(bytes, CLIENT_ID_FIELD_OFFSET));
        && (route.None? ==> r == Thrown(IllegalArgument))
        && (route.Some? ==>
              var ring := route.value.poller.ring;
              && r == Done
              && (old(ring.Valid()) ==> ring.Valid())
              && ring.records == if Used(old(ring.records)) + Footprint(|bytes|) <= ring.capacity
                                 then old(ring.records) + [InboundRecord(GetInt(bytes, TYPE_FIELD_OFFSET), bytes)]
                                 else old(ring.records))
    {
      var messageType := GetInt(bytes, TYPE_FIELD_OFFSET);
      var clientId := GetInt(bytes, CLIENT_ID_FIELD_OFFSET);
      if clientId == CONNECTION_CONTROL_CLIENT_ID {
        control.client.ReceiveMessage(messageType, bytes);
        return Done;
      }
      var client := clients.GetInstance(clientId as int);
      if client.Err? {
        return Thrown(client.error);
      }
      client.value.ReceiveMessage(messageType, bytes);
      r := Done;
    }

    /** `getClient`: the pool's acquire under the lock; nothing when every client is handed out. */
    method GetClient() returns (c: Option<ServiceClient>)
      requires Valid() && !locked
      modifies this, clients
      ensures Valid() && !locked && readCycleTask == old(readCycleTask)
      ensures clients.instances == old(clients.instances)
      ensures old(clients.freeInstances) == [] ==> c == None && clients.freeInstances == []
      ensures old(clients.freeInstances) != [] ==>
        && c == Some(clients.instances[old(clients.freeInstances)[0]])
        && clients.freeInstances == old(clients.freeInstances)[1..]
    {
      locked := true;
      c := clients.AcquireInstance();
      locked := false;
    }

    /** `closeClient`: the pool's release of the client's id under the lock. */
    method CloseClient(client: ServiceClient) returns (r: Status)
      requires Valid() && !locked
      modifies this, clients
      ensures Valid() && !locked && readCycleTask == old(readCycleTask)
      ensures clients.instances == old(clients.instances)
      ensures r == Done <==> 0 <= client.clientId as int < |clients.instances|
      ensures r == Done ==> clients.freeInstances == old(clients.freeInstances) + [client.clientId as int]
      ensures r != Done ==> r == Thrown(IllegalArgument) && clients.freeInstances == old(clients.freeInstances)
    {
      locked := true;
      r := clients.FreeInstance(client.clientId as int);
      locked := false;
    }

    /**
      `connect`, under the lock: the previous reader and publication are
      closed; a new publication and subscription are opened (whether each
      opens is the transport's answer); the reader over the subscription is
      started; a placeholder publication with connection id 0 is registered
      so the handshake can go out; and once the handshake returns the
      server's id, the publication is registered again under that id. Any
      failure closes what was opened and ends in ConnectionException; the
      placeholder then stays registered and the reader keeps its running
      flag. `publication` and `subscription` are what was opened.
    */
    method Connect(publicationOpens: bool, subscriptionOpens: bool, correlationId: int64, clock: seq<int64>, offers: seq<int>)
      returns (r: Status, ghost publication: Publication?, ghost subscription: Subscription?)
      requires Valid() && !locked
      requires publicationOpens && subscriptionOpens ==> CallReady(clock, WAIT_TIMEOUT_NS) && Settles(offers, true)
      modifies this, registration, control.command.writeBuffer, control.client.poller, control.client.poller.buffer, control.client.poller.ring
      modifies if readCycleTask != null then {readCycleTask, readCycleTask.subscription} else {}
      modifies if registration.publication != null then {registration.publication.publication} else {}
      ensures Valid() && !locked
      ensures old(registration.publication) != null ==> old(registration.publication).publication.closed
      ensures old(readCycleTask) != null ==> !old(readCycleTask).running
      ensures old(readCycleTask) != null && old(readCycleTask.running) ==> old(readCycleTask).subscription.closed
      ensures publication != null <==> publicationOpens
      ensures subscription != null <==> publicationOpens && subscriptionOpens
      ensures publication != null ==> fresh(publication)
      ensures subscription != null ==> fresh(subscription)
      ensures r != Done ==>
        && r == Thrown(ConnectionFailure)
        && (publication != null ==> publication.closed)
        && (subscription != null ==> subscription.closed)
      ensures !(publicationOpens && subscriptionOpens) ==>
        r == Thrown(ConnectionFailure) && readCycleTask == old(readCycleTask) && registration.publication == old(registration.publication)
      ensures publicationOpens && subscriptionOpens ==>
        && readCycleTask != null && fresh(readCycleTask) && readCycleTask.subscription == subscription && readCycleTask.running
        && registration.publication != null && fresh(registration.publication) && registration.publication.publication == publication
        && var handshake := Handshake(old(control.client.poller.ring.records), old(control.client.poller.buffer[..]), clock, correlationId);
           && (r == Done <==> Outcome(offers, true) == Accepted && handshake.Ok?)
           && (r == Done ==> registration.publication.connectionId == handshake.value
                             && publication.log == [control.command.writeBuffer[..CreateConnectionCommand.MESSAGE_SIZE]])
           && (r != Done ==> registration.publication.connectionId == 0)
    {
      ghost var records, buffer := control.client.poller.ring.records, control.client.poller.buffer[..];
      locked := true;
      Close();
      assert Valid() && control.client.poller.ring.records == records && control.client.poller.buffer[..] == buffer;
      r, publication, subscription := Open(publicationOpens, subscriptionOpens, correlationId, clock, offers);
      locked := false;
    }

    /**
      The steps of `connect` after the previous state is closed: opening the
      publication and the subscription, starting the reader, and the
      handshake. Only what it opens and the gateway's own state change.
    */
    method Open(publicationOpens: bool, subscriptionOpens: bool, correlationId: int64, clock: seq<int64>, offers: seq<int>)
      returns (r: Status, ghost publication: Publication?, ghost subscription: Subscription?)
      requires Valid()
      requires publicationOpens && subscriptionOpens ==> CallReady(clock, WAIT_TIMEOUT_NS) && Settles(offers, true)
      modifies this, registration, control.command.writeBuffer, control.client.poller, control.client.poller.buffer, control.client.poller.ring
      ensures Valid() && locked == old(locked)
      ensures publication != null <==> publicationOpens
      ensures subscription != null <==> publicationOpens && subscriptionOpens
      ensures publication != null ==> fresh(publication)
      ensures subscription != null ==> fresh(subscription)
      ensures r != Done ==>
        && r == Thrown(ConnectionFailure)
        && (publication != null ==> publication.closed)
        && (subscription != null ==> subscription.closed)
      ensures !(publicationOpens && subscriptionOpens) ==>
        r == Thrown(ConnectionFailure) && readCycleTask == old(readCycleTask) && registration.publication == old(registration.publication)
      ensures publicationOpens && subscriptionOpens ==>
        && readCycleTask != null && fresh(readCycleTask) && readCycleTask.subscription == subscription && readCycleTask.running
        && registration.publication != null && fresh(registration.publication) && registration.publication.publication == publication
        && var handshake := Handshake(old(control.client.poller.ring.records), old(control.client.poller.buffer[..]), clock, correlationId);
           && (r == Done <==> Outcome(offers, true) == Accepted && handshake.Ok?)
           && (r == Done ==> registration.publication.connectionId == handshake.value
                             && publication.log == [control.command.writeBuffer[..CreateConnectionCommand.MESSAGE_SIZE]])
           && (r != Done ==> registration.publication.connectionId == 0)
    {
      if !publicationOpens {
        return Thrown(ConnectionFailure), null, null;
      }
      var pub := new Publication();
      publication := pub;
      if !subscriptionOpens {
        pub.Close();
        return Thrown(ConnectionFailure), publication, null;
      }
      var sub := new Subscription();
      subscription := sub;
      StartReader(sub);
      assert Valid();
      r := Register(pub, sub, correlationId, clock, offers);
    }

    /** The reader over the new subscription is created and started. */
    method StartReader(subscription: Subscription)
      modifies this
      ensures readCycleTask != null && fresh(readCycleTask) && readCycleTask.subscription == subscription && readCycleTask.running
      ensures locked == old(locked)
    {
      var task := new ReadCycleTask(subscription);
      readCycleTask := task;
      task.Run();
    }

    /**
      The handshake stage of `connect`: a placeholder with connection id 0
      is registered, the handshake goes out through it, and the id the
      server returns is registered in its place; a failed handshake closes
      the new publication and subscription instead.
    */
    method Register(publication: Publication, subscription: Subscription, correlationId: int64, clock: seq<int64>, offers: seq<int>)
      returns (r: Status)
      requires Valid() && !publication.closed && publication.log == []
      requires CallReady(clock, WAIT_TIMEOUT_NS) && Settles(offers, true)
      modifies registration, publication, subscription
      modifies control.command.writeBuffer, control.client.poller, control.client.poller.buffer, control.client.poller.ring
      ensures Valid()
      ensures registration.publication != null && fresh(registration.publication) && registration.publication.publication == publication
      ensures r != Done ==> r == Thrown(ConnectionFailure) && registration.publication.connectionId == 0
                            && publication.closed && subscription.closed
      ensures var handshake := Handshake(old(control.client.poller.ring.records), old(control.client.poller.buffer[..]), clock, correlationId);
        && (r == Done <==> Outcome(offers, true) == Accepted && handshake.Ok?)
        && (r == Done ==> registration.publication.connectionId == handshake.value
                          && publication.log == [control.command.writeBuffer[..CreateConnectionCommand.MESSAGE_SIZE]])
    {
      ghost var handshake := Handshake(control.client.poller.ring.records, control.client.poller.buffer[..], clock, correlationId);
      ghost var accepted := Outcome(offers, true) == Accepted;
      registration.publication := new ServerPublication(0, publication);
      ghost var pub := registration.publication;
      assert control.client.registration.publication == pub && !pub.publication.closed && pub.publication == publication;
      var connectionId, sent := control.Connect(correlationId, clock, offers);
      ghost var command := control.command.writeBuffer[..CreateConnectionCommand.MESSAGE_SIZE];
      assert (sent == Done <==> accepted) && (sent != Done ==> connectionId.Err?);
      assert sent == Done ==> connectionId == handshake && publication.log == [command];
      assert Valid() && registration.publication == pub;
      if connectionId.Err? {
        publication.Close();
        subscription.Close();
        return Thrown(ConnectionFailure);
      }
      registration.publication := new ServerPublication(connectionId.value, publication);
      r := Done;
    }

    /** `close`: a running reader is stopped, and the registered publication is closed. */
    method Close()
      modifies if readCycleTask != null then {readCycleTask, readCycleTask.subscription} else {}
      modifies if registration.publication != null then {registration.publication.publication} else {}
      ensures readCycleTask != null && old(readCycleTask.running) ==> !readCycleTask.running && readCycleTask.subscription.closed
      ensures readCycleTask != null && !old(readCycleTask.running) ==>
        !readCycleTask.running && readCycleTask.subscription.closed == old(readCycleTask.subscription.closed)
      ensures registration.publication != null ==>
        registration.publication.publication.closed && registration.publication.publication.log == old(registration.publication.publication.log)
    {
      if readCycleTask != null {
        var running := readCycleTask.IsRunning();
        if running {
          readCycleTask.Stop();
        }
      }
      if registration.publication != null {
        registration.publication.Close();
      }
    }
  }
}
