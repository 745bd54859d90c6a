/**
 * The in-process reference transport (`MemoryConnManager` and
 * `InMemoryTransport`) as a sequential state machine. The shared network is
 * an explicit unbounded channel value; each peer holds its transport (with
 * the private `msg_stack_queue`) and its `msg_queue`. Each background loop is
 * modelled by one iteration of its body, with the outcome of `try_lock` as
 * an input. Serialization is a `Codec` supplied by the caller.
 */
module InMemory {
  import opened Wrappers
  import opened Types

  /** Transport failures (`ConnError`). */
  datatype ConnError = LocationUnknown | TransportClosed | SerializationFailure

  /** A serialized message travelling between peers (`MessageOnTransit`). */
  datatype Envelope = Envelope(origin: PeerKey, originLoc: Option<Location>, target: PeerKey, data: Bytes)

  /**
   * The shared unbounded multi-producer multi-consumer channel: envelopes
   * leave in the order they entered, and `connected` is false once the
   * channel has been shut down.
   */
  datatype Channel = Channel(wires: seq<Envelope>, connected: bool)

  datatype TrySendResult = SendOk | SendFull | SendDisconnected
  datatype TryRecvResult = RecvOk(envelope: Envelope) | RecvEmpty | RecvDisconnected

  /** Serialization: encoding may fail; decoding returns `None` on malformed bytes. */
  datatype Codec = Codec(encode: Message -> Option<Bytes>, decode: Bytes -> Option<Message>)

  /** Whether a spawned background loop is still running. */
  datatype Task = Running | Stopped

  /**
   * One peer's endpoint: its key, location and openness as given at
   * construction, the inbound stack the filter loop fills, and that loop's
   * state.
   */
  datatype InMemoryTransport = InMemoryTransport(
    interfacePeer: PeerKey,
    location: Option<Location>,
    isOpen: bool,
    stack: seq<Envelope>,
    filterTask: Task)

  /** A peer's connection manager: its transport, the queue `recv` consumes, and the transfer loop's state. */
  datatype MemoryConnManager = MemoryConnManager(
    transport: InMemoryTransport,
    queue: seq<Message>,
    transferTask: Task)

  datatype ChannelSend = ChannelSend(channel: Channel, result: TrySendResult)
  datatype ChannelRecv = ChannelRecv(channel: Channel, result: TryRecvResult)
  datatype SendResult = SendResult(network: Channel, outcome: Outcome<ConnError>)
  datatype FilterResult = FilterResult(transport: InMemoryTransport, network: Channel)
  datatype RecvResult = RecvResult(manager: MemoryConnManager, received: Option<Message>)

  /** Every envelope in the peer's inbound stack is addressed to that peer. */
  predicate Addressed(t: InMemoryTransport)
  {
    forall i :: 0 <= i < |t.stack| ==> t.stack[i].target == t.interfacePeer
  }

  /** The parts of a transport fixed at construction. */
  predicate SameEndpoint(a: InMemoryTransport, b: InMemoryTransport)
  {
    a.interfacePeer == b.interfacePeer && a.location == b.location && a.isOpen == b.isOpen
  }

  /**
   * `try_send` on the unbounded channel: a connected channel takes the
   * envelope at its back and never reports `Full`; a shut-down one rejects
   * it and is left as it was.
   */
  function TrySend(c: Channel, e: Envelope): (r: ChannelSend)
    ensures r.result != SendFull
    ensures r.result == SendOk <==> c.connected
    ensures r.result == SendOk ==> r.channel == c.(wires := c.wires + [e])
    ensures r.result != SendOk ==> r.channel == c
  {
    if c.connected then ChannelSend(c.(wires := c.wires + [e]), SendOk)
    else ChannelSend(c, SendDisconnected)
  }

  /**
   * `try_recv` on the channel: the oldest envelope if there is one; otherwise
   * `Empty` while connected and `Disconnected` after shutdown.
   */
  function TryRecv(c: Channel): (r: ChannelRecv)
    ensures r.result.RecvOk? <==> |c.wires| > 0
    ensures r.result.RecvOk? ==> c.wires == [r.result.envelope] + r.channel.wires
    ensures r.result.RecvOk? ==> r.channel.connected == c.connected
    ensures !r.result.RecvOk? ==> r.channel == c
    ensures r.result.RecvDisconnected? <==> |c.wires| == 0 && !c.connected
  {
    if |c.wires| > 0 then ChannelRecv(c.(wires := c.wires[1..]), RecvOk(c.wires[0]))
    else if c.connected then ChannelRecv(c, RecvEmpty)
    else ChannelRecv(c, RecvDisconnected)
  }

  /**
   * `MemoryConnManager::new` (with `InMemoryTransport::new`): an endpoint with
   * the given key, openness and location, empty stack and queue, and both
   * background loops running. The shared network is not created here.
   */
  function NewManager(isOpen: bool, peer: PeerKey, location: Option<Location>): (m: MemoryConnManager)
    ensures m.transport.interfacePeer == peer
    ensures IsOpen(m.transport) == isOpen && LocationOf(m.transport) == location
    ensures m.transport.stack == [] && m.queue == []
    ensures m.transport.filterTask == Running && m.transferTask == Running
    ensures Addressed(m.transport)
  {
    MemoryConnManager(InMemoryTransport(peer, location, isOpen, [], Running), [], Running)
  }

  /** `Transport::is_open`. */
  function IsOpen(t: InMemoryTransport): bool
  {
    t.isOpen
  }

  /** `Transport::location`. */
  function LocationOf(t: InMemoryTransport): Option<Location>
  {
    t.location
  }

  /**
   * `InMemoryTransport::send`: puts one envelope on the network from this
   * peer to `peer`. The envelope's origin location is the location passed
   * in, which the caller takes from the target. A shut-down network is only
   * logged; a full one cannot occur on the unbounded channel.
   */
  function TransportSend(t: InMemoryTransport, net: Channel, peer: PeerKey, location: Location, message: Bytes): (r: Channel)
    ensures net.connected ==> r == net.(wires := net.wires + [Envelope(t.interfacePeer, Some(location), peer, message)])
    ensures !net.connected ==> r == net
  {
    var sent := TrySend(net, Envelope(t.interfacePeer, Some(location), peer, message));
    match sent.result
    case SendDisconnected => net
    case SendFull => assert false; net
    case SendOk => sent.channel
  }

  /**
   * `ConnectionBridge::send`. The message is serialized first, so a
   * serialization failure is reported whatever the target. A target without a
   * location is refused with `LocationUnknown` and the network is untouched.
   * Otherwise the result is `Ok`, even if the network has been shut down, and
   * a connected network gains exactly one envelope at its back.
   */
  function Send(m: MemoryConnManager, net: Channel, target: PeerKeyLocation, msg: Message, codec: Codec): (r: SendResult)
    ensures codec.encode(msg).None? ==> r == SendResult(net, Fail(SerializationFailure))
    ensures codec.encode(msg).Some? && target.location.None? ==> r == SendResult(net, Fail(LocationUnknown))
    ensures r.outcome.Pass? <==> codec.encode(msg).Some? && target.location.Some?
    ensures r.outcome.Pass? && net.connected ==>
      r.network == net.(wires := net.wires + [Envelope(m.transport.interfacePeer, target.location, target.peer, codec.encode(msg).value)])
    ensures !(r.outcome.Pass? && net.connected) ==> r.network == net
  {
    match codec.encode(msg)
    case None => SendResult(net, Fail(SerializationFailure))
    case Some(bytes) =>
      match target.location
      case None => SendResult(net, Fail(LocationUnknown))
      case Some(loc) => SendResult(TransportSend(m.transport, net, target.peer, loc, bytes), Pass)
  }

  /**
   * One iteration of the loop spawned by `InMemoryTransport::new`. It takes
   * the oldest envelope off the shared network and keeps it on this peer's
   * stack only if it is addressed to this peer; any other envelope is
   * dropped. An empty, connected network leaves everything as it is; an
   * empty, shut-down one ends the loop. A stopped loop does nothing.
   */
  function FilterStep(t: InMemoryTransport, net: Channel): (r: FilterResult)
    ensures SameEndpoint(r.transport, t)
    ensures Addressed(t) ==> Addressed(r.transport)
    ensures t.filterTask.Stopped? || |net.wires| == 0 ==> r.network == net
    ensures t.filterTask.Running? && |net.wires| > 0 ==>
      && r.network == net.(wires := net.wires[1..])
      && r.transport.filterTask == Running
      && r.transport.stack == t.stack + (if net.wires[0].target == t.interfacePeer then [net.wires[0]] else [])
    ensures t.filterTask.Running? && |net.wires| == 0 ==>
      && r.transport.stack == t.stack
      && (r.transport.filterTask.Running? <==> net.connected)
    ensures t.filterTask.Stopped? ==> r.transport == t
  {
    if t.filterTask.Stopped? then FilterResult(t, net)
    else
      var got := TryRecv(net);
      match got.result
      case RecvOk(e) =>
        if e.target == t.interfacePeer
        then FilterResult(t.(stack := t.stack + [e]), got.channel)
        else FilterResult(t, got.channel)
      case RecvDisconnected => FilterResult(t.(filterTask := Stopped), got.channel)
      case RecvEmpty => FilterResult(t, got.channel)
  }

  /**
   * One iteration of the loop spawned by `MemoryConnManager::new`. It pops
   * the most recent envelope off the stack and decodes it. If the queue's
   * lock is taken (`lockAcquired`) the message is appended to the queue;
   * otherwise it is lost. Bytes that do not decode abort the loop (the
   * source unwraps the decoding result). An empty stack, or a stopped
   * loop, changes nothing.
   */
  function TransferStep(m: MemoryConnManager, lockAcquired: bool, codec: Codec): (r: MemoryConnManager)
    ensures SameEndpoint(r.transport, m.transport)
    ensures r.transport.filterTask == m.transport.filterTask
    ensures Addressed(m.transport) ==> Addressed(r.transport)
    ensures m.transferTask.Stopped? || |m.transport.stack| == 0 ==> r == m
    ensures m.transferTask.Running? && |m.transport.stack| > 0 ==>
      var e := m.transport.stack[|m.transport.stack| - 1];
      && r.transport.stack == m.transport.stack[..|m.transport.stack| - 1]
      && (codec.decode(e.data).None? ==> r.transferTask == Stopped && r.queue == m.queue)
      && (codec.decode(e.data).Some? && lockAcquired ==>
            r.transferTask == Running && r.queue == m.queue + [codec.decode(e.data).value])
      && (codec.decode(e.data).Some? && !lockAcquired ==>
            r.transferTask == Running && r.queue == m.queue)
  {
    if m.transferTask.Stopped? || |m.transport.stack| == 0 then m
    else
      var e := m.transport.stack[|m.transport.stack| - 1];
      var m' := m.(transport := m.transport.(stack := m.transport.stack[..|m.transport.stack| - 1]));
      match codec.decode(e.data)
      case None => m'.(transferTask := Stopped)
      case Some(msg) =>
        if lockAcquired then m'.(queue := m'.queue + [msg]) else m'
  }

  /**
   * One iteration of `ConnectionBridge::recv`. With the lock acquired and a
   * non-empty queue it returns the most recently queued message and removes
   * it; otherwise it returns nothing, changes nothing, and the caller keeps
   * waiting.
   */
  function RecvStep(m: MemoryConnManager, lockAcquired: bool): (r: RecvResult)
    ensures r.manager.transport == m.transport && r.manager.transferTask == m.transferTask
    ensures r.received.Some? <==> lockAcquired && |m.queue| > 0
    ensures r.received.Some? ==> m.queue == r.manager.queue + [r.received.value]
    ensures r.received.None? ==> r.manager == m
  {
    if lockAcquired && |m.queue| > 0
    then RecvResult(m.(queue := m.queue[..|m.queue| - 1]), Some(m.queue[|m.queue| - 1]))
    else RecvResult(m, None)
  }

  /** `ConnectionBridge::add_connection`: the in-memory network is fully connected, so nothing changes. */
  function AddConnection(m: MemoryConnManager, peer: PeerKeyLocation, unsolicited: bool): (r: MemoryConnManager)
    ensures r == m
  {
    m
  }
}
