/**
 * Several peers sharing one in-memory network. A run interleaves sends, the
 * two background loops' iterations and `recv` iterations of any peers in any
 * order, with any outcome of each `try_lock`. The lemmas show that no peer
 * ever receives a message that was not sent to it, and that no step changes
 * a peer's key, location or openness.
 */
module InMemorySystem {
  import opened Wrappers
  import opened Types
  import opened InMemory

  /** The shared network and every peer's connection manager, by key. */
  datatype System = System(network: Channel, peers: map<PeerKey, MemoryConnManager>)

  /** One scheduling step of one peer. */
  datatype Event =
    | SendEv(from: PeerKey, target: PeerKeyLocation, msg: Message)
    | FilterEv(peer: PeerKey)
    | TransferEv(peer: PeerKey, lockAcquired: bool)
    | RecvEv(peer: PeerKey, lockAcquired: bool)
    | AddConnectionEv(peer: PeerKey, other: PeerKeyLocation, unsolicited: bool)

  /** A message handed to a peer by `recv`. */
  datatype Delivery = Delivery(peer: PeerKey, msg: Message)

  datatype StepResult = StepResult(system: System, delivered: seq<Delivery>)

  /** Perform one event; events naming an unknown peer change nothing. */
  function Step(s: System, codec: Codec, ev: Event): StepResult
  {
    match ev
    case SendEv(from, target, msg) =>
      if from !in s.peers then StepResult(s, [])
      else StepResult(s.(network := Send(s.peers[from], s.network, target, msg, codec).network), [])
    case FilterEv(p) =>
      if p !in s.peers then StepResult(s, [])
      else
        var r := FilterStep(s.peers[p].transport, s.network);
        StepResult(System(r.network, s.peers[p := s.peers[p].(transport := r.transport)]), [])
    case TransferEv(p, lockAcquired) =>
      if p !in s.peers then StepResult(s, [])
      else StepResult(s.(peers := s.peers[p := TransferStep(s.peers[p], lockAcquired, codec)]), [])
    case RecvEv(p, lockAcquired) =>
      if p !in s.peers then StepResult(s, [])
      else
        var r := RecvStep(s.peers[p], lockAcquired);
        StepResult(s.(peers := s.peers[p := r.manager]),
                   if r.received.Some? then [Delivery(p, r.received.value)] else [])
    case AddConnectionEv(p, other, unsolicited) =>
      if p !in s.peers then StepResult(s, [])
      else StepResult(s.(peers := s.peers[p := AddConnection(s.peers[p], other, unsolicited)]), [])
  }

  /** Perform `evs` in order: the final system and every delivery, in order. */
  function Run(s: System, codec: Codec, evs: seq<Event>): StepResult
    decreases |evs|
  {
    if evs == [] then StepResult(s, [])
    else
      var prefix := Run(s, codec, evs[..|evs| - 1]);
      var last := Step(prefix.system, codec, evs[|evs| - 1]);
      StepResult(last.system, prefix.delivered + last.delivered)
  }

  /** The envelope a send event addresses, when it gets past serialization and the location check. */
  function Addressing(codec: Codec, ev: Event): set<Envelope>
  {
    if ev.SendEv? && codec.encode(ev.msg).Some? && ev.target.location.Some?
    then {Envelope(ev.from, ev.target.location, ev.target.peer, codec.encode(ev.msg).value)}
    else {}
  }

  /** Every envelope the sends in `evs` address. */
  function Produced(codec: Codec, evs: seq<Event>): set<Envelope>
    decreases |evs|
  {
    if evs == [] then {}
    else Produced(codec, evs[..|evs| - 1]) + Addressing(codec, evs[|evs| - 1])
  }

  /** `msg` decodes from some envelope in `sent` that was addressed to `k`. */
  predicate SentTo(sent: set<Envelope>, k: PeerKey, msg: Message, codec: Codec)
  {
    exists e :: e in sent && e.target == k && codec.decode(e.data) == Some(msg)
  }

  /** Peer `k`'s stack holds only envelopes sent to it, and its queue only messages sent to it. */
  predicate PeerInv(k: PeerKey, m: MemoryConnManager, sent: set<Envelope>, codec: Codec)
  {
    && m.transport.interfacePeer == k
    && Addressed(m.transport)
    && (forall i :: 0 <= i < |m.transport.stack| ==> m.transport.stack[i] in sent)
    && (forall i :: 0 <= i < |m.queue| ==> SentTo(sent, k, m.queue[i], codec))
  }

  /** Everything in flight in the system comes from `sent`, and sits only with its addressee. */
  predicate Inv(s: System, sent: set<Envelope>, codec: Codec)
  {
    && (forall i :: 0 <= i < |s.network.wires| ==> s.network.wires[i] in sent)
    && (forall k :: k in s.peers ==> PeerInv(k, s.peers[k], sent, codec))
  }

  /** A system in which nothing has been sent yet. */
  predicate Quiet(s: System)
  {
    && s.network.wires == []
    && forall k :: k in s.peers ==>
         s.peers[k].transport.interfacePeer == k && s.peers[k].transport.stack == [] && s.peers[k].queue == []
  }

  /** No peer was added or removed, and no endpoint's key, location or openness changed. */
  predicate SameEndpoints(a: System, b: System)
  {
    && a.peers.Keys == b.peers.Keys
    && forall k :: k in a.peers ==> SameEndpoint(a.peers[k].transport, b.peers[k].transport)
  }

  lemma PeerInvGrows(k: PeerKey, m: MemoryConnManager, sent: set<Envelope>, more: set<Envelope>, codec: Codec)
    requires PeerInv(k, m, sent, codec)
    ensures PeerInv(k, m, sent + more, codec)
  {
    forall i | 0 <= i < |m.queue|
      ensures SentTo(sent + more, k, m.queue[i], codec)
    {
      assert SentTo(sent, k, m.queue[i], codec);
      var e :| e in sent && e.target == k && codec.decode(e.data) == Some(m.queue[i]);
      assert e in sent + more;
    }
  }

  /** Growing the set of sent envelopes keeps the invariant. */
  lemma InvGrows(s: System, sent: set<Envelope>, more: set<Envelope>, codec: Codec)
    requires Inv(s, sent, codec)
    ensures Inv(s, sent + more, codec)
  {
    forall k | k in s.peers
      ensures PeerInv(k, s.peers[k], sent + more, codec)
    {
      PeerInvGrows(k, s.peers[k], sent, more, codec);
    }
  }

  /** No step adds or removes a peer or changes an endpoint's key, location or openness. */
  lemma StepKeepsEndpoints(s: System, codec: Codec, ev: Event)
    ensures SameEndpoints(s, Step(s, codec, ev).system)
  {
  }

  /** A send only appends the envelope it addresses to the network. */
  lemma SendKeepsInv(s: System, sent: set<Envelope>, codec: Codec, ev: Event)
    requires ev.SendEv? && ev.from in s.peers
    requires Inv(s, sent + Addressing(codec, ev), codec)
    ensures Inv(Step(s, codec, ev).system, sent + Addressing(codec, ev), codec)
  {
    var r := Send(s.peers[ev.from], s.network, ev.target, ev.msg, codec);
    var sent' := sent + Addressing(codec, ev);
    if r.outcome.Pass? && s.network.connected {
      assert s.peers[ev.from].transport.interfacePeer == ev.from;
      assert r.network.wires[|r.network.wires| - 1] in sent';
    }
  }

  /** A filter iteration moves an envelope to its addressee's stack or drops it. */
  lemma FilterKeepsInv(s: System, sent: set<Envelope>, codec: Codec, p: PeerKey)
    requires p in s.peers
    requires Inv(s, sent, codec)
    ensures Inv(Step(s, codec, FilterEv(p)).system, sent, codec)
  {
    var r := FilterStep(s.peers[p].transport, s.network);
    var s' := Step(s, codec, FilterEv(p)).system;
    assert s'.peers[p] == s.peers[p].(transport := r.transport);
    assert PeerInv(p, s'.peers[p], sent, codec);
  }

  /** A transfer iteration queues only what decodes from its own stack. */
  lemma TransferKeepsInv(s: System, sent: set<Envelope>, codec: Codec, p: PeerKey, lockAcquired: bool)
    requires p in s.peers
    requires Inv(s, sent, codec)
    ensures Inv(Step(s, codec, TransferEv(p, lockAcquired)).system, sent, codec)
  {
    var m := s.peers[p];
    var m' := TransferStep(m, lockAcquired, codec);
    if m.transferTask.Running? && |m.transport.stack| > 0 {
      var e := m.transport.stack[|m.transport.stack| - 1];
      assert e in sent && e.target == p;
      if codec.decode(e.data).Some? && lockAcquired {
        assert SentTo(sent, p, m'.queue[|m'.queue| - 1], codec);
      }
    }
    assert PeerInv(p, m', sent, codec);
  }

  /** A receive iteration hands out only a message from the receiver's own queue. */
  lemma RecvKeepsInv(s: System, sent: set<Envelope>, codec: Codec, p: PeerKey, lockAcquired: bool)
    requires p in s.peers
    requires Inv(s, sent, codec)
    ensures Inv(Step(s, codec, RecvEv(p, lockAcquired)).system, sent, codec)
    ensures forall j :: 0 <= j < |Step(s, codec, RecvEv(p, lockAcquired)).delivered| ==>
      Step(s, codec, RecvEv(p, lockAcquired)).delivered[j] == Delivery(p, Step(s, codec, RecvEv(p, lockAcquired)).delivered[j].msg) &&
      SentTo(sent, p, Step(s, codec, RecvEv(p, lockAcquired)).delivered[j].msg, codec)
  {
    var m := s.peers[p];
    var r := RecvStep(m, lockAcquired);
    if r.received.Some? {
      assert r.received.value == m.queue[|m.queue| - 1];
    }
    assert PeerInv(p, r.manager, sent, codec);
  }

  /**
   * One step keeps the invariant, with the envelopes the step addresses
   * added to `sent`; every delivery it makes was sent to its receiver; and it
   * keeps every endpoint as it was.
   */
  lemma StepPreservesInv(s: System, sent: set<Envelope>, codec: Codec, ev: Event)
    requires Inv(s, sent, codec)
    ensures Inv(Step(s, codec, ev).system, sent + Addressing(codec, ev), codec)
    ensures SameEndpoints(s, Step(s, codec, ev).system)
    ensures forall j :: 0 <= j < |Step(s, codec, ev).delivered| ==>
      Step(s, codec, ev).delivered[j].peer in s.peers &&
      SentTo(sent, Step(s, codec, ev).delivered[j].peer, Step(s, codec, ev).delivered[j].msg, codec)
  {
    var sent' := sent + Addressing(codec, ev);
    InvGrows(s, sent, Addressing(codec, ev), codec);
    StepKeepsEndpoints(s, codec, ev);
    match ev {
      case SendEv(from, target, msg) =>
        if from in s.peers {
          SendKeepsInv(s, sent, codec, ev);
        }
      case FilterEv(p) =>
        if p in s.peers {
          FilterKeepsInv(s, sent', codec, p);
        }
      case TransferEv(p, lockAcquired) =>
        if p in s.peers {
          TransferKeepsInv(s, sent', codec, p, lockAcquired);
        }
      case RecvEv(p, lockAcquired) =>
        if p in s.peers {
          RecvKeepsInv(s, sent, codec, p, lockAcquired);
          assert Addressing(codec, ev) == {};
          assert sent' == sent;
        }
      case AddConnectionEv(p, other, unsolicited) =>
    }
  }

  /**
   * No cross-delivery: in any run from a quiet system, every message a peer
   * receives was decoded from an envelope that one of the run's sends
   * addressed to that very peer; and at the end of the run every peer still
   * has the key, location and openness it was built with.
   */
  lemma {:induction false} RunDeliversOnlyToAddressee(s: System, codec: Codec, evs: seq<Event>)
    requires Quiet(s)
    ensures Inv(Run(s, codec, evs).system, Produced(codec, evs), codec)
    ensures SameEndpoints(s, Run(s, codec, evs).system)
    ensures forall j :: 0 <= j < |Run(s, codec, evs).delivered| ==>
      Run(s, codec, evs).delivered[j].peer in s.peers &&
      SentTo(Produced(codec, evs), Run(s, codec, evs).delivered[j].peer, Run(s, codec, evs).delivered[j].msg, codec)
    decreases |evs|
  {
    if evs == [] {
      assert Inv(s, {}, codec);
    } else {
      var init := evs[..|evs| - 1];
      var ev := evs[|evs| - 1];
      RunDeliversOnlyToAddressee(s, codec, init);
      var mid := Run(s, codec, init);
      var sent := Produced(codec, init);
      StepPreservesInv(mid.system, sent, codec, ev);
      var last := Step(mid.system, codec, ev);
      assert Produced(codec, evs) == sent + Addressing(codec, ev);
      var all := Run(s, codec, evs).delivered;
      assert all == mid.delivered + last.delivered;
      forall j | 0 <= j < |all|
        ensures all[j].peer in s.peers && SentTo(Produced(codec, evs), all[j].peer, all[j].msg, codec)
      {
        if j < |mid.delivered| {
          var e :| e in sent && e.target == all[j].peer && codec.decode(e.data) == Some(all[j].msg);
          assert e in Produced(codec, evs);
        } else {
          var d := last.delivered[j - |mid.delivered|];
          assert d == all[j];
          var e :| e in sent && e.target == d.peer && codec.decode(e.data) == Some(d.msg);
          assert e in Produced(codec, evs);
        }
      }
    }
  }

  /**
   * Endpoints are fixed for a whole run, from any starting system: no event
   * adds or removes a peer or changes a transport's key, location or
   * openness.
   */
  lemma {:induction false} RunKeepsEndpoints(s: System, codec: Codec, evs: seq<Event>)
    ensures SameEndpoints(s, Run(s, codec, evs).system)
    decreases |evs|
  {
    if evs != [] {
      var init := evs[..|evs| - 1];
      RunKeepsEndpoints(s, codec, init);
      StepKeepsEndpoints(Run(s, codec, init).system, codec, evs[|evs| - 1]);
    }
  }

  /**
   * `is_open` and `location` of a peer's transport keep answering what the
   * peer's `MemoryConnManager::new` was given, after any run.
   */
  lemma ConstructedEndpointAnswers(s: System, codec: Codec, evs: seq<Event>, k: PeerKey,
                                   isOpen: bool, location: Option<Location>)
    requires k in s.peers && s.peers[k] == NewManager(isOpen, k, location)
    ensures k in Run(s, codec, evs).system.peers
    ensures IsOpen(Run(s, codec, evs).system.peers[k].transport) == isOpen
    ensures LocationOf(Run(s, codec, evs).system.peers[k].transport) == location
  {
    RunKeepsEndpoints(s, codec, evs);
  }
}
