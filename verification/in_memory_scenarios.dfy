/**
 * Concrete schedules of the in-memory network: the path on which a message
 * does arrive, and the schedules on which messages arrive out of order or
 * not at all.
 */
module InMemoryScenarios {
  import opened Wrappers
  import opened Types
  import opened InMemory
  import opened InMemorySystem

  /** Peer `k` is present, keyed correctly, with both loops running. */
  predicate Live(s: System, k: PeerKey)
  {
    k in s.peers && s.peers[k].transport.filterTask == Running && s.peers[k].transferTask == Running
  }

  /** `codec` encodes `msg` and decodes it back. */
  predicate RoundTrips(codec: Codec, msg: Message)
  {
    codec.encode(msg).Some? && codec.decode(codec.encode(msg).value) == Some(msg)
  }

  lemma RunOne(s: System, codec: Codec, e: Event)
    ensures Run(s, codec, [e]) == Step(s, codec, e)
  {
    assert [e][..0] == [];
  }

  lemma {:induction false} RunAppend(s: System, codec: Codec, evs: seq<Event>, more: seq<Event>)
    ensures Run(s, codec, evs + more) ==
      var a := Run(s, codec, evs);
      var b := Run(a.system, codec, more);
      StepResult(b.system, a.delivered + b.delivered)
    decreases |more|
  {
    var a := Run(s, codec, evs);
    if more == [] {
      assert evs + more == evs;
      assert a.delivered + [] == a.delivered;
    } else {
      var init := more[..|more| - 1];
      var e := more[|more| - 1];
      assert (evs + more)[..|evs + more| - 1] == evs + init;
      assert (evs + more)[|evs + more| - 1] == e;
      RunAppend(s, codec, evs, init);
      var mid := Run(a.system, codec, init);
      var last := Step(mid.system, codec, e);
      assert Run(a.system, codec, more) == StepResult(last.system, mid.delivered + last.delivered);
      assert Run(s, codec, evs + more) == StepResult(last.system, (a.delivered + mid.delivered) + last.delivered);
      assert (a.delivered + mid.delivered) + last.delivered == a.delivered + (mid.delivered + last.delivered);
    }
  }

  /** Run `e` after `evs`. */
  lemma RunSnoc(s: System, codec: Codec, evs: seq<Event>, e: Event)
    ensures Run(s, codec, evs + [e]) ==
      var a := Run(s, codec, evs);
      var b := Step(a.system, codec, e);
      StepResult(b.system, a.delivered + b.delivered)
  {
    RunAppend(s, codec, evs, [e]);
    RunOne(Run(s, codec, evs).system, codec, e);
  }

  /** A send from a correctly keyed peer to a located target puts one envelope on a connected network. */
  lemma SendEffect(s: System, codec: Codec, x: PeerKey, y: PeerKey, loc: Location, msg: Message)
    requires x in s.peers && s.peers[x].transport.interfacePeer == x
    requires s.network.connected && codec.encode(msg).Some?
    ensures Step(s, codec, SendEv(x, PeerKeyLocation(y, Some(loc)), msg)) ==
      StepResult(s.(network := s.network.(wires := s.network.wires + [Envelope(x, Some(loc), y, codec.encode(msg).value)])), [])
  {
  }

  /** A filter iteration of `y` that finds an envelope for `y` at the front moves it onto `y`'s stack. */
  lemma FilterKeeps(s: System, codec: Codec, y: PeerKey)
    requires y in s.peers && s.peers[y].transport.filterTask == Running
    requires s.peers[y].transport.interfacePeer == y
    requires |s.network.wires| > 0 && s.network.wires[0].target == y
    ensures Step(s, codec, FilterEv(y)) ==
      var t := s.peers[y].transport;
      StepResult(System(s.network.(wires := s.network.wires[1..]),
                        s.peers[y := s.peers[y].(transport := t.(stack := t.stack + [s.network.wires[0]]))]), [])
  {
  }

  /** A transfer iteration of `y` with the lock taken moves the top of the stack, decoded, onto the queue. */
  lemma TransferMoves(s: System, codec: Codec, y: PeerKey, msg: Message)
    requires y in s.peers && s.peers[y].transferTask == Running
    requires |s.peers[y].transport.stack| > 0
    requires codec.decode(s.peers[y].transport.stack[|s.peers[y].transport.stack| - 1].data) == Some(msg)
    ensures Step(s, codec, TransferEv(y, true)) ==
      var m := s.peers[y];
      StepResult(s.(peers := s.peers[y := m.(transport := m.transport.(stack := m.transport.stack[..|m.transport.stack| - 1]),
                                             queue := m.queue + [msg])]), [])
  {
  }

  /** A receive iteration of `y` with the lock taken hands out the back of the queue. */
  lemma RecvTakes(s: System, codec: Codec, y: PeerKey)
    requires y in s.peers && |s.peers[y].queue| > 0
    ensures Step(s, codec, RecvEv(y, true)) ==
      var m := s.peers[y];
      StepResult(s.(peers := s.peers[y := m.(queue := m.queue[..|m.queue| - 1])]), [Delivery(y, m.queue[|m.queue| - 1])])
  {
  }

  /**
   * On a quiet, connected network, a message sent by `x` to `y` at a known
   * location is received by `y` after one iteration of each of its loops and
   * one `recv` iteration, provided both locks are taken and the codec
   * round-trips the message.
   */
  lemma QuietPathDelivers(s: System, codec: Codec, x: PeerKey, y: PeerKey, loc: Location, msg: Message)
    requires Quiet(s) && s.network.connected
    requires x in s.peers && Live(s, y)
    requires RoundTrips(codec, msg)
    ensures Run(s, codec, [SendEv(x, PeerKeyLocation(y, Some(loc)), msg), FilterEv(y),
                           TransferEv(y, true), RecvEv(y, true)]).delivered == [Delivery(y, msg)]
  {
    var evs := [SendEv(x, PeerKeyLocation(y, Some(loc)), msg), FilterEv(y), TransferEv(y, true), RecvEv(y, true)];
    var e := Envelope(x, Some(loc), y, codec.encode(msg).value);
    var m := s.peers[y];
    RunOne(s, codec, evs[0]);
    SendEffect(s, codec, x, y, loc, msg);
    assert evs[..1] == [evs[0]];
    var s1 := s.(network := s.network.(wires := [e]));
    assert Run(s, codec, evs[..1]) == StepResult(s1, []);
    RunSnoc(s, codec, evs[..1], evs[1]);
    assert evs[..2] == evs[..1] + [evs[1]];
    FilterKeeps(s1, codec, y);
    var s2 := System(s.network, s.peers[y := m.(transport := m.transport.(stack := [e]))]);
    assert Run(s, codec, evs[..2]) == StepResult(s2, []);
    RunSnoc(s, codec, evs[..2], evs[2]);
    assert evs[..3] == evs[..2] + [evs[2]];
    TransferMoves(s2, codec, y, msg);
    var s3 := System(s.network, s.peers[y := m.(queue := [msg])]);
    var m2 := m.(transport := m.transport.(stack := [e]));
    assert [e][..0] == [] && m.transport.stack == [] && m.queue == [];
    assert m2.(transport := m2.transport.(stack := m2.transport.stack[..0]), queue := m2.queue + [msg]) == m.(queue := [msg]);
    assert s2.peers[y := m.(queue := [msg])] == s3.peers;
    assert Step(s2, codec, evs[2]).system == s3;
    assert Run(s, codec, evs[..3]) == StepResult(s3, []);
    RunSnoc(s, codec, evs[..3], evs[3]);
    assert evs == evs[..3] + [evs[3]];
    RecvTakes(s3, codec, y);
  }

  /** Two sends from `x` to `y` on a quiet network put both envelopes on it, oldest first. */
  lemma TwoSendsQueued(s: System, codec: Codec, x: PeerKey, y: PeerKey, loc: Location, a: Message, b: Message)
    requires Quiet(s) && s.network.connected && x in s.peers
    requires codec.encode(a).Some? && codec.encode(b).Some?
    ensures Run(s, codec, [SendEv(x, PeerKeyLocation(y, Some(loc)), a), SendEv(x, PeerKeyLocation(y, Some(loc)), b)])
            == StepResult(s.(network := s.network.(wires :=
                 [Envelope(x, Some(loc), y, codec.encode(a).value), Envelope(x, Some(loc), y, codec.encode(b).value)])), [])
  {
    var target := PeerKeyLocation(y, Some(loc));
    var ea := Envelope(x, Some(loc), y, codec.encode(a).value);
    var evs := [SendEv(x, target, a), SendEv(x, target, b)];
    RunOne(s, codec, evs[0]);
    SendEffect(s, codec, x, y, loc, a);
    assert evs[..1] == [evs[0]];
    var s1 := s.(network := s.network.(wires := [ea]));
    assert Run(s, codec, evs[..1]) == StepResult(s1, []);
    RunSnoc(s, codec, evs[..1], evs[1]);
    assert evs == evs[..1] + [evs[1]];
    SendEffect(s1, codec, x, y, loc, b);
  }

  /** Two filter iterations of `y` over a network holding two envelopes for `y` move both onto its empty stack. */
  lemma TwoFiltersStack(s: System, codec: Codec, y: PeerKey, ea: Envelope, eb: Envelope)
    requires y in s.peers && s.peers[y].transport.filterTask == Running
    requires s.peers[y].transport.interfacePeer == y && s.peers[y].transport.stack == []
    requires s.network.wires == [ea, eb] && ea.target == y && eb.target == y
    ensures Run(s, codec, [FilterEv(y), FilterEv(y)])
            == StepResult(System(s.network.(wires := []),
                                 s.peers[y := s.peers[y].(transport := s.peers[y].transport.(stack := [ea, eb]))]), [])
  {
    var m := s.peers[y];
    var evs := [FilterEv(y), FilterEv(y)];
    RunOne(s, codec, evs[0]);
    FilterKeeps(s, codec, y);
    assert evs[..1] == [evs[0]];
    assert [ea, eb][1..] == [eb];
    assert m.transport.stack + [s.network.wires[0]] == [ea];
    var s1 := System(s.network.(wires := [eb]), s.peers[y := m.(transport := m.transport.(stack := [ea]))]);
    assert Run(s, codec, evs[..1]) == StepResult(s1, []);
    RunSnoc(s, codec, evs[..1], evs[1]);
    assert evs == evs[..1] + [evs[1]];
    FilterKeeps(s1, codec, y);
    assert [ea] + [eb] == [ea, eb];
    assert [eb][1..] == [];
    assert s1.peers[y := m.(transport := m.transport.(stack := [ea, eb]))]
        == s.peers[y := m.(transport := m.transport.(stack := [ea, eb]))];
  }

  /** Two sends from `x` to `y` followed by two filter iterations of `y` leave both envelopes on `y`'s stack, oldest first. */
  lemma TwoSendsStacked(s: System, codec: Codec, x: PeerKey, y: PeerKey, loc: Location, a: Message, b: Message)
    requires Quiet(s) && s.network.connected
    requires x in s.peers && Live(s, y)
    requires codec.encode(a).Some? && codec.encode(b).Some?
    ensures Run(s, codec, [SendEv(x, PeerKeyLocation(y, Some(loc)), a), SendEv(x, PeerKeyLocation(y, Some(loc)), b),
                           FilterEv(y), FilterEv(y)])
            == StepResult(System(s.network, s.peers[y := s.peers[y].(transport := s.peers[y].transport.(stack :=
                   [Envelope(x, Some(loc), y, codec.encode(a).value), Envelope(x, Some(loc), y, codec.encode(b).value)]))]), [])
  {
    var target := PeerKeyLocation(y, Some(loc));
    var ea := Envelope(x, Some(loc), y, codec.encode(a).value);
    var eb := Envelope(x, Some(loc), y, codec.encode(b).value);
    var sends := [SendEv(x, target, a), SendEv(x, target, b)];
    var filters := [FilterEv(y), FilterEv(y)];
    TwoSendsQueued(s, codec, x, y, loc, a, b);
    var s2 := s.(network := s.network.(wires := [ea, eb]));
    TwoFiltersStack(s2, codec, y, ea, eb);
    RunAppend(s, codec, sends, filters);
    assert sends + filters == [SendEv(x, target, a), SendEv(x, target, b), FilterEv(y), FilterEv(y)];
    assert s.network.(wires := []) == s.network;
  }

  /**
   * With an empty queue, a transfer iteration and then a receive iteration
   * of `y` (both locks taken) hand out the message decoded from the top of
   * `y`'s stack, which loses that envelope.
   */
  lemma TransferThenRecv(s: System, codec: Codec, y: PeerKey, rest: seq<Envelope>, e: Envelope, msg: Message)
    requires y in s.peers && s.peers[y].transferTask == Running
    requires s.peers[y].transport.stack == rest + [e] && s.peers[y].queue == []
    requires codec.decode(e.data) == Some(msg)
    ensures Run(s, codec, [TransferEv(y, true), RecvEv(y, true)]) ==
      StepResult(s.(peers := s.peers[y := s.peers[y].(transport := s.peers[y].transport.(stack := rest))]), [Delivery(y, msg)])
  {
    var m := s.peers[y];
    var evs := [TransferEv(y, true), RecvEv(y, true)];
    RunOne(s, codec, evs[0]);
    TransferMoves(s, codec, y, msg);
    assert evs[..1] == [evs[0]];
    assert (rest + [e])[..|rest + [e]| - 1] == rest;
    assert m.transport.stack[..|m.transport.stack| - 1] == rest;
    assert m.queue + [msg] == [msg];
    var s1 := s.(peers := s.peers[y := m.(transport := m.transport.(stack := rest), queue := [msg])]);
    assert Run(s, codec, evs[..1]) == StepResult(s1, []);
    RunSnoc(s, codec, evs[..1], evs[1]);
    assert evs == evs[..1] + [evs[1]];
    RecvTakes(s1, codec, y);
    assert [msg][..0] == [];
    assert s1.peers[y := m.(transport := m.transport.(stack := rest))] == s.peers[y := m.(transport := m.transport.(stack := rest))];
  }

  /**
   * With two messages on `y`'s stack and an empty queue, alternating
   * transfer and receive iterations hand out the newer message first.
   */
  lemma AlternatingDrainReverses(s: System, codec: Codec, y: PeerKey, ea: Envelope, eb: Envelope, a: Message, b: Message)
    requires y in s.peers && s.peers[y].transferTask == Running
    requires s.peers[y].transport.stack == [ea, eb] && s.peers[y].queue == []
    requires codec.decode(ea.data) == Some(a) && codec.decode(eb.data) == Some(b)
    ensures Run(s, codec, [TransferEv(y, true), RecvEv(y, true), TransferEv(y, true), RecvEv(y, true)]).delivered
            == [Delivery(y, b), Delivery(y, a)]
  {
    var m := s.peers[y];
    var pair := [TransferEv(y, true), RecvEv(y, true)];
    assert [ea, eb] == [ea] + [eb];
    TransferThenRecv(s, codec, y, [ea], eb, b);
    var s1 := s.(peers := s.peers[y := m.(transport := m.transport.(stack := [ea]))]);
    assert Run(s, codec, pair) == StepResult(s1, [Delivery(y, b)]);
    assert [ea] == [] + [ea];
    TransferThenRecv(s1, codec, y, [], ea, a);
    RunAppend(s, codec, pair, pair);
    assert pair + pair == [TransferEv(y, true), RecvEv(y, true), TransferEv(y, true), RecvEv(y, true)];
  }

  /**
   * No ordering guarantee: if `y`'s receive runs between the two transfer
   * iterations, two messages sent in order `a`, `b` arrive as `b`, `a`,
   * because both the stack and the queue are popped from the back.
   */
  lemma InterleavedRecvReverses(s: System, codec: Codec, x: PeerKey, y: PeerKey, loc: Location, a: Message, b: Message)
    requires Quiet(s) && s.network.connected
    requires x in s.peers && Live(s, y)
    requires RoundTrips(codec, a) && RoundTrips(codec, b)
    ensures Run(s, codec, [SendEv(x, PeerKeyLocation(y, Some(loc)), a), SendEv(x, PeerKeyLocation(y, Some(loc)), b),
                           FilterEv(y), FilterEv(y),
                           TransferEv(y, true), RecvEv(y, true),
                           TransferEv(y, true), RecvEv(y, true)]).delivered
            == [Delivery(y, b), Delivery(y, a)]
  {
    var target := PeerKeyLocation(y, Some(loc));
    var inbound := [SendEv(x, target, a), SendEv(x, target, b), FilterEv(y), FilterEv(y)];
    var drain := [TransferEv(y, true), RecvEv(y, true), TransferEv(y, true), RecvEv(y, true)];
    TwoSendsStacked(s, codec, x, y, loc, a, b);
    RunAppend(s, codec, inbound, drain);
    var mid := Run(s, codec, inbound).system;
    AlternatingDrainReverses(mid, codec, y, Envelope(x, Some(loc), y, codec.encode(a).value),
                             Envelope(x, Some(loc), y, codec.encode(b).value), a, b);
    assert inbound + drain == [SendEv(x, target, a), SendEv(x, target, b), FilterEv(y), FilterEv(y),
                               TransferEv(y, true), RecvEv(y, true), TransferEv(y, true), RecvEv(y, true)];
  }

  /**
   * A transfer iteration that fails to take the queue's lock loses the
   * message: afterwards nothing is in flight for `y` and its `recv` finds
   * nothing.
   */
  lemma FailedLockLosesMessage(s: System, codec: Codec, x: PeerKey, y: PeerKey, loc: Location, msg: Message)
    requires Quiet(s) && s.network.connected
    requires x in s.peers && Live(s, y)
    requires RoundTrips(codec, msg)
    ensures Run(s, codec, [SendEv(x, PeerKeyLocation(y, Some(loc)), msg), FilterEv(y),
                           TransferEv(y, false), RecvEv(y, true)]) == StepResult(s, [])
  {
    var evs := [SendEv(x, PeerKeyLocation(y, Some(loc)), msg), FilterEv(y), TransferEv(y, false), RecvEv(y, true)];
    var e := Envelope(x, Some(loc), y, codec.encode(msg).value);
    var m := s.peers[y];
    RunOne(s, codec, evs[0]);
    SendEffect(s, codec, x, y, loc, msg);
    assert evs[..1] == [evs[0]];
    var s1 := s.(network := s.network.(wires := [e]));
    assert Run(s, codec, evs[..1]) == StepResult(s1, []);
    RunSnoc(s, codec, evs[..1], evs[1]);
    assert evs[..2] == evs[..1] + [evs[1]];
    FilterKeeps(s1, codec, y);
    var s2 := System(s.network, s.peers[y := m.(transport := m.transport.(stack := [e]))]);
    assert Run(s, codec, evs[..2]) == StepResult(s2, []);
    RunSnoc(s, codec, evs[..2], evs[2]);
    assert evs[..3] == evs[..2] + [evs[2]];
    assert s.peers[y := m] == s.peers;
    assert Run(s, codec, evs[..3]) == StepResult(s, []);
    RunSnoc(s, codec, evs[..3], evs[3]);
    assert evs == evs[..3] + [evs[3]];
  }

  /**
   * The shared channel hands each envelope to only one filter loop. If
   * another peer `z`'s loop takes an envelope addressed to `y`, it drops
   * it: the network is empty again and `y`'s stack never sees the message,
   * so the system is back where it started.
   */
  lemma OtherPeerSwallowsMessage(s: System, codec: Codec, x: PeerKey, y: PeerKey, z: PeerKey, loc: Location, msg: Message)
    requires Quiet(s) && s.network.connected
    requires x in s.peers && Live(s, y) && Live(s, z) && y != z
    requires RoundTrips(codec, msg)
    ensures Run(s, codec, [SendEv(x, PeerKeyLocation(y, Some(loc)), msg), FilterEv(z)]) == StepResult(s, [])
  {
    var evs := [SendEv(x, PeerKeyLocation(y, Some(loc)), msg), FilterEv(z)];
    RunOne(s, codec, evs[0]);
    SendEffect(s, codec, x, y, loc, msg);
    assert evs[..1] == [evs[0]];
    var s1 := s.(network := s.network.(wires := [Envelope(x, Some(loc), y, codec.encode(msg).value)]));
    assert Run(s, codec, evs[..1]) == StepResult(s1, []);
    RunSnoc(s, codec, evs[..1], evs[1]);
    assert evs == evs[..1] + [evs[1]];
    assert s.peers[z].transport.interfacePeer == z;
    assert s.peers[z := s.peers[z]] == s.peers;
  }
}
