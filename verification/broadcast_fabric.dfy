/**
 * The network the in-memory transport is meant to be: a broadcast medium in
 * which every peer sees every envelope and keeps those addressed to it. The
 * shared channel becomes an append-only log, and each peer's filter loop
 * reads it at its own cursor, so one peer's reads never take an envelope
 * away from another.
 */
module BroadcastFabric {
  import opened Wrappers
  import opened Types
  import opened InMemory

  /** The envelopes of `log` addressed to `k`, in log order. */
  function AddressedTo(log: seq<Envelope>, k: PeerKey): seq<Envelope>
    decreases |log|
  {
    if log == [] then []
    else
      var init := AddressedTo(log[..|log| - 1], k);
      var last := log[|log| - 1];
      if last.target == k then init + [last] else init
  }

  /** The selection holds exactly the log's envelopes addressed to `k`. */
  lemma {:induction false} AddressedToMembers(log: seq<Envelope>, k: PeerKey)
    ensures forall e :: e in AddressedTo(log, k) <==> e in log && e.target == k
    decreases |log|
  {
    if log != [] {
      var init := log[..|log| - 1];
      AddressedToMembers(init, k);
      assert log == init + [log[|log| - 1]];
      assert forall e :: e in log <==> e in init || e == log[|log| - 1];
    }
  }

  /** Extending the log by one envelope extends the selection by it exactly when it is addressed to `k`. */
  lemma AddressedToSnoc(log: seq<Envelope>, e: Envelope, k: PeerKey)
    ensures AddressedTo(log + [e], k) == AddressedTo(log, k) + (if e.target == k then [e] else [])
  {
    assert (log + [e])[..|log + [e]| - 1] == log;
  }

  /** A peer's transport together with how far into the log its filter loop has read. */
  datatype Reader = Reader(transport: InMemoryTransport, cursor: nat)

  /**
   * One filter iteration on the broadcast log: read the next unread envelope,
   * keep it if it is addressed to this peer, and advance the cursor. The log
   * itself is not changed. A stopped loop, or one that has read everything,
   * does nothing.
   */
  function FilterStep(r: Reader, log: seq<Envelope>): (r': Reader)
    requires r.cursor <= |log|
    ensures r'.cursor <= |log|
    ensures SameEndpoint(r'.transport, r.transport) && r'.transport.filterTask == r.transport.filterTask
    ensures r.transport.filterTask.Running? && r.cursor < |log| ==>
      && r'.cursor == r.cursor + 1
      && r'.transport.stack == r.transport.stack + (if log[r.cursor].target == r.transport.interfacePeer then [log[r.cursor]] else [])
    ensures r.transport.filterTask.Stopped? || r.cursor == |log| ==> r' == r
  {
    if r.transport.filterTask.Stopped? || r.cursor == |log| then r
    else
      var e := log[r.cursor];
      var t := r.transport;
      Reader(if e.target == t.interfacePeer then t.(stack := t.stack + [e]) else t, r.cursor + 1)
  }

  /**
   * Run the filter loop until it has read the whole log. Afterwards the
   * peer's stack has gained exactly the unread envelopes addressed to it,
   * in log order.
   */
  method Drain(r: Reader, log: seq<Envelope>) returns (r': Reader)
    requires r.cursor <= |log|
    requires r.transport.filterTask.Running?
    ensures r'.cursor == |log|
    ensures SameEndpoint(r'.transport, r.transport)
    ensures r'.transport.stack == r.transport.stack + AddressedTo(log[r.cursor..], r.transport.interfacePeer)
  {
    var k := r.transport.interfacePeer;
    r' := r;
    while r'.cursor < |log|
      invariant r.cursor <= r'.cursor <= |log|
      invariant SameEndpoint(r'.transport, r.transport) && r'.transport.filterTask.Running?
      invariant r'.transport.stack == r.transport.stack + AddressedTo(log[r.cursor..r'.cursor], k)
      decreases |log| - r'.cursor
    {
      var i := r'.cursor;
      AddressedToSnoc(log[r.cursor..i], log[i], k);
      assert log[r.cursor..i + 1] == log[r.cursor..i] + [log[i]];
      r' := FilterStep(r', log);
    }
    assert log[r.cursor..r'.cursor] == log[r.cursor..];
  }

  /**
   * No loss: draining the log leaves every unread envelope addressed to this
   * peer on its stack, and nothing addressed to anyone else.
   */
  method DrainKeepsEveryAddressed(r: Reader, log: seq<Envelope>, e: Envelope) returns (r': Reader)
    requires r.cursor <= |log| && r.transport.filterTask.Running?
    requires Addressed(r.transport)
    ensures Addressed(r'.transport)
    ensures e in log[r.cursor..] && e.target == r.transport.interfacePeer ==> e in r'.transport.stack
  {
    r' := Drain(r, log);
    var added := AddressedTo(log[r.cursor..], r.transport.interfacePeer);
    AddressedToMembers(log[r.cursor..], r.transport.interfacePeer);
    assert r'.transport.stack == r.transport.stack + added;
    forall i | 0 <= i < |r'.transport.stack|
      ensures r'.transport.stack[i].target == r'.transport.interfacePeer
    {
      if i >= |r.transport.stack| {
        assert r'.transport.stack[i] == added[i - |r.transport.stack|];
        assert added[i - |r.transport.stack|] in added;
      }
    }
    if e in log[r.cursor..] && e.target == r.transport.interfacePeer {
      assert e in added;
    }
  }

  /**
   * Two readers of one log, the counterpart of the shared-channel run in
   * which another peer's filter loop swallows the envelope: here peer `z`'s
   * loop reads first, and peer `y`'s drain still finds every unread envelope
   * addressed to `y`. Reading does not consume, so `z` took nothing from `y`.
   */
  method OtherReaderTakesNothing(ry: Reader, rz: Reader, log: seq<Envelope>, e: Envelope)
    returns (ry': Reader, rz': Reader)
    requires ry.cursor <= |log| && ry.transport.filterTask.Running? && Addressed(ry.transport)
    requires rz.cursor <= |log| && rz.transport.interfacePeer != ry.transport.interfacePeer
    requires e in log[ry.cursor..] && e.target == ry.transport.interfacePeer
    ensures e in ry'.transport.stack
    ensures |rz.transport.stack| <= |rz'.transport.stack|
    ensures rz'.transport.stack[..|rz.transport.stack|] == rz.transport.stack
    ensures e !in rz'.transport.stack[|rz.transport.stack|..]
  {
    rz' := FilterStep(rz, log);
    ry' := DrainKeepsEveryAddressed(ry, log, e);
    assert rz'.transport.stack[|rz.transport.stack|..] ==
      (if rz.transport.filterTask.Running? && rz.cursor < |log| && log[rz.cursor].target == rz.transport.interfacePeer
       then [log[rz.cursor]] else []);
  }
}
