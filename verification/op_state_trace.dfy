/**
 * Sequences of registry calls. A trace of pushes and pops is replayed from a
 * fresh registry; the lemmas here state what holds of every such run.
 */
module OpStateTrace {
  import opened Wrappers
  import opened Types
  import opened OpState

  /** One call on the registry. */
  datatype Command = PushCmd(id: Transaction, op: Operation) | PopCmd(id: Transaction)

  /** What one call returned. */
  datatype Reply = Pushed(outcome: Outcome<OpExecutionError>) | Popped(popped: Option<Operation>)

  /** No `pop` in the trace uses a `Canceled` id (which has no defined behaviour). */
  predicate Callable(cmds: seq<Command>)
  {
    forall i :: 0 <= i < |cmds| && cmds[i].PopCmd? ==> TxTypeOf(cmds[i].id) != Canceled
  }

  /** Apply one call. */
  function Apply(s: OpStateStorage, c: Command): (OpStateStorage, Reply)
    requires c.PopCmd? ==> TxTypeOf(c.id) != Canceled
  {
    match c
    case PushCmd(id, op) =>
      var r := Push(s, id, op); (r.storage, Pushed(r.outcome))
    case PopCmd(id) =>
      var r := Pop(s, id); (r.storage, Popped(r.popped))
  }

  /** Replay `cmds` from `s`: the final registry and one reply per call. */
  function Run(s: OpStateStorage, cmds: seq<Command>): (r: (OpStateStorage, seq<Reply>))
    requires Callable(cmds)
    ensures |r.1| == |cmds|
    ensures r.0.ring == s.ring
    decreases |cmds|
  {
    if cmds == [] then (s, [])
    else
      var prefix := Run(s, cmds[..|cmds| - 1]);
      var last := Apply(prefix.0, cmds[|cmds| - 1]);
      (last.0, prefix.1 + [last.1])
  }

  /** A reply that hands out a `Get` operation. */
  predicate YieldsGet(reply: Reply)
  {
    reply.Popped? && reply.popped.Some? && reply.popped.value.GetOperation?
  }

  /**
   * Starting from a well-kinded registry (a fresh one is), every run keeps
   * the registry well kinded and no pop in it ever returns a `Get`
   * operation: get operations can be stored but never handed back.
   */
  lemma {:induction false} RunNeverYieldsGet(s: OpStateStorage, cmds: seq<Command>)
    requires WellKinded(s)
    requires Callable(cmds)
    ensures WellKinded(Run(s, cmds).0)
    ensures forall i :: 0 <= i < |cmds| ==> !YieldsGet(Run(s, cmds).1[i])
    decreases |cmds|
  {
    if cmds != [] {
      var init := cmds[..|cmds| - 1];
      assert Callable(init);
      RunNeverYieldsGet(s, init);
      var mid := Run(s, init).0;
      var c := cmds[|cmds| - 1];
      match c {
        case PushCmd(id, op) =>
          PushPreservesWellKinded(mid, id, op);
        case PopCmd(id) =>
          PopPreservesWellKinded(mid, id);
          PopNeverYieldsGet(mid, id);
      }
    }
  }

  /** From a fresh registry, no run ever hands out a `Get` operation. */
  lemma FreshRunNeverYieldsGet(ring: Ring, cmds: seq<Command>)
    requires Callable(cmds)
    ensures forall i :: 0 <= i < |cmds| ==> !YieldsGet(Run(New(ring), cmds).1[i])
  {
    RunNeverYieldsGet(New(ring), cmds);
  }

  /**
   * Get operations only accumulate: in a well-kinded registry no call
   * removes an entry from the get map, so every accepted get operation
   * stays stored forever.
   */
  lemma {:induction false} GetEntriesPersist(s: OpStateStorage, cmds: seq<Command>, id: Transaction)
    requires WellKinded(s)
    requires Callable(cmds)
    requires id in s.get
    ensures id in Run(s, cmds).0.get
    decreases |cmds|
  {
    if cmds != [] {
      var init := cmds[..|cmds| - 1];
      assert Callable(init);
      GetEntriesPersist(s, init, id);
      RunNeverYieldsGet(s, init);
      var mid := Run(s, init).0;
      match cmds[|cmds| - 1] {
        case PushCmd(id', op) =>
        case PopCmd(id') =>
          PopNeverYieldsGet(mid, id');
      }
    }
  }
}
