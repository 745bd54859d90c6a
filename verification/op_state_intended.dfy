/**
 * The registry's `push` with each branch checking its operation's own kind,
 * and a rejection naming the kind that branch checked for.
 * `pop` is unchanged. With this `push` every variant round-trips.
 */
module OpStateIntended {
  import opened Wrappers
  import opened Types
  import opened OpState

  /** The guard with the expected kind reported as the one checked for. */
  function CheckKind(actual: TxType, expected: TxType): Outcome<OpExecutionError>
  {
    if actual == expected then Pass else Fail(IncorrectTxType(expected, actual))
  }

  /**
   * `push` with each branch checking its own variant's kind. A rejection
   * names the variant's kind and the id's kind and changes nothing; an
   * acceptance stores the operation under `id` and touches no other map.
   */
  function Push(s: OpStateStorage, id: Transaction, op: Operation): (r: PushResult)
    ensures r.outcome.Pass? <==> TxTypeOf(id) == VariantKind(op)
    ensures r.outcome.Fail? ==> r.outcome.error == IncorrectTxType(VariantKind(op), TxTypeOf(id))
    ensures r.outcome.Fail? ==> r.storage == s
    ensures r.storage.ring == s.ring
    ensures r.outcome.Pass? ==> Holds(r.storage, id, op)
    ensures r.outcome.Pass? && op.JoinRingOperation? ==> r.storage.joinRing == s.joinRing[id := op.joinRing]
    ensures r.outcome.Pass? && op.PutOperation? ==> r.storage.put == s.put[id := op.put]
    ensures r.outcome.Pass? && op.GetOperation? ==> r.storage.get == s.get[id := op.get]
    ensures r.outcome.Pass? && !op.JoinRingOperation? ==> r.storage.joinRing == s.joinRing
    ensures r.outcome.Pass? && !op.PutOperation? ==> r.storage.put == s.put
    ensures r.outcome.Pass? && !op.GetOperation? ==> r.storage.get == s.get
  {
    var check := CheckKind(TxTypeOf(id), VariantKind(op));
    if check.Fail? then PushResult(s, check)
    else match op
      case JoinRingOperation(tx) => PushResult(s.(joinRing := s.joinRing[id := tx]), Pass)
      case PutOperation(tx) => PushResult(s.(put := s.put[id := tx]), Pass)
      case GetOperation(tx) => PushResult(s.(get := s.get[id := tx]), Pass)
  }

  /** Every key lives in the map of its own kind. */
  predicate KindMatched(s: OpStateStorage)
  {
    && (forall t :: t in s.joinRing ==> t.kind == JoinRing)
    && (forall t :: t in s.put ==> t.kind == Put)
    && (forall t :: t in s.get ==> t.kind == Get)
  }

  lemma PushPreservesKindMatched(s: OpStateStorage, id: Transaction, op: Operation)
    requires KindMatched(s)
    ensures KindMatched(Push(s, id, op).storage)
  {
  }

  /**
   * Round trip for every variant: after an accepted push, the first pop of
   * the id returns exactly the pushed operation and the second returns
   * nothing.
   */
  lemma PushThenPop(s: OpStateStorage, id: Transaction, op: Operation)
    requires Push(s, id, op).outcome.Pass?
    ensures TxTypeOf(id) != Canceled
    ensures Pop(Push(s, id, op).storage, id).popped == Some(op)
    ensures Pop(Pop(Push(s, id, op).storage, id).storage, id).popped == None
  {
    var s1 := Push(s, id, op).storage;
    assert Holds(s1, id, op);
    match op {
      case JoinRingOperation(j) =>
        assert Pop(s1, id).popped == Some(JoinRingOperation(s1.joinRing[id]));
      case PutOperation(p) =>
        assert Pop(s1, id).popped == Some(PutOperation(s1.put[id]));
      case GetOperation(g) =>
        assert Pop(s1, id).popped == Some(GetOperation(s1.get[id]));
    }
  }

  /**
   * The as-written `push` and the intended one disagree exactly on get
   * operations: under a `Get`-kind id only the intended one accepts, under
   * a `Put`-kind id only the as-written one does.
   */
  lemma GetGuardDiffers(s: OpStateStorage, id: Transaction, g: GetOp)
    ensures TxTypeOf(id) == Get ==>
      Push(s, id, GetOperation(g)).outcome.Pass? && OpState.Push(s, id, GetOperation(g)).outcome.Fail?
    ensures TxTypeOf(id) == Put ==>
      Push(s, id, GetOperation(g)).outcome.Fail? && OpState.Push(s, id, GetOperation(g)).outcome.Pass?
  {
  }

  /** On join and put operations the two versions store the same thing. */
  lemma AgreesOnJoinAndPut(s: OpStateStorage, id: Transaction, op: Operation)
    requires !op.GetOperation?
    ensures Push(s, id, op).storage == OpState.Push(s, id, op).storage
    ensures Push(s, id, op).outcome.Pass? == OpState.Push(s, id, op).outcome.Pass?
  {
  }

  /**
   * The as-written error names `JoinRing` as expected even for a put
   * operation rejected under a `Get` id; the intended one names `Put`.
   */
  lemma ExpectedKindDiffers(s: OpStateStorage, id: Transaction, p: PutOp)
    requires TxTypeOf(id) == Get
    ensures OpState.Push(s, id, PutOperation(p)).outcome == Fail(IncorrectTxType(JoinRing, Get))
    ensures Push(s, id, PutOperation(p)).outcome == Fail(IncorrectTxType(Put, Get))
  {
  }
}
