/**
 * The registry of in-flight operations (`OpStateStorage`), modelled as an
 * immutable value with pure transition functions. It keeps one map per
 * operation variant, keyed by transaction, and the ring view it was built
 * with. The model follows the code as written, including two quirks:
 * the `Get` branch of `push` checks the id against kind `Put`, and every
 * rejection names `JoinRing` as the expected kind.
 */
module OpState {
  import opened Wrappers
  import opened Types

  /** The registry's failures (`OpExecutionError`). */
  datatype OpExecutionError =
    | IncorrectTxType(expected: TxType, actual: TxType)
    | TxUpdateFailure(tx: Transaction)

  datatype OpStateStorage = OpStateStorage(
    joinRing: map<Transaction, JoinRingOp>,
    put: map<Transaction, PutOp>,
    get: map<Transaction, GetOp>,
    ring: Ring)

  /** The registry state together with what an operation returned. */
  datatype PushResult = PushResult(storage: OpStateStorage, outcome: Outcome<OpExecutionError>)
  datatype PopResult = PopResult(storage: OpStateStorage, popped: Option<Operation>)

  /**
   * The `check_id_op!` guard: passes when the id's kind is `variant`; the
   * error it builds always carries `JoinRing` in the expected position.
   */
  function CheckIdOp(getTy: TxType, variant: TxType): (r: Outcome<OpExecutionError>)
    ensures r.Pass? <==> getTy == variant
    ensures r.Fail? ==> r.error == IncorrectTxType(JoinRing, getTy)
  {
    if getTy == variant then Pass else Fail(IncorrectTxType(JoinRing, getTy))
  }

  /**
   * The kind of id under which `push` as written accepts each variant: a
   * compact restatement of the kinds its three branches check, used to state
   * the rejection and acceptance lemmas below in one line.
   */
  function AcceptedKind(op: Operation): TxType
  {
    match op
    case JoinRingOperation(_) => JoinRing
    case PutOperation(_) => Put
    case GetOperation(_) => Put
  }

  /** True iff the registry holds nothing at all. */
  predicate IsEmpty(s: OpStateStorage)
  {
    s.joinRing == map[] && s.put == map[] && s.get == map[]
  }

  /**
   * Every key sits in the map its kind selects for `push`: join keys are
   * `JoinRing`, and both put and get keys are `Put` (the quirk).
   */
  predicate WellKinded(s: OpStateStorage)
  {
    && (forall t :: t in s.joinRing ==> t.kind == JoinRing)
    && (forall t :: t in s.put ==> t.kind == Put)
    && (forall t :: t in s.get ==> t.kind == Put)
  }

  /** Whether `s` holds `op` under `id`, in the map of `op`'s variant. */
  predicate Holds(s: OpStateStorage, id: Transaction, op: Operation)
  {
    match op
    case JoinRingOperation(j) => id in s.joinRing && s.joinRing[id] == j
    case PutOperation(p) => id in s.put && s.put[id] == p
    case GetOperation(g) => id in s.get && s.get[id] == g
  }

  /** `OpStateStorage::new`: three empty maps and the given ring. */
  function New(ring: Ring): (s: OpStateStorage)
    ensures IsEmpty(s) && WellKinded(s)
    ensures s.ring == ring
    ensures forall id, op :: !Holds(s, id, op)
  {
    OpStateStorage(map[], map[], map[], ring)
  }

  /**
   * `OpStateStorage::push`. A rejected push changes nothing; an accepted one
   * stores the operation under `id` in its variant's map, replacing any
   * earlier entry, and leaves the other two maps and the ring alone.
   */
  function Push(s: OpStateStorage, id: Transaction, op: Operation): (r: PushResult)
    ensures op.JoinRingOperation? ==> (r.outcome.Pass? <==> TxTypeOf(id) == JoinRing)
    ensures op.PutOperation? ==> (r.outcome.Pass? <==> TxTypeOf(id) == Put)
    ensures op.GetOperation? ==> (r.outcome.Pass? <==> TxTypeOf(id) == Put)
    ensures r.outcome.Fail? ==> r.outcome.error == IncorrectTxType(JoinRing, TxTypeOf(id))
    ensures r.outcome.Fail? ==> r.storage == s
    ensures r.storage.ring == s.ring
    ensures r.outcome.Pass? ==> Holds(r.storage, id, op)
    ensures r.outcome.Pass? ==>
      && (forall t :: t != id ==> (t in r.storage.joinRing <==> t in s.joinRing))
      && (forall t :: t != id && t in s.joinRing ==> r.storage.joinRing[t] == s.joinRing[t])
      && (forall t :: t != id ==> (t in r.storage.put <==> t in s.put))
      && (forall t :: t != id && t in s.put ==> r.storage.put[t] == s.put[t])
      && (forall t :: t != id ==> (t in r.storage.get <==> t in s.get))
      && (forall t :: t != id && t in s.get ==> r.storage.get[t] == s.get[t])
    ensures r.outcome.Pass? && !op.JoinRingOperation? ==> r.storage.joinRing == s.joinRing
    ensures r.outcome.Pass? && !op.PutOperation? ==> r.storage.put == s.put
    ensures r.outcome.Pass? && !op.GetOperation? ==> r.storage.get == s.get
  {
    match op
    case JoinRingOperation(tx) =>
      var check := CheckIdOp(TxTypeOf(id), JoinRing);
      if check.Fail? then PushResult(s, check)
      else PushResult(s.(joinRing := s.joinRing[id := tx]), Pass)
    case PutOperation(tx) =>
      var check := CheckIdOp(TxTypeOf(id), Put);
      if check.Fail? then PushResult(s, check)
      else PushResult(s.(put := s.put[id := tx]), Pass)
    case GetOperation(tx) =>
      var check := CheckIdOp(TxTypeOf(id), Put);
      if check.Fail? then PushResult(s, check)
      else PushResult(s.(get := s.get[id := tx]), Pass)
  }

  /**
   * `OpStateStorage::pop`. It looks only in the map the id's kind selects;
   * a hit is returned in the matching variant and removed, a miss returns
   * `None` and changes nothing. A `Canceled` id has no defined behaviour in
   * the source, so it is excluded here.
   */
  function Pop(s: OpStateStorage, id: Transaction): (r: PopResult)
    requires TxTypeOf(id) != Canceled
    ensures r.storage.ring == s.ring
    ensures r.popped.None? ==> r.storage == s
    ensures r.popped.Some? ==> VariantKind(r.popped.value) == TxTypeOf(id)
    ensures r.popped.Some? ==> Holds(s, id, r.popped.value) && !Holds(r.storage, id, r.popped.value)
    ensures TxTypeOf(id) == JoinRing ==>
      && r.storage.put == s.put && r.storage.get == s.get
      && r.storage.joinRing == s.joinRing - {id}
      && (r.popped.Some? <==> id in s.joinRing)
    ensures TxTypeOf(id) == Put ==>
      && r.storage.joinRing == s.joinRing && r.storage.get == s.get
      && r.storage.put == s.put - {id}
      && (r.popped.Some? <==> id in s.put)
    ensures TxTypeOf(id) == Get ==>
      && r.storage.joinRing == s.joinRing && r.storage.put == s.put
      && r.storage.get == s.get - {id}
      && (r.popped.Some? <==> id in s.get)
  {
    match TxTypeOf(id)
    case JoinRing =>
      if id in s.joinRing
      then PopResult(s.(joinRing := s.joinRing - {id}), Some(JoinRingOperation(s.joinRing[id])))
      else PopResult(s, None)
    case Put =>
      if id in s.put
      then PopResult(s.(put := s.put - {id}), Some(PutOperation(s.put[id])))
      else PopResult(s, None)
    case Get =>
      if id in s.get
      then PopResult(s.(get := s.get - {id}), Some(GetOperation(s.get[id])))
      else PopResult(s, None)
  }

  /** Every rejection reports `JoinRing` as the expected kind, whatever was pushed. */
  lemma RejectionNamesJoinRing(s: OpStateStorage, id: Transaction, op: Operation)
    requires Push(s, id, op).outcome.Fail?
    ensures Push(s, id, op).outcome.error.expected == JoinRing
    ensures Push(s, id, op).outcome.error.actual == TxTypeOf(id)
    ensures TxTypeOf(id) != AcceptedKind(op)
  {
  }

  /** A `Get` operation under a `Get`-kind id is always rejected. */
  lemma GetOpUnderGetIdRejected(s: OpStateStorage, id: Transaction, g: GetOp)
    requires TxTypeOf(id) == Get
    ensures Push(s, id, GetOperation(g)).outcome == Fail(IncorrectTxType(JoinRing, Get))
    ensures Push(s, id, GetOperation(g)).storage == s
  {
  }

  /**
   * `push` accepts an operation exactly when the id's kind is the one its
   * branch checks: the per-variant acceptance clauses of `Push` collected
   * into one statement over `AcceptedKind`.
   */
  lemma PushAcceptsIff(s: OpStateStorage, id: Transaction, op: Operation)
    ensures Push(s, id, op).outcome.Pass? <==> TxTypeOf(id) == AcceptedKind(op)
  {
  }

  /** `push` and `pop` keep every key in the map its kind selects for `push`. */
  lemma PushPreservesWellKinded(s: OpStateStorage, id: Transaction, op: Operation)
    requires WellKinded(s)
    ensures WellKinded(Push(s, id, op).storage)
  {
  }

  lemma PopPreservesWellKinded(s: OpStateStorage, id: Transaction)
    requires TxTypeOf(id) != Canceled
    requires WellKinded(s)
    ensures WellKinded(Pop(s, id).storage)
  {
  }

  /**
   * In a well-kinded registry `pop` never yields a `Get` operation, and a
   * `pop` under a `Get`-kind id finds nothing and changes nothing.
   */
  lemma PopNeverYieldsGet(s: OpStateStorage, id: Transaction)
    requires TxTypeOf(id) != Canceled
    requires WellKinded(s)
    ensures Pop(s, id).popped.None? || !Pop(s, id).popped.value.GetOperation?
    ensures TxTypeOf(id) == Get ==> Pop(s, id) == PopResult(s, None)
  {
    if TxTypeOf(id) == Get {
      assert id !in s.get;
    }
  }

  /**
   * Round trip for the two correctly guarded variants: after a successful
   * push of a join or put operation, the first pop of that id returns exactly
   * it, and a second pop returns nothing.
   */
  lemma PushThenPop(s: OpStateStorage, id: Transaction, op: Operation)
    requires !op.GetOperation?
    requires Push(s, id, op).outcome.Pass?
    ensures TxTypeOf(id) != Canceled
    ensures Pop(Push(s, id, op).storage, id).popped == Some(op)
    ensures Pop(Pop(Push(s, id, op).storage, id).storage, id).popped == None
  {
    var s1 := Push(s, id, op).storage;
    var r2 := Pop(s1, id);
    assert Holds(s1, id, op);
    match op {
      case JoinRingOperation(j) =>
        assert r2.popped == Some(JoinRingOperation(s1.joinRing[id]));
      case PutOperation(p) =>
        assert r2.popped == Some(PutOperation(s1.put[id]));
    }
  }

  /**
   * A `Get` operation that `push` accepts is out of reach of `pop`: the id
   * is `Put`-kind, so `pop` searches the put map, returns whatever put
   * operation is stored there, and the get entry stays behind.
   */
  lemma AcceptedGetIsNeverPopped(s: OpStateStorage, id: Transaction, g: GetOp)
    requires Push(s, id, GetOperation(g)).outcome.Pass?
    ensures TxTypeOf(id) == Put
    ensures Pop(Push(s, id, GetOperation(g)).storage, id).popped != Some(GetOperation(g))
    ensures Pop(Push(s, id, GetOperation(g)).storage, id).popped ==
      (if id in s.put then Some(PutOperation(s.put[id])) else None)
    ensures Holds(Pop(Push(s, id, GetOperation(g)).storage, id).storage, id, GetOperation(g))
  {
  }

  /**
   * Isolation: two different transactions pushed one after the other are
   * each popped back unchanged (for the correctly guarded variants).
   */
  lemma PushPushIsolation(s: OpStateStorage, t1: Transaction, a: Operation, t2: Transaction, b: Operation)
    requires t1 != t2
    requires !a.GetOperation? && !b.GetOperation?
    requires Push(s, t1, a).outcome.Pass?
    requires Push(Push(s, t1, a).storage, t2, b).outcome.Pass?
    ensures TxTypeOf(t1) != Canceled && TxTypeOf(t2) != Canceled
    ensures Pop(Push(Push(s, t1, a).storage, t2, b).storage, t1).popped == Some(a)
    ensures Pop(Pop(Push(Push(s, t1, a).storage, t2, b).storage, t1).storage, t2).popped == Some(b)
  {
    var s2 := Push(Push(s, t1, a).storage, t2, b).storage;
    assert Holds(s2, t1, a);
    assert Holds(s2, t2, b);
    var s3 := Pop(s2, t1).storage;
    assert Holds(s3, t2, b);
  }

  /** A pop of a never-stored id returns nothing and changes nothing. */
  lemma PopAbsent(s: OpStateStorage, id: Transaction)
    requires TxTypeOf(id) != Canceled
    requires id !in s.joinRing && id !in s.put && id !in s.get
    ensures Pop(s, id) == PopResult(s, None)
  {
  }
}
