/**
 * The shared vocabulary of the node: transactions and their kinds, the three
 * operation variants, peers, locations and messages. Types whose internals
 * belong to other components (the per-operation state, the ring, peer keys,
 * locations, payloads) are opaque: only their equality is used.
 */
module Types {
  import opened Wrappers

  /** Per-operation progress state of a join, a put and a get. */
  type JoinRingOp(==, !new)
  type PutOp(==, !new)
  type GetOp(==, !new)

  /** The ring view the registry carries along for operation logic. */
  type Ring(==, !new)

  /** Identity of a peer, and a position on the ring. */
  type PeerKey(==, !new)
  type Location(==, !new)

  /** The operation-specific body of a message. */
  type Payload(==, !new)

  /** The kind a transaction declares (`TransactionTypeId`). */
  datatype TxType = JoinRing | Put | Get | Canceled

  /**
   * A transaction: a unique identifier together with its declared kind.
   * Registries are keyed by the whole value.
   */
  datatype Transaction = Transaction(id: nat, kind: TxType)

  /** `Transaction::tx_type`. */
  function TxTypeOf(t: Transaction): TxType
  {
    t.kind
  }

  /** An in-flight operation, tagged by its variant. */
  datatype Operation =
    | JoinRingOperation(joinRing: JoinRingOp)
    | PutOperation(put: PutOp)
    | GetOperation(get: GetOp)

  /** The transaction kind that names an operation's variant. */
  function VariantKind(op: Operation): TxType
  {
    match op
    case JoinRingOperation(_) => JoinRing
    case PutOperation(_) => Put
    case GetOperation(_) => Get
  }

  /** A peer reference whose ring position may still be unresolved. */
  datatype PeerKeyLocation = PeerKeyLocation(peer: PeerKey, location: Option<Location>)

  /** A protocol message: the transaction it belongs to and its body. */
  datatype Message = Message(tx: Transaction, payload: Payload)

  /** Bytes on the wire. */
  newtype byte = x: int | 0 <= x < 256
  type Bytes = seq<byte>
}
