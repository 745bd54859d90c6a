# Locutus node core: operation registry and in-memory transport, in Dafny

This project models two pieces of one Locutus peer's runtime and proves
properties of them.

- The **registry of in-flight operations** (`OpStateStorage`). It keeps one map
  per operation variant (join-ring, put, get), each keyed by `Transaction`.
  `push` checks the transaction's kind against the operation's variant before
  storing. `pop` picks a map by the transaction's kind and removes the entry.
- The **in-memory test transport** (`MemoryConnManager` / `InMemoryTransport`).
  It is modelled as a sequential state machine. The shared network is an
  unbounded FIFO channel value. Each peer has an inbound stack
  (`msg_stack_queue`) filled by a filter loop, and a queue (`msg_queue`) filled
  by a transfer loop and read by `recv`. Each loop is modelled as one iteration
  of its body. Whether `try_lock` succeeds is an input to the step.

Everything is immutable data with pure transition functions:

- `wrappers.dfy`: `Option` and `Outcome`.
- `types.dfy`: transactions, operations, peers, messages. The per-operation
  state, the ring, peer keys, locations and payloads are opaque types with
  equality.
- `op_state.dfy`: the registry as written, with its invariant `WellKinded`.
- `op_state_trace.dfy`: arbitrary sequences of `push`/`pop` calls.
- `op_state_intended.dfy`: the corrected `push` (see Findings).
- `in_memory.dfy`: the channel, one peer's endpoint, `send`, the two loop
  iterations, one `recv` iteration, `add_connection`.
- `in_memory_system.dfy`: any number of peers on one network, with any
  interleaving of steps. It proves no cross-delivery.
- `in_memory_scenarios.dfy`: concrete schedules for delivery, reordering and
  loss.
- `broadcast_fabric.dfy`: the broadcast network the transport was evidently
  meant to be (see Findings).

Serialization (bincode) is not modelled. It is a `Codec` value supplied by the
caller: `encode` may fail, and `decode` returns `None` on malformed bytes. No
property assumes that decoding inverts encoding, except where a lemma states
that as a precondition (`RoundTrips`).

Facts about the source that the model reproduces as written:

- `ConnError::TransportClosed` is never produced. A `Disconnected` result of
  `try_send` is only logged (`in_memory.rs:146-149`), so `send` still returns
  `Ok`. That branch is unreachable in the source anyway (see "## Left out").
- `send` serializes before it checks the location (`in_memory.rs:70-73`). So a
  message that fails to serialize is reported as a serialization failure even
  when the target has no location.
- The envelope's `origin_loc` is the *target's* location (`in_memory.rs:142`,
  passed in at line 73), not the sender's. Nothing in these files reads it.
- The shared crossbeam channel is multi-consumer. Every transport clones the
  one receiver (`in_memory.rs:104,109`), and a filter loop that reads an
  envelope addressed to another peer drops it (`in_memory.rs:122`). So each
  envelope reaches only one filter loop (see Findings).

## Model

| member | source | states |
|---|---|---|
| OpState.CheckIdOp | crates/locutus-node/src/node/op_state.rs:16-25 | the guard passes iff the id's kind matches the checked variant; otherwise its error is `IncorrectTxType(JoinRing, id kind)`, whichever variant was checked |
| OpState.New | crates/locutus-node/src/node/op_state.rs:28-35 | a new registry holds no operation, is well kinded, and keeps the given ring |
| OpState.Push | crates/locutus-node/src/node/op_state.rs:37-53 | join ops are accepted iff the id is JoinRing-kind, put ops iff Put-kind, and get ops iff Put-kind too; a rejection is `IncorrectTxType(JoinRing, id kind)` and changes nothing; an acceptance stores the op under `id` in its variant's map (replacing any earlier entry), leaves every other key and the other two maps alone, and never touches the ring |
| OpState.Pop | crates/locutus-node/src/node/op_state.rs:55-62 | for a non-Canceled id, only the map selected by the id's kind is consulted; a hit returns that entry in the variant matching the id's kind and removes it; a miss returns `None` and changes nothing; the other maps and the ring are untouched |
| OpState.RejectionNamesJoinRing | crates/locutus-node/src/node/op_state.rs:16-24 | every rejection carries `JoinRing` as the expected kind and the id's kind as the actual one, whatever op was pushed |
| OpState.GetOpUnderGetIdRejected | crates/locutus-node/src/node/op_state.rs:47-49 | a get operation pushed under a Get-kind id is always rejected and the registry is unchanged |
| OpState.PushAcceptsIff | crates/locutus-node/src/node/op_state.rs:38-50 | push succeeds exactly when the id's kind is the kind its branch checks (JoinRing, Put, Put) |
| OpState.PushPreservesWellKinded | crates/locutus-node/src/node/op_state.rs:37-53 | push keeps every key in the map its kind selects (join keys JoinRing-kind, put and get keys Put-kind) |
| OpState.PopPreservesWellKinded | crates/locutus-node/src/node/op_state.rs:55-62 | pop keeps that invariant |
| OpState.PopNeverYieldsGet | crates/locutus-node/src/node/op_state.rs:47-60 | in a well-kinded registry, pop never returns a get operation, and pop under a Get-kind id finds nothing and changes nothing |
| OpState.PushThenPop | crates/locutus-node/src/node/op_state.rs:39-58 | after a successful push of a join or put op, the first pop of that id returns exactly that op and a second pop returns `None` |
| OpState.AcceptedGetIsNeverPopped | crates/locutus-node/src/node/op_state.rs:47-58 | an accepted get op sits under a Put-kind id; pop of that id returns whatever put op was stored under it (or `None`), never the get op, and the get entry stays stored |
| OpState.PushPushIsolation | crates/locutus-node/src/node/op_state.rs:37-58 | two different transactions pushed in turn (join or put ops) are each popped back unchanged |
| OpState.PopAbsent | crates/locutus-node/src/node/op_state.rs:55-59 | pop of an id stored nowhere returns `None` and leaves the registry as it was |
| OpStateTrace.RunNeverYieldsGet | crates/locutus-node/src/node/op_state.rs:37-62 | over any sequence of push and pop calls from a well-kinded registry, the registry stays well kinded and no pop ever returns a get operation |
| OpStateTrace.FreshRunNeverYieldsGet | crates/locutus-node/src/node/op_state.rs:28-62 | from a registry built by `new`, no sequence of calls ever hands out a get operation |
| OpStateTrace.GetEntriesPersist | crates/locutus-node/src/node/op_state.rs:47-61 | once a get op is stored under `id`, no sequence of push and pop calls removes the get-map entry under `id` |
| OpStateIntended.Push | crates/locutus-node/src/node/op_state.rs:37-53 | corrected push: accepted iff the id's kind equals the op's variant kind; a rejection names that variant kind as expected and changes nothing; an acceptance sets exactly the entry under `id` in the op's own map (every other key of that map unchanged) and touches no other map |
| OpStateIntended.PushPreservesKindMatched | crates/locutus-node/src/node/op_state.rs:37-53 | the corrected push keeps every key in the map of its own kind |
| OpStateIntended.PushThenPop | crates/locutus-node/src/node/op_state.rs:37-62 | with the corrected push, every variant round-trips: pop returns exactly the pushed op, then `None` |
| OpStateIntended.GetGuardDiffers | crates/locutus-node/src/node/op_state.rs:47-49 | the two versions disagree exactly on get ops: under a Get-kind id only the corrected one accepts; under a Put-kind id only the as-written one does |
| OpStateIntended.AgreesOnJoinAndPut | crates/locutus-node/src/node/op_state.rs:39-46 | on join and put ops the two versions give the same registry and the same verdict |
| OpStateIntended.ExpectedKindDiffers | crates/locutus-node/src/node/op_state.rs:16-45 | a put op under a Get-kind id is rejected as `(JoinRing, Get)` as written and `(Put, Get)` as intended |
| InMemory.TrySend | crates/locutus-node/src/conn_manager/in_memory.rs:140-153 | the unbounded channel never reports `Full`; a connected channel appends the envelope at its back; a shut-down one rejects it and is unchanged |
| InMemory.TryRecv | crates/locutus-node/src/conn_manager/in_memory.rs:112-122 | a non-empty channel yields its oldest envelope and loses exactly it; an empty one reports `Empty` while connected and `Disconnected` after shutdown, unchanged |
| InMemory.NewManager | crates/locutus-node/src/conn_manager/in_memory.rs:25-137 | a new endpoint reports exactly the given openness and location, has empty stack and queue, and both loops running |
| InMemory.TransportSend | crates/locutus-node/src/conn_manager/in_memory.rs:139-156 | on a connected network exactly one envelope is appended: origin the sending peer, origin location the given location, target the given peer, data the given bytes; a shut-down network is left unchanged |
| InMemory.Send | crates/locutus-node/src/conn_manager/in_memory.rs:69-77 | serialization failure gives `SerializationFailure`; a target without a location gives `LocationUnknown` with the network unchanged; otherwise `Ok`, and a connected network gains exactly one envelope whose origin location is the target's location |
| InMemory.FilterStep | crates/locutus-node/src/conn_manager/in_memory.rs:111-126 | the oldest envelope leaves the network and joins this peer's stack iff it is addressed to this peer, otherwise it is dropped; an empty network changes nothing while connected and ends the loop once disconnected; an addressed stack stays addressed |
| InMemory.TransferStep | crates/locutus-node/src/conn_manager/in_memory.rs:34-45 | the newest envelope leaves the stack (LIFO); with the lock its decoded message is appended to the queue, without it the message is lost; undecodable bytes stop the loop; an empty stack changes nothing |
| InMemory.RecvStep | crates/locutus-node/src/conn_manager/in_memory.rs:57-66 | with the lock and a non-empty queue, the newest message is returned and removed (LIFO); otherwise nothing is returned and nothing changes |
| InMemorySystem.ConstructedEndpointAnswers | crates/locutus-node/src/conn_manager/in_memory.rs:160-166 | after any run, `is_open` and `location` of a peer's transport return exactly the values its `new` was given |
| InMemory.AddConnection | crates/locutus-node/src/conn_manager/in_memory.rs:79 | the connection manager is left exactly as it was |
| InMemorySystem.RunKeepsEndpoints | crates/locutus-node/src/conn_manager/in_memory.rs:102-137 | no run, from any system, adds or removes a peer or changes a transport's key, location or openness |
| InMemorySystem.SendKeepsInv | crates/locutus-node/src/conn_manager/in_memory.rs:69-145 | a send puts on the network only the envelope its event addresses |
| InMemorySystem.FilterKeepsInv | crates/locutus-node/src/conn_manager/in_memory.rs:111-126 | a filter iteration puts on a peer's stack only envelopes that were sent and are addressed to that peer |
| InMemorySystem.TransferKeepsInv | crates/locutus-node/src/conn_manager/in_memory.rs:34-45 | a transfer iteration queues only messages decoded from envelopes sent to that peer |
| InMemorySystem.RecvKeepsInv | crates/locutus-node/src/conn_manager/in_memory.rs:57-66 | a receive iteration hands out only a message that was sent to the receiving peer |
| InMemorySystem.StepPreservesInv | crates/locutus-node/src/conn_manager/in_memory.rs:34-126 | any single step of any peer keeps the no-cross-delivery invariant and every peer's key, location and openness |
| InMemorySystem.RunDeliversOnlyToAddressee | crates/locutus-node/src/conn_manager/in_memory.rs:34-166 | in any interleaving from a quiet system, every message a peer receives was decoded from an envelope that one of the run's sends addressed to that very peer; no peer's key, location or openness ever changes |
| InMemoryScenarios.QuietPathDelivers | crates/locutus-node/src/conn_manager/in_memory.rs:34-126 | on a quiet connected network, send then one filter, one transfer and one receive iteration (locks taken) deliver exactly the sent message to its target |
| InMemoryScenarios.TwoSendsStacked | crates/locutus-node/src/conn_manager/in_memory.rs:69-126 | two sends to one peer and two filter iterations leave both envelopes on its stack, oldest first |
| InMemoryScenarios.AlternatingDrainReverses | crates/locutus-node/src/conn_manager/in_memory.rs:34-66 | alternating transfer and receive iterations over a two-element stack hand out the newer message first |
| InMemoryScenarios.InterleavedRecvReverses | crates/locutus-node/src/conn_manager/in_memory.rs:34-126 | there is no ordering guarantee: messages sent `a` then `b` can be received `b` then `a` |
| InMemoryScenarios.FailedLockLosesMessage | crates/locutus-node/src/conn_manager/in_memory.rs:35-42 | a transfer iteration that misses the queue's lock loses the message: the system is back where it started and nothing is received |
| InMemoryScenarios.OtherPeerSwallowsMessage | crates/locutus-node/src/conn_manager/in_memory.rs:104-124 | when another peer's filter loop takes an envelope addressed to `y`, it drops it and the system returns to its state before the send |
| BroadcastFabric.AddressedToMembers | crates/locutus-node/src/conn_manager/in_memory.rs:113 | the selection of a log holds exactly its envelopes addressed to the peer |
| BroadcastFabric.FilterStep | crates/locutus-node/src/conn_manager/in_memory.rs:111-126 | corrected filter iteration: the next unread envelope of the log is kept iff it is addressed to this peer, the cursor advances, and the log is not consumed |
| BroadcastFabric.Drain | crates/locutus-node/src/conn_manager/in_memory.rs:111-126 | draining the log adds to the stack exactly the unread envelopes addressed to this peer, in log order |
| BroadcastFabric.OtherReaderTakesNothing | crates/locutus-node/src/conn_manager/in_memory.rs:104-124 | with the broadcast log, another peer's filter iteration adds nothing addressed to `y` to its own stack, and `y`'s drain afterwards still keeps the envelope addressed to `y` |
| BroadcastFabric.DrainKeepsEveryAddressed | crates/locutus-node/src/conn_manager/in_memory.rs:104-124 | with the broadcast log, every unread envelope addressed to the peer ends up on its stack, and the stack holds nothing addressed to anyone else |

## Left out

- Task spawning, the 10 ms sleeps and all timing are not modelled. Each loop is
  one iteration at a time, scheduled by the caller. So nothing here claims
  liveness or bounded latency.
- `parking_lot::Mutex` is not modelled. A `try_lock` outcome is a boolean input.
  The blocking `lock()` on the stack (`in_memory.rs:35,119`) always succeeds.
- bincode is not modelled. It is a caller-supplied `Codec`. A panic from
  `unwrap` on undecodable bytes (`in_memory.rs:38`) stops the transfer loop.
  The exact conversion of a bincode error into `ConnError` is not part of this
  model. It is assumed to be `SerializationFailure`.
- The `NETWORK_WIRES` global (`in_memory.rs:15-16,104`) is not modelled. The
  single shared channel is passed explicitly. The static holds both the sender
  and the receiver for the whole process, so the channel never disconnects,
  and every `Disconnected` branch in the source is dead code. The model keeps
  a `connected` flag anyway and covers those branches (a send on a shut-down
  channel returns `Ok` and changes nothing; a filter loop on an empty
  shut-down channel stops). This over-approximates the source; all the
  properties also hold for the runs the source can reach.
- Logging and `Logger::init_logger` are not modelled.
- HashMap hashing is not modelled. The maps are keyed by the whole
  `Transaction` value.
- The contents of `JoinRingOp`, `PutOp`, `GetOp`, `Ring`, `PeerKey`, `Location`
  and message payloads are not modelled. They are opaque types.
- OpState.Pop: a `Canceled`-kind id is excluded by precondition. The source
  reaches `todo!()` there (`op_state.rs:60`), which panics.
- `TxUpdateFailure` is declared but no modelled operation produces it. No code
  in these files builds it.
- The `ring` field is public and mutated by operation logic elsewhere. Here it
  is carried unchanged.
- The `Full` result of `try_send` is not reachable. `TrySend` never returns it,
  and `TransportSend` asserts that branch away. The panic it guards
  (`in_memory.rs:150-153`) is therefore absent.
- `recv` never returns an error in the source. A step that finds nothing
  returns `None`, meaning "keep waiting".

## Findings

| source | as written | input that shows it | evidently intended | confidence | as-written member | corrected member |
|---|---|---|---|---|---|---|
| crates/locutus-node/src/node/op_state.rs:47-49 | the `Get` branch of `push` checks the id against kind `Put` | push a get op under a Get-kind id: rejected. Push it under a Put-kind id: accepted into the get map, but `pop` of that id searches the put map, so it is never returned | check against kind `Get`, so get ops round-trip like the other two | high; not executed | OpState.AcceptedGetIsNeverPopped | OpStateIntended.PushThenPop |
| crates/locutus-node/src/node/op_state.rs:16-24 | the error always reports `JoinRing` as the expected kind | push a put op under a Get-kind id: the error is `IncorrectTxType(JoinRing, Get)` | report the kind the branch checked, `IncorrectTxType(Put, Get)` | medium; not executed | OpState.RejectionNamesJoinRing | OpStateIntended.Push |
| crates/locutus-node/src/conn_manager/in_memory.rs:104-124 | every peer's filter loop receives from one shared multi-consumer channel, and an envelope for another peer is dropped | three peers `x`, `y`, `z`: `x` sends to `y`, then `z`'s filter iteration runs first and drops the envelope; `y` never receives it | every peer sees every envelope and keeps those addressed to it (broadcast) | medium; not executed | InMemoryScenarios.OtherPeerSwallowsMessage | BroadcastFabric.OtherReaderTakesNothing |

The registry trace lemmas and the multi-peer transport model use the code as
written, since they describe what the code does. The corrected members are
proved separately, next to the as-written ones they replace.
