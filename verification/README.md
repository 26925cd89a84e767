# ServerGo storage engine: verified model

This project models the storage engine of ServerGo and the request task that drives it, and proves what they
promise. `dafny verify dfyconfig.toml` checks everything.

The engine has two tiers. A *hot index* is a power-of-two table of atomic slots addressed by `hash & mask`, with no
tag check. A *cold tier* is a columnar partition fed by a bounded queue that a background writer drains. An apply
stores into the slot and only then tries to send an `InsertFast` to the queue, ignoring refusal. A read loads the
slot and, on a miss, reads the cold tier. The key/value layer encodes `put key val` as a record whose payload is
`sha256(key)` followed by `val`.

## Layout

- `Base`: machine integers, byte strings, records. `HotIndex`: mask arithmetic and the table. `Addressing`: entity
  ids and the key/value encoding. `ColumnStore`: commands, rows, log replay, listing by epoch.
- `Tiers`: the two tiers as one value, the atomic steps on it, the invariant they keep, and the plain map it stands
  for. `Stores`: the stores as classes, each method proved against the step it performs. `Equivalence`: the tiered
  store against the pure cache.
- `Concurrent`: the step system of one process (any number of threads, separate store and send, separate hot load and
  cold read, drain, refused sends) with its invariants. A run starts on whatever log the process replayed.
  `Linearizability` and `Agreement`: the theorems over its runs.
- `Recovery`: histories of a partition. A history is a sequence of processes, each with its own hash seed and run, each
  replaying a durable prefix of what the one before it executed.
- `ThreadCache`: the thread-local worker and column cache with the fast read path.
- `MacAddress`, `RequestTask`, `RequestWorker`: decoding the target of a VM script, the interleaved request tasks, each
  of them and each peer a thread of the concurrent store, and the handler's own body.

## Assumptions on code outside the model

- SHA-256 is a deterministic function. AHash is deterministic within a process; its keys are drawn once per process
  (`ahash` with default features, Cargo.toml:12), so it is a function of a seed and the input, and every process has a
  seed of its own. Otherwise both are arbitrary (`Hashers`). No injectivity is assumed except where a lemma says so
  (`SlotsDistinct`, `Apart`, `JointIdsDistinct`).
- A slot load and a slot store are atomic. `try_send` atomically enqueues on a bounded FIFO or refuses; in the step
  system it may refuse at any time, and it never accepts beyond the bound.
- An `InsertFast` sets payload, epoch and type of one entity together; a query session sees one snapshot and
  enumerates each of its entities once, in an unspecified order.
- A restart replays a prefix of the executed log that contains at least what the previous start replayed. The log
  holds the entity ids of the process that wrote it.
- Records that the node receives from peers are applied to the same store by other threads, step by step, at any time.
- Route addresses are never 0 and identify routes; a column found by name stays the same object. `usize` has 64 bits.
- Tasks interleave at the port sends and, since several workers and peers share the store, at every step inside it. A
  send to a closed port is an attempt like any other. A number that a peer has used is not given to a task.

## What the proofs show about the documentation

- The specification document says each thread registers exactly once per route. The cache holds one entry, so this is true exactly
  when the thread never comes back to a route it has left (`OncePerRouteIff`, with a two-route witness in
  `ReturningRegistersAgain`).
- It also calls the tiered store a write-through cache. A refused send leaves a hot record with no cold counterpart
  (`RefusalBreaksAgreement`), and two overlapping applies to one entity can leave the tiers holding different records
  although nothing was refused (`OverlapBreaksAgreement`).
- A get may answer with a record the store never held: a hot miss that races with a store reads the record's cold form.
  Gets are exact in all runs if and only if the cold tier keeps every record that may be stored, that is, if none has an
  epoch of 2^32 or more or a signature (`ExactIff`); every single record that it changes has a failing run
  (`MissedGetAnswersUnheldRecord`). Decoded key/value answers are exact always (`KvGetIsLinearizable`).
- src/storage.rs:452 calls a put persistent. The log stores ids hashed with the writer's own keys, so a durable put is
  found again after a restart exactly when the new process computes the same id (`DurableRecordFoundIff`). Different ids
  lose it (`RehashLosesDurablePut`), and a cross-over of ids serves one key's value under another
  (`RehashServesForeignValue`), even though no process has a collision of its own (`DistinctWithinIsNotEnough`;
  `RehashWitness` gives such hash functions). Restarts are safe if and only if keys with different digests have different
  ids across all processes (`RestartSafeIff`).
- The early returns at src/storage.rs:244-250 skip `leave`. An entity with a payload alone leaks a pin, and the fast path
  then finds nothing where the session finds a record (`PayloadOnlyLeaks`). Leaked pins are never given back
  (`DepthsAddUpToLeaks`). The stores write all three attributes together, so this needs another writer on the partition:
  on anything these stores wrote the fast read is exact and balanced (`StoresNeverLeak`).

## Model

| member | source | states |
|---|---|---|
| `HotIndex.MaskIsMod` | src/storage.rs:133-148 | for every hash and every power-of-two capacity, 1 included, masking with capacity - 1 is reduction modulo the capacity |
| `HotIndex.AliasIffCongruent` | src/storage.rs:142-148 | two hashes share a slot exactly when they are congruent modulo the capacity |
| `HotIndex.GetIsLastCongruent` | src/storage.rs:142-148 | after any sequence of sets, the slot of a hash holds the last record set under a congruent hash |
| `HotIndex.GlobalHotIndex.constructor` | src/storage.rs:133-140 | the loop builds a table of the given capacity with every slot empty |
| `HotIndex.GlobalHotIndex.Get` | src/storage.rs:142-144 | returns the last record set in the residue class of the hash, always within bounds |
| `HotIndex.GlobalHotIndex.Set` | src/storage.rs:146-148 | changes exactly the slot of the hash |
| `Addressing.KvRoundTrip` | src/storage.rs:415-450 | for every key and value, put and get agree on the address, and decoding returns the value |
| `ColumnStore.ReplayIsLastWrite` | src/storage.rs:318-332 | an entity has a row exactly when the log mentions it, and its row is that of its last command |
| `ColumnStore.EpochsPartition` | src/storage.rs:375-395 | an entity with payload and epoch is listed by exactly one epoch, below 2^32, and larger epochs list nothing |
| `ColumnStore.ListedOnce` | src/storage.rs:375-395 | an epoch query lists no entity twice |
| `Tiers.ApplyThenRead` | src/storage.rs:300-373 | an applied record, whether or not its send was refused, reads back unchanged: a payload under 32 bytes at its SHA-256, any other at its own first 32 bytes |
| `Tiers.InsertThenLookup` | src/storage.rs:54-117 | the same for the pure cache |
| `Tiers.SentCommand` | src/storage.rs:336-372 | an accepted apply enqueues one command: the keyed hash of that address, the epoch modulo 2^32, type and payload unchanged |
| `Tiers.ExecutedRecord` | src/storage.rs:318-372 | the cold tier returns the cold form of the record last executed on its entity |
| `Tiers.ColdForm` | src/storage.rs:318-372 | the cold form has the epoch modulo 2^32, the same payload and type, and 64 zero bytes as signature |
| `Tiers.GetAfterApply` | src/storage.rs:415-431 | after any applied record, put or not, a get at a key equal to a short payload returns the payload, and a get whose digest heads a longer one returns the tail for type 100 and the whole payload for every other type |
| `Tiers.PutThenRead` | src/storage.rs:434-453 | a put stores epoch 0, type 100, zero signature and digest followed by value under the digest of the key, and sends the same contents, or nothing if refused |
| `Tiers.DrainIsInvisible` | src/storage.rs:300-332 | executing a pending command never changes what any read returns |
| `Tiers.PutIsMapUpdate` | src/storage.rs:434-453 | under distinct slots a put updates the plain map of the keys at its key and nowhere else, accepted or refused |
| `Tiers.StoreIsRegisterUpdate` | src/storage.rs:335-363 | storing a record of any kind updates the plain map at the keys it is addressed to and nowhere else, if no other key shares its slot |
| `Tiers.CollisionReturnsForeignValue` | src/storage.rs:485-494 | unconditionally, a put under one key is read back under another exactly when they share a slot, and otherwise leaves it alone |
| `Stores.TieredStore.constructor` | src/storage.rs:284-294 | a new store has an empty hot table of 262144 slots over the replayed partition |
| `Stores.TieredStore.ApplySignedRecord` | src/storage.rs:335-373 | stores into the slot of the address and then enqueues or is refused, nothing else changes; a following read at the SHA-256 of a short payload, or at the head of a long one, returns the record |
| `Stores.TieredStore.GetRecord` | src/storage.rs:300-333 | returns the two-tier read, counts one hit or miss according to whether the slot is filled, changes no tier |
| `Stores.TieredStore.GetByEpoch` | src/storage.rs:375-395 | the loop returns the record of each listed entity, in snapshot order, and no others |
| `Stores.PureCacheStore.ApplySignedRecord` | src/storage.rs:54-91 | stores into the slot of the address and sends the payload length as epoch and type 0; a following read at the SHA-256 of a short payload, or at the head of a long one, returns the record |
| `Stores.PureCacheStore.GetRecord` | src/storage.rs:101-117 | returns the record of the slot, or nothing |
| `Stores.L2Executor.Get` | src/storage.rs:415-431 | returns the decoded two-tier read at the digest of the key |
| `Stores.L2Executor.Put` | src/storage.rs:434-453 | applies the key/value record; a get of the key then returns the value |
| `Equivalence.AlikeIff` | src/storage.rs:101-117 | at every tier a process reaches, the tiered store and the pure cache answer a read alike exactly when the slot is filled or the entity was not replayed at start-up |
| `Equivalence.TieredIsPure` | src/storage.rs:54-117 | started on an empty partition, the tiered store gives the answers of the pure cache for every sequence of operations, drain schedule and refusal pattern |
| `Concurrent.RunKeepsInv` | src/storage.rs:300-373 | in every run rows are the replay of the log, every drained or queued entity of this process has its slot filled, and the queue respects its bound |
| `Concurrent.HotIsLastStored` | src/storage.rs:146-148 | in every run of a process each slot holds the last record this process stored into it |
| `Concurrent.FilledSlotsStayFilled` | src/storage.rs:142-148 | in every run of a process a filled slot never empties |
| `Concurrent.LogAndQueueAreSent` | src/storage.rs:365-372 | in every run executed and queued commands together are the replayed log followed by the accepted commands, in acceptance order |
| `Concurrent.AppliesAreConserved` | src/storage.rs:365-372 | in every run of a process completed applies are, as multisets, the drained, queued and refused commands |
| `Concurrent.HitsAndMisses` | src/storage.rs:306-316 | in every run hits plus misses are the hot loads, and misses are exactly the loads that preceded the first store to their slot |
| `Concurrent.ReadCharacterization` | src/storage.rs:300-333 | in every process, whatever it replayed, a read is the last record stored in this process into the slot, or else the cold record of the exact entity in a prefix of what was accepted |
| `Linearizability.GetIsLinearizable` | src/storage.rs:300-333 | in every run each get answers with the record the store held at a moment inside the get, including when a miss races with a write; an inexact answer was read cold and is the cold form of a changed record stored inside the get |
| `Linearizability.ColdStableGetIsExact` | src/storage.rs:300-333 | a get is exact unless it overlaps a store to its own entity of a record that the cold tier changes |
| `Linearizability.MissedGetAnswersUnheldRecord` | src/storage.rs:300-373 | for every record that the cold tier changes, with a large epoch or a signature, a run storing only that record in which a missed get answers with a record no read at any moment would have returned |
| `Linearizability.ExactIff` | src/storage.rs:300-373 | for every set of records, gets are exact in all runs storing only those if and only if the cold tier keeps each of them unchanged |
| `Linearizability.UndisturbedGetIsExact` | src/storage.rs:300-333 | without a store in its interval a get answers exactly what a read at its invocation returns |
| `Linearizability.PutTakesEffectOnce` | src/storage.rs:335-373 | every completed apply made exactly one store, between its invocation and its completion |
| `Linearizability.StepRefinesMap` | src/storage.rs:335-463 | every step acts on the plain map as a last-write-wins register does, if a stored record shares no slot with a key it is not addressed to: a store updates the keys it is addressed to, other steps do nothing |
| `Linearizability.KvGetIsLinearizable` | src/storage.rs:415-463 | in every run each get of a key answers with the value the plain map held for it at a moment between invocation and response, exactly |
| `Linearizability.StoreIsRegister` | src/storage.rs:335-463 | the store is an independent register: the map recovered from the replayed log, updated by the stores of the run in order, for records of any kind that stay apart from the keys |
| `Linearizability.GetMatchesRegister` | src/storage.rs:415-463 | each get of a key answers with the register's value at a moment between invocation and response, and with nothing exactly when the register then has none |
| `Linearizability.KvRunStoresApart` | src/storage.rs:415-463 | in a run whose applies are puts, distinct slots keep all stores apart |
| `Agreement.TiersAgreeAtQuiescence` | src/storage.rs:351-372 | after every run without overlapping applies to one entity, once everything is drained, each filled slot whose entity had no refused send equals its own cold record up to epoch and signature, even under slot collisions |
| `Agreement.TiersAgreeIff` | src/storage.rs:351-372 | in every run, overlapping or not, once the queue is drained a filled slot agrees with the cold tier if and only if the last accepted command on its entity is that of the last record stored into the slot |
| `Agreement.OverlapBreaksAgreement` | src/storage.rs:365-372 | a run with two overlapping applies and no refusal that ends with different records in the tiers, for all hash functions |
| `Agreement.RefusalBreaksAgreement` | src/storage.rs:365-372 | a run without overlap in which one refused send leaves the cold tier without the record |
| `Recovery.RestartRecoversAcceptedWrites` | src/storage.rs:286-332 | in every history, before the first store of a process, a read returns exactly the record of the last durable command whose stored id is the one this process computes, or nothing if there is none; that record was applied under that id by an earlier process or stood in the log the history began with |
| `Recovery.LogSources` | src/storage.rs:365-372 | every executed command of every process was in the log the history began with or was accepted from an apply of this or an earlier process, under the id that process computed |
| `Recovery.FoundAgainIff` | src/storage.rs:300-373 | after a restart a record is found again exactly when the last durable command on the id the new process computes has its contents |
| `Recovery.DurableRecordFoundIff` | src/storage.rs:300-373 | a durable record whose command is the last on its stored id, and whose contents are stored under no other id, is found again if and only if the two processes compute the same id |
| `Recovery.RehashLosesDurablePut` | src/storage.rs:300-373 | for every two seeds that give a key different ids, a history in which a durable accepted put is lost |
| `Recovery.RehashServesForeignValue` | src/storage.rs:415-463 | for every two seeds between which the ids of two keys with different digests cross over, a history in which a get after the restart returns the other key's value |
| `Recovery.DistinctWithinIsNotEnough` | src/storage.rs:415-463 | such a history exists even when the ids are distinct within each process |
| `Recovery.RestartedGetWasPut` | src/storage.rs:415-463 | under ids distinct across the processes of a history, a get before the first store of a process returns only values that an earlier process put under that key, or what the log the history began with holds under its id, even if slots collide |
| `Recovery.RestartSafeIff` | src/storage.rs:415-463 | over any set of seeds, every restarted get in every history from an empty log returns only values put under its key if and only if keys with different digests have different ids across the seeds |
| `Recovery.AnswersWereStored` | src/storage.rs:300-373 | in every history, whatever a get answers was stored by this process into the same slot, or is the cold form of a record applied by this or an earlier process under the very id looked up, or stood under that id in the log the history began with |
| `Recovery.KvAnswersWerePut` | src/storage.rs:415-463 | under slots distinct in the current process and ids distinct across the processes, a get never answers with a value that no process put under its key, unless the log the history began with holds it under its id |
| `Recovery.DrainedIsListed` | src/storage.rs:351-395 | a record that any process applied with epoch x is, once drained, listed under x mod 2^32 and no other epoch until its stored id is overwritten |
| `ThreadCache.FastRefinesSession` | src/storage.rs:232-260 | the fast path returns a record exactly for complete entities, and then the session read returns the same one |
| `ThreadCache.FastAgreesIff` | src/storage.rs:232-260 | fast path and session read agree exactly when an entity with a payload also has an epoch and a type |
| `ThreadCache.CompleteSnapshotsAgree` | src/storage.rs:240-261 | if all published entities are complete the two reads agree everywhere and no read skips its leave |
| `ThreadCache.StoresNeverLeak` | src/storage.rs:232-261 | on a snapshot of any layout whose rows are those of these stores' commands every entity is complete, the fast read returns the cold record, and no read skips its leave |
| `ThreadCache.SnapshotHoldsReplay` | src/storage.rs:232-261 | the columns and pointers that a log of commands publishes, one element a column for each command, hold exactly the rows of its replay |
| `ThreadCache.PublishedReads` | src/storage.rs:232-332 | in the snapshot of every log, fast read and session read of every id return the contents of the last command on it, or nothing exactly if there is none, and no pin is leaked |
| `ThreadCache.PayloadOnlyLeaks` | src/storage.rs:232-261 | an entity with a payload alone: the fast read finds nothing, the session finds a record, and one call ends at depth one |
| `ThreadCache.TlsWorkerCache.GetWorker` | src/storage.rs:176-194 | returns the worker of the asked route, registering one exactly when the route is not the cached one |
| `ThreadCache.TlsWorkerCache.GetRecordFromRoute` | src/storage.rs:196-264 | from every valid cache state returns the fast read of the route, keeps cached columns the route's own and the worker present, and skips the leave exactly for published incomplete entities |
| `ThreadCache.TlsWorkerCache.ReadThroughSession` | src/storage.rs:318-332 | the cached-worker session returns the session read and leaves the pin depth as it was |
| `ThreadCache.RegistrationsAreSwitches` | src/storage.rs:176-208 | registrations are zero for no calls and otherwise one plus the route switches |
| `ThreadCache.SingleRouteRegistersOnce` | src/storage.rs:176-208 | a thread that uses one route registers exactly once |
| `ThreadCache.OncePerRouteIff` | src/storage.rs:176-208 | registrations equal the number of routes exactly when the thread never returns to a route it left, and are never fewer |
| `ThreadCache.ReturningRegistersAgain` | src/storage.rs:176-208 | going from one route to another and back registers three times for two routes |
| `ThreadCache.DepthCountsLeaks` | src/storage.rs:236-261 | after any call sequence the worker's depth is the number of skipped leaves since its registration, so zero exactly when there were none |
| `ThreadCache.DepthsAddUpToLeaks` | src/storage.rs:176-261 | after any call sequence the depths of all workers registered, abandoned ones included, add up to the number of skipped leaves |
| `ThreadCache.CompleteRoutesStayBalanced` | src/storage.rs:210-261 | if all published entities are complete, every prefix of every sequence of fast reads ends at depth zero and leaves no earlier worker pinned |
| `ThreadCache.ReadAll` | src/storage.rs:196-264 | on a new cache any sequence of fast reads over any routes answers as the snapshots say and ends in exactly the state the fold over the calls gives |
| `ThreadCache.GrowthKeepsValid` | src/storage.rs:210-235 | a cache stays valid while its route gains columns and entities between calls |
| `MacAddress.DecodeMac` | src/main.rs:346-364 | the loop fills all six bytes with in-bounds slices and computes the decoded address |
| `MacAddress.PairParses` | src/main.rs:355-357 | parsing two hexadecimal digits never fails |
| `MacAddress.DigitsAreTheLiterals` | src/main.rs:351 | the hexadecimal digits are exactly the characters of 0123456789abcdef and 0123456789ABCDEF |
| `MacAddress.ValuesAreThePositions` | src/main.rs:356 | the value of a digit is its position there |
| `MacAddress.KeywordIff` | src/main.rs:348-349 | the keywords are all and broadcast in any mixture of letter cases and nothing else, and they mean FF:FF:FF:FF:FF:FF |
| `MacAddress.MacRoundTrip` | src/main.rs:346-364 | every address, in any letter case and with any non-hexadecimal bytes in between, decodes to itself |
| `MacAddress.WrittenRoundTrip` | src/main.rs:346-364 | every address written digit by digit in any letter case, joined by colons, hyphens or nothing, decodes to itself |
| `MacAddress.BroadcastIff` | src/main.rs:346-364 | the result is all FF exactly for the keywords, a digit count other than twelve, or twelve F digits |
| `RequestTask.RunKeepsInv` | src/main.rs:297-405 | in every interleaving of task, peer and writer steps, from any replayed log, each port was offered exactly the frames of the admitted VM puts that passed it, the tasks stored exactly the records of the unrejected puts past their store, and exactly the finished tasks replied, each once and with what their request and their read deserve |
| `RequestTask.OfferedMeansAdmitted` | src/main.rs:325-377 | a frame on a port is that of a put under vm: of a loopback origin with scripts enabled and at most 4096 bytes, and it is opcode 0x40 and the script, to the address decoded from the rest of the key |
| `RequestTask.PutReplies` | src/main.rs:325-386 | the exact cause of each error reply to a put in the request's own fields; Ok exactly when the record is stored, and then a VM script was offered to every port |
| `RequestTask.OtherReplies` | src/main.rs:388-402 | the replies to info, ping and unknown commands |
| `RequestTask.StoredOnlyAfterEveryPort` | src/main.rs:376-384 | a VM put is in the store only if every port was offered its frame |
| `RequestTask.RejectedPutLeavesNoTrace` | src/main.rs:325-344 | a rejected VM put appears in no port and stores nothing |
| `RequestTask.RejectionChangesNothing` | src/main.rs:325-344 | the step that rejects a VM put leaves ports and the whole store as they were, and replies with the refusal |
| `RequestTask.TierHoldsStored` | src/main.rs:384-389 | unconditionally, in every interleaving each filled slot holds a record some thread stored, the log extends the replayed one, and every later command is that of a stored record |
| `RequestTask.StoreIsLastPuts` | src/main.rs:384-389 | from any replayed log and in every interleaving of steps, the store is the recovered map updated by the stored records in order, if no stored record shares a slot with a key it is not addressed to |
| `RequestTask.TaskPutsAreApart` | src/main.rs:384-389 | when only tasks store and the keys put have distinct slots, no stored record shares a slot with another key |
| `RequestTask.GetRepliesLastPut` | src/main.rs:308-318 | a finished get task replied with the value last written under its key, by a task, a peer or before the start, at a moment between its first and its last step in the store, or with nothing exactly when there was none then |
| `RequestWorker.Worker.ForwardScript` | src/main.rs:325-382 | checks in source order, then offers the frame of opcode, script and decoded address to every port, or to none |
| `RequestWorker.Worker.Handle` | src/main.rs:307-403 | one reply per request, with the sequential effect on ports and store |
| `RequestWorker.UninterruptedTaskIsAlone` | src/main.rs:301-404 | a task that is not interrupted has in the interleaved system exactly the handler's effect and reply |

## Left out

- Internals of the column store (RCU, log format, reclamation), consensus and gossip, and the broadcast of put
  records: only the contracts above are used, and nothing is claimed about replicas.
- The node's own path from a peer message to the store: any thread that is no task may apply any record at any time.
- Restarts of the request tasks: histories over several processes are stated for the store (`Recovery`).
- RESP framing and command parsing, start-up, settings, telemetry, sandboxing, sockets and core affinity.
- `prune`, `flush`, the mock store and the in-memory file system: they do nothing that could be stated.
- The columns the pure cache sends (payload length as epoch, type 0): sent by the model, but no read depends on them.
- The request loop of the multi-core build (src/main.rs:453-560): same logic; only the first copy is modelled, with the
  interleavings in the store that several workers allow.
- The store classes open query sessions directly; the worker they pin is modelled on its own in `ThreadCache`, where
  the attribute names are an enumeration.
- The texts of error replies: a reply carries which error it is.
- How the partition lays its columns out: `SnapshotOf` appends one element to each column for every command;
  `StoresNeverLeak` holds for every layout with the same rows.
- The hit counter of the partition's own cache (src/storage.rs:241): nothing depends on it.
- `hash & mask` is modelled on naturals, bit by bit, rather than on 64-bit vectors.
