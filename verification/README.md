# pg_redis, verified

pg_redis embeds a Redis-like keyspace in PostgreSQL. This project models the
parts of its C code whose correctness is not visible in any single function,
and proves what they promise, in Dafny.

| files | what they model |
|---|---|
| `Base`, `Dsa` | bytes, options, the shared DSA segment as a map of live chunks with a failure counter |
| `ProbeTable`, `SharedHash` | the open-addressing hash table of shared mode: probing, tombstones, growth, shrinking, chunk ownership |
| `SharedList` | the DSA-backed doubly linked list of shared mode |
| `DirtyRing`, `RingSafety`, `RingGuards`, `RingRaces`, `RingStuck`, `RingDrains` | the multi-producer dirty ring with its two-phase drain, one step per shared-memory access |
| `Tables`, `AsyncDrain` | the durable tables, the six plans, and the drain as a reordering of a batch |
| `Values`, `Session`, `Flush`, `SessionStore`, `FlushRuns`, `Load` | session mode: delta tracking of lists, hashes and keys, the pre-commit flush, whole histories, and the loader |
| `Codec` | the TLV column format and the ring event layout |
| `AtomicHash`, `AtomicRetries`, `AtomicEvents`, `AtomicDrain`, `SharedStore` | atomic HSET and HDEL of shared mode with their ring-full retries, and what the drain makes of their events |
| `EndToEnd`, `DrainLoad` | from the commands through the ring to the tables, and back through the loader |
| `ColdStart`, `Locks` | the cold-start load race and the LWLock discipline |

Classes with `modifies` clauses stand for the objects that the source updates in
place; concurrent protocols are step relations over any number of backends.
Specification functions (`Contents`, `Exec`, `RunPlans`, `Replay`, `Apply`, …)
carry the meaning, methods are proved against them, and the theorems below are
about them.

The main results:

* **Hash table.** Whatever happened before, the bucket array refines a map, owns
  each of its chunks exactly once (also on every out-of-memory exit), keeps its
  load below 0.7, and so never reports "saturated".
* **Ring.** In every guarded run the retired batches followed by the window are
  the published history; one batch is outstanding at most; an aborted batch comes
  back from the same base, and only plans that succeeded are retired; no payload
  is freed twice, and once the ring is empty
  and no call runs, only payloads leaked by an error are left. Three facts that
  the source relies on without enforcing are step guards; what each decides is
  proved over every reachable state. In every interleaving: batches keep their
  base across a drop iff none was out; a live call whose slot is reclaimed is
  told to retry unless the slot was reserved again, and then its acknowledged
  event is in the history and in its slot iff its position is current and the
  slot still holds it; a stale reservation never enters the history, and
  write_head never passes the slot it leaves READY, whoever does what.
* **Flush.** Every command keeps the tracking invariant, and the flush brings the
  tables into agreement with memory if and only if no collection was created
  over surviving child rows; a reload then restores the keyspace.
* **Drain.** The grouped plans equal one-by-one replay if and only if the batch
  is `Safe`, a condition on the batch and the tables alone.
* **Atomic HSET and HDEL.** For every interleaving, retries collapse into the
  last attempt if and only if a verdict on expiry and fields, carried through the
  sections, is even; field counters are exact. For every run under either
  full-ring policy and every cut of the published log into batches (the batches
  that a ring run releases among them), the drains go through, and a field in the
  tables is the field in memory if and only if its last batch does not bury an
  upsert under a deletion and the command that settled it last was neither a late
  deletion nor a raise (with the exact exception where the buried upsert is what
  memory holds).
* **Cold start and locks.** At most one live loader and state 2 is final in every
  guarded run. A reset by the watchdog lets two backends load at once iff the
  loader was alive; the 2 of a FLUSHALL can be taken back iff a live loader has
  not completed; a dead loader can be replaced iff a time stamp was ever stored.
  No circular wait, and everything begun finishes.

Where the code and its comments or documentation disagree, the model follows the
code and a lemma shows the difference:

* `src/dirty_ring.c:233-235` claims that the slot owner is unique; it is only if
  `write_head` has not moved since it was read (`RingGuards.AcknowledgedIsPublished`,
  `RingStuck.StaleReservationStops`).
* `src/dirty_ring.c:435-437` takes a slow producer for a dead one; the retry path
  at lines 221-231 saves it only while the slot is not reserved again
  (`RingRaces.ReclaimOutcome`, `RingRaces.SecondOwner`).
* `src/shared_store.c:674-681` calls the retried HSET idempotent; its effect is,
  but for an EXPIRE in between (`AtomicRetries.ForeignExpirySticks`), and its reply
  is not (`AtomicHash.RetriedReplyIsFaithful`).
* `src/shared_store.c:779-786` calls the out-of-order window of a retried HDEL
  small; `AtomicDrain.LateDeletionLosesField` is a run through it. Without any
  retry, an HSET and an HDEL drained in one batch leave the field in the tables
  (`AtomicDrain.HsetThenHdelComesBack`).
* `src/persistence.c:1108-1109` takes a stale time stamp for a dead loader;
  `ColdStart.FreshLoaderIsRobbed` robs one that has just begun.
* A key deleted and re-created as a collection in one transaction keeps old child
  rows or makes the commit raise (`FlushRuns.RecreatedHashKeepsOldField`,
  `FlushRuns.RecreatedListCollides`).

Run `dafny verify dfyconfig.toml` in this directory to check the project.

## Model

| member | source | states |
|---|---|---|
| `ProbeTable.MissIsAbsent` | src/shared_hash.c:89-108 | a probe that reached an EMPTY slot without a match proves the field is nowhere in the table |
| `ProbeTable.FullRound` | src/shared_hash.c:92-121 | a probe over the whole ring of slots without a match proves the field absent |
| `ProbeTable.StoreAt` | src/shared_hash.c:342-372 | storing a new field in a free slot of its unbroken chain keeps all chains and distinctness and adds exactly that binding |
| `ProbeTable.EraseAt` | src/shared_hash.c:446-455 | a tombstone in place of a field keeps every other chain reachable and removes exactly that binding |
| `ProbeTable.CountIsCardinality` | src/shared_hash.c:470-478 | the number of OCCUPIED slots is the size of the refined map |
| `ProbeTable.CountsOnUpdate` | src/shared_hash.c:196-206 | how one slot update moves the occupied and tombstone counts |
| `ProbeTable.EmptySlotExists` | src/shared_hash.c:245-253 | fewer occupied and tombstone slots than slots leave an EMPTY one, so probes end |
| `SharedHash.PowerOfTwoGap` | src/shared_hash.c:256-260 | a power of two that may shrink stays a power of two of at least 16 |
| `SharedHash.FindBucket` | src/shared_hash.c:78-127 | a hit holds the field; a free slot is the first one on the field's chain, tombstone or empty, and the field is absent; "saturated" only when every slot is occupied |
| `SharedHash.InsertOwned` | src/shared_hash.c:185-207 | moving a bucket adds its binding and its two chunks, nothing else, and keeps the counts |
| `SharedHash.MoveBuckets` | src/shared_hash.c:228-240 | the rehash loop leaves the new table with the same map and the same owned chunks as the old one |
| `SharedHash.OldBlockFreed` | src/shared_hash.c:209-243 | after freeing the old block every chunk is owned by the new table exactly once |
| `SharedHash.Rehash` | src/shared_hash.c:216-243 | same map, no tombstones, exact counts, load within 0.7; on failure nothing changed |
| `SharedHash.FreeTable` | src/shared_hash.c:155-177 | exactly the table's chunks are freed, each once |
| `SharedHash.SharedHash.EnsureRoom` | src/shared_hash.c:287-314 | sixteen buckets at first, doubled exactly when one more slot would pass seven tenths; the map is kept, and it fails only when an allocation did |
| `SharedHash.SharedHash.Overwrite` | src/shared_hash.c:320-340 | the value is replaced, the old chunk freed, counts unchanged; on failure the map is unchanged |
| `SharedHash.SharedHash.InsertAt` | src/shared_hash.c:342-373 | tombstone reuse or fresh slot adds exactly the binding; on failure no chunk leaks |
| `SharedHash.SharedHash.Set` | src/shared_hash.c:262-373 | HSET refines map update, `was_new` is exact, out of memory exactly when an allocation failed, ownership and load invariants kept, "saturated" unreachable |
| `SharedHash.SharedHash.Get` | src/shared_hash.c:375-410 | returns exactly the map's answer |
| `SharedHash.SharedHash.Exists` | src/shared_hash.c:412-426 | exactly membership in the map |
| `SharedHash.SharedHash.Count` | src/shared_hash.c:469-478 | the size of the map |
| `SharedHash.SharedHash.Del` | src/shared_hash.c:428-467 | HDEL refines map removal, the result is exact, chunks freed once; the table halves exactly when fewer than one in eight buckets are left, above sixteen, if memory allows |
| `SharedHash.SharedHash.ShrinkIfSparse` | src/shared_hash.c:457-465 | the lazy shrink, its exact size and its harmless failure |
| `SharedHash.SharedHash.Release` | src/shared_hash.c:155-177 | afterwards only the other owners' chunks are live |
| `SharedHash.SharedHash.Materialize` | src/shared_hash.c:480-521 | the local copy is the map; NULL exactly for the empty one |
| `SharedList.StoredExactly` | src/types.h:150-157 | a value survives the 16-bit length field exactly when it has at most 65535 bytes |
| `SharedList.PushedFront` | src/shared_list.c:97-110 | linking a new head keeps prev/next mirrored and every chunk owned once |
| `SharedList.PushedBack` | src/shared_list.c:145-158 | linking a new tail keeps prev/next mirrored and every chunk owned once |
| `SharedList.PoppedFront` | src/shared_list.c:206-224 | unlinking and freeing the head keeps the rest linked and owned once |
| `SharedList.PoppedBack` | src/shared_list.c:246-264 | unlinking and freeing the tail keeps the rest linked and owned once |
| `SharedList.MetaPushed` | src/shared_list.c:98-122 | head, tail, length and the ordinal bounds after a push at either end describe the longer list |
| `SharedList.SharedList.NewNode` | src/shared_list.c:12-39 | a fresh node and value chunk, or nothing at all when either allocation fails |
| `SharedList.SharedList.Push` | src/shared_list.c:77-171 | the sequence grows by exactly the stored value at the chosen end, with ordinal 0 or the next one beyond that end; failure exactly when an allocation failed, and then nothing changed |
| `SharedList.SharedList.PopLeft` | src/shared_list.c:187-224 | returns head value and ordinal and removes exactly that cell; NULL exactly on the empty list |
| `SharedList.SharedList.PopRight` | src/shared_list.c:227-265 | returns tail value and ordinal and removes exactly that cell; NULL exactly on the empty list |
| `SharedList.SharedList.Release` | src/shared_list.c:55-75 | frees every node and value once and nothing of other owners |
| `SharedList.SharedList.Materialize` | src/shared_list.c:267-307 | the copy has the same values, order and ordinals with nothing pending |
| `RingSafety.StepInv` | src/dirty_ring.c:166-488 | every guarded step keeps the window, ownership and payload invariant, also mid-release, mid-abort and mid-drop |
| `RingSafety.RunInv` | src/dirty_ring.c:166-488 | the invariant holds in every state of every guarded run |
| `RingSafety.IdxIsMod` | src/dirty_ring.c:181-195 | the slot index is the position modulo the capacity |
| `RingSafety.Fifo` | src/dirty_ring.c:296-375 | retired batches followed by the window equal the published events in write_head order |
| `RingSafety.OneBatch` | src/dirty_ring.c:313-335 | two drainers with a non-empty batch are the same one, and the batch is the front of the unretired history |
| `RingSafety.OthersCollectNothing` | src/dirty_ring.c:313-335 | while a batch is out, another drainer's collect ends with zero events |
| `RingSafety.ReleaseAssertion` | src/dirty_ring.c:353-358 | `read_head == base` holds at every release and abort |
| `RingSafety.FreedOnce` | src/dirty_ring.c:360-371 | no step of a release, drop or giving-up call frees a payload that is not live |
| `RingSafety.LeakedByRaise` | src/dirty_ring.c:252-285 | a payload is leaked only by an error, also one raised out of a full ring |
| `RingSafety.OnlyLeaksRemain` | src/dirty_ring.c:360-371 | with no call under way and the ring empty, every payload but the leaked ones has been freed |
| `RingSafety.LogGrows` | src/dirty_ring.c:236-241 | the published history is only ever extended, guarded or not |
| `RingDrains.FullIff` | src/dirty_ring.c:186-191 | a call finds the ring full exactly when its position is outside the capacity from read_head on |
| `RingDrains.PublishGoesThrough` | src/dirty_ring.c:181-243 | with room and no reservation, an undisturbed call publishes its event |
| `RingDrains.CollectTakesAll` | src/dirty_ring.c:313-335 | a collect with no other batch out takes the oldest events in order, as many as it may and as there are, and cannot stop before |
| `RingDrains.ReleasedSucceeded` | src/persistence.c:1604-1634 | in every run from the start, guarded or not, a batch is released or retired only after its plans succeeded, and aborted only after they raised |
| `RingDrains.RetiresItsBatch` | src/dirty_ring.c:360-373 | what is retired is that batch, and read_head moves past exactly it |
| `RingDrains.RaisedIsNotRetired` | src/persistence.c:1604-1626 | from plans that raise to the end of the abort, nobody retires anything and the batch cannot be released |
| `RingDrains.RaisedComesBack` | src/persistence.c:1604-1626 | after the abort its events are READY at their positions and lead the next batch |
| `RingSafety.Recollected` | src/dirty_ring.c:296-335 | until something is retired, any later batch starts at the same base and has the same events in the same order |
| `RingSafety.AbortedComesBack` | src/dirty_ring.c:385-402 | in any run from the failure of a batch to the end of its abort nothing is retired, its events are READY again at their positions, and the next batch starts with them |
| `RingGuards.AcknowledgedIsPublished` | src/dirty_ring.c:194-243 | a reservation run to its end always reports success, but its event enters the history iff write_head had not moved |
| `RingStuck.StaleNeverCounts` | src/dirty_ring.c:233-241 | once write_head has passed the position that a call read, its last compare-and-swap, in any run, reports success and publishes nothing |
| `RingStuck.StaleReservationStops` | src/dirty_ring.c:181-241 | a reservation of an EMPTY slot for a position left behind, in any interleaving up to READY and any run after it: its event never enters the history and write_head never passes the slot |
| `RingStuck.StuckForever` | src/dirty_ring.c:181-241 | under no guard at all, a READY slot that no call is about to count stays READY and ahead of write_head |
| `RingStuck.WedgedForever` | src/dirty_ring.c:181-199 | once write_head has come to that slot, in every run, guarded or not, nothing is ever published again |
| `RingRaces.DropPassesBatch` | src/dirty_ring.c:446-488 | whatever happens in between, a finished drop has moved read_head past the base of a batch that was out |
| `RingRaces.DropSparesBatchesIff` | src/dirty_ring.c:353-358 | after a complete drop, in any interleaving, every outstanding batch meets `read_head == base` iff no batch was out when it began |
| `RingRaces.ReclaimOutcome` | src/dirty_ring.c:213-241 | a live call robbed of its filled slot, whatever others did: told to retry with everything in order if the slot was not reserved again; otherwise it reports success, and its event is in the history and in its slot iff its position is current and the slot still holds it |
| `RingRaces.LateSuccessIff` | src/dirty_ring.c:213-241 | the same at its compare-and-swap, for every owner of the slot |
| `RingRaces.LateSuccessFifo` | src/dirty_ring.c:233-241 | across that success the window is still the history iff the slot holds what the call wrote |
| `RingRaces.RobbedBeforeFilling` | src/dirty_ring.c:201-217 | a call robbed before filling comes to its compare-and-swap as if robbed after it, exactly if its late write was harmless |
| `RingRaces.RobbedFillsIff` | src/dirty_ring.c:201-217 | its late payload write is harmless iff nobody relies on what the slot holds |
| `RingRaces.SecondOwner` | src/dirty_ring.c:201-231 | what the second owner then does: one that has filled, or fills now, leaves its own event in the slot and publishes it a second time; a dead one does nothing |
| `RingGuards.StaleHeadLosesEvent` | src/dirty_ring.c:186-241 | a run with a stale write_head in which an acknowledged event is never published |
| `RingGuards.LiveReclaimReplacesEvent` | src/dirty_ring.c:426-442 | a run in which reclaiming under a slow producer executes another event in place of the published one |
| `RingGuards.DropUnderBatchStrandsRing` | src/dirty_ring.c:446-488 | a run in which a drop under a batch leaves read_head at an emptied slot and a published event unreachable |
| `Tables.PlansSucceed` | src/persistence.c:68-104 | the six plans go through iff every child has a parent and no inserted item collides |
| `Tables.KeyCell` | src/persistence.c:68-104 | what the plans leave in one parent row |
| `Tables.FieldCell` | src/persistence.c:68-104 | what the plans leave in one field row |
| `Tables.ItemCell` | src/persistence.c:68-104 | what the plans leave in one item row |
| `Tables.LastWinsKeys` | src/persistence.c:68-88 | the last-by-ordinality dedup keeps exactly the keys of the vector |
| `Tables.PlansKeepForeignKeys` | src/persistence.c:68-104 | the plans never leave a child without its parent |
| `AsyncDrain.Drain` | src/persistence.c:1389-1596 | on a batch that replays, the drain raises exactly on an item collision and leaves the replayed tables exactly when the batch is safe |
| `AsyncDrain.ReplayKey` | src/persistence.c:1389-1460 | one-by-one replay leaves in a parent row what the last event about it says |
| `AsyncDrain.DrainedRow` | src/persistence.c:1408-1436 | the drained row of a key has the kind, expiry and version of its last upsert, and its bytes exactly when they are not empty and the key is a string or an integer |
| `AsyncDrain.ReplayedRow` | src/persistence.c:1408-1436 | the same for one-by-one replay |
| `DrainLoad.DrainedScalarLoads` | src/persistence.c:708-822 | a string or integer published with its encoding, drained in any batch and loaded before it expires, gives the value and expiry back |
| `AsyncDrain.ReplayField` | src/persistence.c:1389-1460 | the same for a field row, deletions of the key included |
| `AsyncDrain.ReplayItem` | src/persistence.c:1389-1460 | the same for an item row |
| `AsyncDrain.GroupedSucceeds` | src/persistence.c:1470-1596 | for a batch whose replay succeeds, the grouped plans succeed iff no item is inserted twice or over a row that the batch does not delete |
| `AsyncDrain.GroupedIsReplay` | src/persistence.c:1389-1596 | grouped execution equals replay iff the batch is safe |
| `AsyncDrain.OrderedIsSafe` | src/persistence.c:1389-1596 | deletes before writes of a cell, key deletes last and single inserts make every replayable batch safe |
| `AsyncDrain.HdelAfterHsetIsLost` | src/persistence.c:1470-1596 | HSET then HDEL of one field in one batch leaves the field in the tables |
| `AsyncDrain.RecreatedKeyIsLost` | src/persistence.c:1470-1596 | deleting and re-creating a key in one batch loses the key and its new field |
| `ListValues.PushKeepsOrder` | src/list.c:82-140 | ordinals still rise from head to tail with the bounds at the ends, and exactly one pending node with an unused ordinal is added |
| `ListValues.PushMeans` | src/list.c:82-140 | a left push puts the value before the old ones, a right push after them, and leaves the old nodes as they were |
| `ListValues.PushedOrdinal` | src/list.c:82-140 | the new node has ordinal 0 in an empty list and the next one beyond its end otherwise |
| `ListValues.PopKeepsOrder` | src/list.c:164-260 | order kept, exactly the end node leaves, and its ordinal is recorded for deletion iff its row is durable |
| `ListValues.List.Push` | src/list.c:82-140 | in place: the values are the new one before or after the old ones, and order is kept; `Keyspace.Push` works through it |
| `ListValues.List.Pop` | src/list.c:181-260 | in place: returns the end value, removes that node, records its ordinal exactly if it was durable; `Keyspace.Pop` works through it |
| `HashValues.Hash.Set` | src/hash_value.c:78-129 | value and dirty flag set in place, tombstones left alone, counter kept; new exactly when absent |
| `HashValues.Hash.Del` | src/hash_value.c:160-207 | field removed, tombstone recorded and counter kept in place; true exactly when present |
| `Session.UnlinkMember` | src/kv_store.c:217-256 | unlinking removes exactly that key from the dirty chain |
| `Session.FailureIsNoChange` | src/pg_redis.c:568-624 | a command that raises leaves the keyspace as it was |
| `Session.ExecKeepsTracking` | src/kv_store.c:216-256 | every command keeps: clean rows match the tables, every difference is dirty, pending, tombstoned or awaiting deletion |
| `Session.ExecAllKeepsTracking` | src/kv_store.c:490-559 | the same for every sequence of commands |
| `Session.LeftoversAppear` | src/persistence.c:473-498 | a command leaves uncovered child rows iff it creates a collection over surviving ones |
| `Flush.HashAgrees` | src/persistence.c:399-436 | after delete-tombstones-then-upsert-dirty the durable fields are the in-memory ones iff none was left over |
| `Flush.ListAgrees` | src/persistence.c:443-469 | after delete-then-insert the durable items are exactly the live nodes iff none was left over, also when ordinals are reused |
| `Flush.FlushAgrees` | src/persistence.c:307-678 | a flush that goes through brings tables and keyspace into agreement iff there were no leftovers |
| `Flush.FlushedRow` | src/persistence.c:368-398 | the flushed row of a dirty entry has its kind, encoded value, expiry and version |
| `Flush.NoLeftoversNoCollision` | src/persistence.c:564-601 | without leftovers no list insert hits the primary key |
| `Flush.FlushKeepsForeignKeys` | src/persistence.c:500-678 | the flush keeps the foreign keys |
| `Flush.AgreedIsTracked` | src/persistence.c:660-678 | an agreed state with cleared tracking starts the next transaction tracked and without leftovers |
| `SessionStore.PlansFlush` | src/persistence.c:368-498 | the collected vectors run through the plans have, cell by cell, the effect of a flush |
| `SessionStore.PlansRaise` | src/persistence.c:500-601 | the plans raise exactly on a list-item collision |
| `SessionStore.Keyspace.StoreUpsert` | src/kv_store.c:174-214 | a missing entry is added as the default one, nothing else changes |
| `SessionStore.Keyspace.MarkDirty` | src/kv_store.c:490-529 | the entry is flagged and put at the head of the dirty chain unless it is there already |
| `SessionStore.Keyspace.UnlinkDirty` | src/kv_store.c:216-256 | the unlinking walk removes exactly the key |
| `SessionStore.Keyspace.StoreRemove` | src/kv_store.c:216-256 | entry gone, unlinked from the chain, recorded as pending delete; found exactly when present |
| `SessionStore.Keyspace.Set` | src/pg_redis.c:386-437 | SET leaves the string, keeps the expiry, bumps the version and touches no other key; error exactly for a bad key |
| `SessionStore.Keyspace.Incr` | src/pg_redis.c:568-637 | INCR/DECR leave and reply the sum of the old integer (0 if missing) and delta, modulo 2^64; each error exactly when due and then nothing changes |
| `SessionStore.Keyspace.Hset` | src/pg_redis.c:643-730 | HSET leaves the field at the value and every other field and key alone; the reply says whether it is new; each error exactly when due |
| `SessionStore.Keyspace.Hdel` | src/pg_redis.c:822-896 | HDEL removes exactly the field and records its tombstone; the reply says whether it was there; each error exactly when due |
| `SessionStore.Keyspace.Push` | src/pg_redis.c:976-1031 | the values are the new one before or after the old ones; the reply is the new length; each error exactly when due |
| `SessionStore.Keyspace.Pop` | src/pg_redis.c:1034-1092 | the end node leaves and its value is the reply, NULL exactly for a missing key or an empty list; each error exactly when due |
| `SessionStore.Keyspace.Del` | src/pg_redis.c:485-502 | DEL removes exactly the entry and records the delete; error and reply exact |
| `SessionStore.Keyspace.Expire` | src/ttl.c:18-39 | EXPIRE keeps the value and leaves the expiry at now plus the seconds, or removes the entry for zero or fewer; error and reply exact |
| `SessionStore.Keyspace.Collect` | src/persistence.c:368-498 | the walk over the dirty chain collects exactly the deltas, and deletes only keys that are not dirty again |
| `SessionStore.Keyspace.RunFlush` | src/persistence.c:307-678 | succeeds iff no item collides, then flushes and clears all tracking; agreement iff there were no leftovers; a raise leaves the tables alone |
| `FlushRuns.NextKeepsCoherence` | src/persistence.c:307-678 | coherence is kept by every command that does not create over surviving rows and by every commit |
| `FlushRuns.HistoriesStayCoherent` | src/persistence.c:307-678 | along every such history no commit can raise, and after each one tables and memory agree with tracking cleared |
| `FlushRuns.EmptyIsCoherent` | src/kv_store.c:55-64 | an empty keyspace over empty tables is a coherent start |
| `FlushRuns.RecreatedHashKeepsOldField` | src/persistence.c:473-498 | DEL then HSET of a key in one transaction keeps an old field row |
| `FlushRuns.RecreatedListCollides` | src/persistence.c:564-601 | DEL then a push on a list with ordinal 0 in one transaction makes the commit raise |
| `Load.LoadHash` | src/persistence.c:824-903 | the loaded hash has exactly the key's field rows, none dirty |
| `Load.LoadList` | src/persistence.c:905-990 | the loaded list has exactly the key's item rows in ordinal order, none pending |
| `Load.LoadOne` | src/persistence.c:708-822 | one parent row: loaded only if unexpired, as its type says, with its value, children and expiry; undecodable scalars are queued for deletion |
| `Load.LoadAll` | src/persistence.c:1001-1023 | no expired row is loaded, every unexpired one that decodes or has children is, with exactly that content, and nothing is marked dirty |
| `Load.ReloadRestores` | src/persistence.c:708-990 | loading flushed tables gives back exactly the entries that are not empty and not expired, with the same values, order, ordinals and expiry, versions reset to 1 |
| `Load.ReloadAgrees` | src/persistence.c:708-990 | the reloaded keyspace agrees with the tables, and is tracked, exactly when no entry that stands for a value had expired |
| `Tlv.StringRoundTrip` | src/binval.c:66-168 | decoding an encoded string gives it back iff it is shorter than 2^32; the int decoder rejects it |
| `Tlv.IntRoundTrip` | src/binval.c:66-188 | decoding an encoded int64 gives it back; the string decoder rejects it |
| `Tlv.HeaderIsCanonical` | src/binval.c:115-146 | an accepted header determines the whole byte string |
| `Tlv.EncodedLayout` | src/binval.c:16-112 | tag 1 or 2, four octets of length with the low one first, then the payload |
| `Tlv.EncodedInt` | src/binval.c:16-112 | the payload of an integer is its two's complement, the low octet first |
| `Tlv.AcceptedIsEncoding` | src/binval.c:115-188 | every accepted byte string is the encoding of its result |
| `Tlv.PutU32` | src/binval.c:16-63 | four little-endian bytes in place, the rest of the buffer untouched |
| `Tlv.EncodeString` | src/binval.c:66-112 | the buffer filled in place is the encoding |
| `WireEvents.WireEvent.Encode` | src/dirty_ring.c:513-658 | key, field and value laid out inline or in one fresh chunk, lengths cut to 16 bits; fails exactly when the allocation does |
| `WireEvents.EventRoundTrip` | src/dirty_ring.c:661-703 | the decoders recover key, field and value from either layout iff all lengths fit 16 bits |
| `AtomicHash.CountsAlwaysOk` | src/shared_store.c:690-737 | after every interleaving of locked sections `field_count` is the number of fields in every hash |
| `AtomicHash.RetriesCollapse` | src/shared_store.c:674-777 | HSET leaves the keyspace that its last attempt alone would have left, whatever others did in between, unless an EXPIRE caught the key while only the attempts kept it alive |
| `AtomicRetries.CollapsesIffEven` | src/shared_store.c:674-777 | for every interleaving of attempts and sections of others, HSET leaves what its last attempt alone would have left iff the verdict is even |
| `AtomicRetries.VerdictIsRight` | src/shared_store.c:674-777 | the verdict carried along says exactly whether the expiries differ and in which fields |
| `AtomicRetries.RemovalHeals` | src/shared_store.c:466-487 | whatever went before, a removal of the key by another backend heals it |
| `AtomicRetries.ForeignExpirySticks` | src/shared_store.c:690-737 | an interleaving in which the EXPIRE of another backend sticks to a key that only a failed attempt made |
| `AtomicHash.RetriedReplyIsFaithful` | src/shared_store.c:774-776 | on an undisturbed hash the reply is New exactly without a retry over a missing field, so it is that of one HSET iff there was no retry or the field was there before |
| `AtomicHash.HsetMeans` | src/shared_store.c:690-776 | HSET leaves the field at the value and all else of a live entry, starts a missing or expired one afresh, and answers New, Overwrite or WRONGTYPE exactly when due |
| `AtomicHash.HdelMeans` | src/shared_store.c:814-860 | HDEL removes exactly a live field, drops an expired entry, and answers Deleted, Noop or WRONGTYPE exactly when due |
| `AtomicHash.ExpireMeans` | src/ttl.c:18-39 | EXPIRE gives a live entry its new time and changes nothing else |
| `AtomicEvents.MemoryAfter` | src/shared_store.c:838-860 | each HSET attempt sets its field, the first section of HDEL removes its field, and HDEL's publish retries change nothing in memory |
| `AtomicEvents.StepReplays` | src/shared_store.c:739-771 | replaying the events of a step never fails and changes the tables as stated |
| `AtomicEvents.GivesUpIff` | src/shared_store.c:640-659 | in 'block' mode a command gives up at the hundredth full ring in a row and not before; in 'sync_flush' mode never |
| `AtomicEvents.StepCell` | src/shared_store.c:640-861 | whenever no command on a cell is under way, the verdict carried along decides whether it agrees; kept by every step, raises included |
| `AtomicEvents.ReplayAgreesIff` | src/shared_store.c:640-861 | for every run under either policy, one-by-one replay agrees with memory on a cell iff the step that settled it last was neither a late deletion nor a raise that left memory apart from the tables; and on a parent row iff no HSET raised before its first event |
| `AtomicDrain.DrainsGoThrough` | src/persistence.c:1389-1596 | whatever the cut of the log into batches, every drain succeeds and leaves the replayed parent rows |
| `AtomicDrain.DrainedField` | src/persistence.c:1470-1596 | a drained field is the replayed one, except that a deletion buried in the last batch leaves the upsert before it |
| `AtomicDrain.DrainAgreesIff` | src/persistence.c:1389-1596 | for every run, policy and cut: the exact condition under which a field in the tables is the field in memory |
| `AtomicDrain.SwallowedComesBack` | src/persistence.c:1470-1596 | a buried deletion leaves the old value in the tables, and memory has no field exactly when nothing was lost |
| `AtomicDrain.HsetThenHdelComesBack` | src/persistence.c:1470-1596 | HSET and HDEL, both complete and drained in one batch, leave the field in the tables but not in memory |
| `AtomicDrain.LateDeletionLosesField` | src/shared_store.c:779-797 | a run in which a retried HDEL's event lands behind a newer HSET of its field: the field is in memory and gone from the drained tables |
| `EndToEnd.ReleasedBatchesAgreeIff` | src/persistence.c:1305-1634 | the batches that a ring run releases, executed in order, make a field in the tables the field in memory under exactly that condition |
| `SharedStore.SharedEntry.HsetLocked` | src/shared_store.c:690-776 | one attempt under the lock: the reply, fields and expiry read off the entry before, with `field_count` equal to the table's size and every chunk owned once |
| `SharedStore.SharedEntry.HdelLocked` | src/shared_store.c:814-845 | the removal under the lock: reply and fields read off the entry before; an expired entry gives back all its chunks |
| `ColdStart.RunInv` | src/persistence.c:1063-1128 | in every guarded run at most one live backend loads, 2 is stored only over loaded data and is final |
| `ColdStart.StealDoublesIff` | src/persistence.c:1109-1117 | after the watchdog's reset some run has two backends load at once iff the loader it replaced is alive |
| `ColdStart.FlushAllTakenBackIff` | src/persistence.c:1720-1731 | after FLUSHALL some run takes its 2 back iff a live loader has not completed its load |
| `ColdStart.RecoverableIffStamped` | src/persistence.c:1104-1117 | after the loader's death some run completes the load iff a time stamp was ever stored |
| `ColdStart.WatchdogWaits` | src/persistence.c:1104-1117 | a loader is taken for stale exactly when a stamp was stored and is thirty seconds old |
| `ColdStart.PatientRun` | src/persistence.c:1104-1117 | in every run, no backend resets the word within that time of the last stamp unless one was already about to |
| `ColdStart.PollingMeans` | src/persistence.c:1063-1100 | a backend returns exactly when it reads 2 and loads exactly when its swap finds 0 |
| `ColdStart.UnstampedIsWedged` | src/persistence.c:1080-1083 | without a stamp every run keeps polling |
| `ColdStart.FreshLoaderIsRobbed` | src/persistence.c:1104-1117 | a run without lapse of time in which the watchdog robs a fresh loader and a published 2 is taken back |
| `ColdStart.RobbedFromTheStart` | src/persistence.c:1104-1117 | such a run exists from the start of the cluster: one failed load, the watchdog time, two backends |
| `Locks.StepInv` | src/shmem.c:363-384 | the lock table says exactly what the backends' control points hold |
| `Locks.MutualExclusion` | src/shmem.c:363-384 | an exclusive holder is the only holder of its lock |
| `Locks.GrantedIff` | src/shmem.c:342-384 | a shared request is granted exactly when nobody owns the lock, an exclusive one exactly when nobody holds it |
| `Locks.KeyExclusion` | src/shmem.c:342-354 | while a backend writes a key, or FLUSHALL resets the keyspace, nobody else holds that key's lock |
| `Locks.NoCircularWait` | src/shmem.c:363-384 | no ring of backends, each waiting for a lock of the next, exists in any reachable state |
| `Locks.OperationsFinish` | src/shmem.c:363-384 | whatever the scheduler does, operations under way finish in exactly the steps they have left, and some step is enabled until then |

## Left out

- SQL entry points, GUC definitions, argument copying, the value-size limit and result building: thin glue over PostgreSQL calls; the commands are modelled from the point where keys and fields are byte strings.
- SPI, snapshots, subtransactions, latches, signals and the worker loop: foreign calls; a plan either updates the tables or raises.
- Commit durability of a drained batch: the release follows execution, not the commit, so only "executed" is claimed.
- Rollback, and reload on top of memory after an abort: coherence is for committed transactions.
- SessionStore.Keyspace.RunFlush: says nothing about memory when the flush raises; the source clears field and node flags while it collects, the model after the plans, and the two differ only in a transaction that aborts.
- SessionStore.Keyspace.Expire: the expiry is stored as data; no entry expires during a session run, and TTL rounding is not modelled.
- Session-mode lists are sequences, and the dirty chain is a sequence of keys: prev/next pointers are proved for the shared list only. A command works on its list or hash as an object and stores the object's state back in the entry.
- AtomicDrain.DrainAgreesIff: hashes without expiry, HSET and HDEL only; the source publishes nothing for shared DEL and lazy expiry, and shared list writeback renumbers ordinals, so no durable agreement is claimed there. FLUSHALL dropping pending events is outside this theorem.
- Shared-mode SET, INCR and list commands under concurrency: they read and write back under two lock holds, so the source offers no atomicity.
- surgical_apply_hash and the writeback of whole entries: a writeback replaces the entry in one step; the payload chunks of strings, integers and lists inside a shared entry are not part of `SharedStore`.
- The events of an atomic command are published in the same step as its change; the lock makes this invisible to the cells of its key.
- RingRaces.ReclaimOutcome: the other calls keep the two other guarded facts; the stuck-timeout of the reclaim pass is a choice of the scheduler.
- EndToEnd.ReleasedBatchesAgreeIff: the event decoder is a parameter; that the encoders and decoders of the ring are inverse is stated apart, in `WireEvents`.
- RingSafety.OnlyLeaksRemain: a payload whose caller leaves with an error, mid-publish or out of a full ring, counts as leaked, as in the source.
- DirtyRing merges non-atomic slot stores, the final head store and the lock release with the adjacent access; `uint64` heads do not wrap.
- Weak memory ordering: the atomics are sequentially consistent.
- The concrete hash function is a parameter; `& (n - 1)` is `mod n` for powers of two.
- DSA allocation and the copy into the chunk are one step; memory contexts and palloc lifetimes are not modelled.
- Int64 list ordinals do not wrap.
- Rows of type string or int with a NULL value column, embedded NUL bytes in materialized fields, and the text-to-integer parser (a parameter) of the loader and INCR.
- ColdStart.RunInv: a backend may die at any step, also where PostgreSQL would restart the cluster; session mode and persistence_mode = 'none' load without coordination and are not modelled.
- Statistics, memory accounting, JSON snapshots, the job scheduler, the append-only log, KEYS, TTL, INFO: easy, or pure I/O.
