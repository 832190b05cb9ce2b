# Verified model of the ordering service's batchers and assemblers

This project models, in Dafny 4.11, the parts of fabric-x-orderer whose correctness is hardest to see
from the code, and proves what they promise.

- **The request pool of a batcher.** A secondary keeps requests in a pending store, a primary in a batch
  store, and both draw on one semaphore of permits. `PendingProtocol` and `BatchProtocol` are transition
  systems: every atomic call on a shared map or counter is one step, every thread has a program counter,
  and the theorems hold for all interleavings of any number of threads. `Epochs` is the two-strike
  censorship timer as a function of time. `Pending`, `Batching` and `RequestPool` are the stores and the
  pool as classes, with their loops, updated in place: what one call does, and what every sequence of
  calls does, role changes in both directions included. `Listing` is about the order in which a store
  lists its requests. `PoolLifetime` puts the two protocols together: phases of any interleaving, with a
  restart between them.
- **The prefetch index of an assembler.** A byte-bounded cache, a heap that carries positions for
  eviction, a map bucketed by sequence (`BatchMapping`, `BatchCaching`, `BatchHeaps`, `PrefetchIndex`), and
  the condition-variable handshake between producers, consumers, monitors and timers
  (`PrefetchHandshake`), whose steps are what the index's methods do (`PrefetchRefinement`).
- **The rate limiter** (`RateLimit`): the one-word compare-and-swap algorithm with stale clocks, on int64.
- **Batcher role, acker, broadcaster** (`BatcherRole`, `Acker`, `Broadcaster`): terms over an append-only
  ledger, flow control by acks on uint64, retry until a quorum has the event.
- **Membership and quorums** (`Membership`, `Quorum`), and the **batch format** (`BatchCodec`).

`PackedCounter` is the one-word counter of a batch. `Finite` and `Wrappers` hold facts about finite sets
and sums, and option types. The ledger, hashes, signatures, certificates, clocks, fetches and network
outcomes are parameters or free choices of the environment.

## What was found

- A party that lists a shard twice may trade the second entry for another shard, so that its set of shards
  changes. `Membership.ShardsFixedExactly` gives the exact condition, `Membership.DuplicateShardMayChange`
  an example.
- One ack confirms at most one sequence. When acks of one party overtake each other, a sequence can have
  enough acks and stay unconfirmed until some later ack. `Acker.RunExactExactly` says exactly in which runs,
  `Acker.HandleExactly` and `Acker.HandleLagging` what each ack does, `Acker.OutOfOrderLags` is an example,
  and `Acker.ConfirmedExactly` shows that acks in order are confirmed exactly.
- A time-to-live handler that fired before its batch was evicted, and gets the lock late, removes a batch
  of the same id that was fetched for a waiting `PopOrWait` in the meantime. That call has requested its
  batch already and does not request it again: the batch is forsaken. `PrefetchHandshake.StaleTimerForsakes`
  builds such a run. `PrefetchHandshake.ForsakenOnlyBy` shows what every run to a forsaken batch has in it: a step
  that took the batch away after it was fetched, by such a timer, by another call for it, or by its size.
- `PopOrWait` for a batch larger than the whole cache waits forever, as `Put` and `PutForce` both refuse the
  batch when it comes (`PrefetchHandshake.OversizedForever`, with `PrefetchHandshake.OversizedWaits` as an
  example). `PrefetchHandshake.WaitEndsExactly` shows that these are all the waits without an end: a wait can
  end if and only if its batch is neither forsaken nor larger than the cache.
- `BatchStore.Insert` of a request larger than a batch, or with batches of zero requests, never ends, and
  the pool compares a request with `RequestMaxBytes` only. `BatchProtocol.LoneInsertEndsExactly` and
  `BatchStore.Insert` have the exact condition, and `RequestPool.Replay` says which calls of the pool it stops.
- When `batchMaxSizeBytes` plus the size of a request reaches 2^32, the bytes carry into the number of
  requests, and a batch may take a request beyond its limit of bytes.
  `Batching.BeyondLimit` is such a batch, and `Batching.BatchStore.FitsTrulyExactly` says exactly when the packed
  test and the true one disagree.
- The comment on `GetAllRequests` promises requests in the order of their arrival; the code keeps the
  order of buckets, and visits a bucket's requests in any order. `Listing.LaterFirst` is an example, and by
  `PendingStore.ListedAsArrivedExactly` the order is kept whatever the visits if and only if no bucket has
  two requests. The model follows the code.
- The comment on `Put` says that it waits when the batch's sequence is lower than the highest popped one;
  the code waits when it is higher. The model follows the code.

## Model

| member | source | states |
|---|---|---|
| PendingProtocol.InsertInv | request/bucket.go:83-107 | each atomic step of an insertion, its rollback and its retry after a concurrent seal keeps the protocol invariant; RefusedOnlyIfKnown and LoneSubmissionDecided say what becomes of the insertion |
| PendingProtocol.RefusedOnlyIfKnown | request/pending.go:343-358 | over every run, a submission is refused only if its id was held, tombstoned or being inserted at some point while it was under way; meeting a sealed bucket is no reason |
| PendingProtocol.LoneSubmissionDecided | request/pending.go:343-358 | a submission that goes on alone, from wherever others have left it, ends after at most ten steps: refused if its id is known, and else held, with its payload, size and permit, in the current bucket, be it another one than it had loaded before a seal |
| PendingProtocol.LoneRemovalDecided | request/pending.go:286-306 | a removal alone: what is held goes with its id, payload, size and permit, and any other id gets the tombstone and nothing else changes |
| PendingProtocol.LonePruneDecided | request/pending.go:323-341 | a prune alone of a request that fails the test: a held one goes with its id, payload, size and permit, and a tombstone stays |
| PendingProtocol.LonePruneKeeps | request/pending.go:323-341 | a prune alone of a request that passes the test changes nothing |
| PendingProtocol.LoneCollectionDecided | request/pending.go:183-196 | a collection of an expired entry alone: a tombstone goes, and nothing else does |
| PendingProtocol.TombstoneErasedBy | request/pending.go:286-306 | in every interleaving a tombstone leaves the index only by a thread that has seen this very one, or for a newer one |
| PendingProtocol.BucketIsReplaced | request/pending.go:259-271 | with no call in flight the current bucket can be sealed and replaced by an empty unsealed one, no request moves, and the old one may be dropped if and only if it has no payload |
| PendingProtocol.RemoveInv | request/pending.go:292-341 | each atomic step of a removal, a prune and a tombstone collection keeps the protocol invariant |
| PendingProtocol.StepInv | request/pending.go:157-210 | every step of every thread, sealing, rotating and dropping buckets included, keeps the invariant |
| PendingProtocol.RunInv | request/pending.go:273-358 | the invariant holds in every state of every interleaving, from the empty store |
| PendingProtocol.OneOwner | request/pending.go:286-306 | in every reachable state a payload is stored exactly when it has an owner, and it has one: its id's entry, or one thread inserting or removing it |
| PendingProtocol.OnDeleteOnce | request/pending.go:302-305 | a thread about to call OnDelete does so for a published insertion not reported before, and holds a permit to release |
| PendingProtocol.QuiescentAccounts | request/pool.go:115-118 | with no call in flight, permits, size and ids held agree within MaxSize, and each published insertion is either held or was reported to OnDelete, never both |
| PendingProtocol.DroppedBucketIsEmpty | request/pending.go:198-210 | a bucket that may be dropped, or was, holds no payload and no id leads to it |
| PendingProtocol.Refill | request/pool.go:386-404 | a new store, into which distinct requests are put one after the other, each with a permit taken before, ends in a reachable state of the protocol that holds exactly these and has no tombstone |
| PendingProtocol.ListedExactly | request/pending.go:364-387 | with no call in flight, whatever interleaving came before, the payloads of the buckets have exactly the ids held, each once, as many as there are permits |
| BatchProtocol.StepInv | request/batchstore.go:53-94 | every step of concurrent inserts, removals, fetches and prunes keeps the invariant |
| BatchProtocol.RunInv | request/batchstore.go:53-252 | the invariant holds in every state of every interleaving |
| BatchProtocol.EveryBatchOnce | request/batchstore.go:76-92 | a batch is not marked enqueued exactly when it is the current one; every other batch was fetched or stands exactly once in the ready queue |
| BatchProtocol.EveryIdOnce | request/batchstore.go:63-72 | an inserted and unremoved id sits in the batch it is indexed under, or its inserter is about to store it; it sits in no other batch, fetched ones included, unless a removal is about to delete it there |
| BatchProtocol.FetchOnce | request/batchstore.go:172-229 | a fetch returns no id that an earlier fetch returned, unless it was removed in between |
| BatchProtocol.FetchesOldest | request/batchstore.go:172-229 | whatever interleaving came before, a fetch returns exactly the unfetched ids of the oldest batch that has any, and nothing only if every id held was fetched |
| BatchProtocol.PrunesExactly | request/batchstore.go:129-148 | a prune takes out of the index exactly the ids that fail the test and were not fetched, each with its permit and its count in size |
| BatchProtocol.PrunesItemsExactly | request/batchstore.go:129-148 | and out of the ready and the current batches exactly the requests of these ids |
| BatchProtocol.LoneInsertDecided | request/batchstore.go:53-94 | an insert alone, of a request that is not larger than a batch: refused, with its permit given back, if the id is held, and else stored under its id with its size in the current batch or the one that replaces it |
| BatchProtocol.LoneRemovalDecided | request/batchstore.go:160-169 | a removal alone: the id and its request go with the permit if the id is held, and else nothing changes |
| BatchProtocol.BatchWithinLimits | request/batchstore.go:57-63 | every batch has at most batchMaxSize requests and batchMaxSizeBytes bytes |
| BatchProtocol.CounterTestExact | request/batch.go:14-22 | with a bounded number of bytes in flight, the test on the packed halves is the test on the true totals |
| PackedCounter.DecodesExactly | request/batchstore.go:58-60 | the halves decode to the two totals if and only if the bytes stay below 2^32 |
| BatchProtocol.LoneInsertEndsExactly | request/batchstore.go:53-94 | along the protocol's own steps, an undisturbed insert finds room in its first or second round if 1 <= batchMaxSize and size <= batchMaxSizeBytes, and otherwise can fail any number of rounds |
| BatchProtocol.RoomEndsInsert | request/batchstore.go:63-72 | an insert that has found room ends after two more steps, with its id indexed |
| BatchProtocol.FailuresArePaid | request/batchstore.go:53-94 | no livelock: over every run, under any contention, failed rounds are at most maxThreads times the rounds that found room, if 1 <= batchMaxSize and no request is larger than a batch |
| BatchProtocol.QuiescentAccounts | request/pool.go:125-130 | with no call in flight, permits, size and ids held (fetched ones included) agree within capacity |
| BatchProtocol.Refill | request/pool.go:406-419 | a new store, into which distinct requests are put one after the other, each with a permit taken before, takes them all and ends in a reachable state of the protocol that holds exactly these, none of them fetched |
| BatchProtocol.ListedExactly | request/batchstore.go:96-111 | with no call in flight, whatever interleaving came before, the ready and the current batches have exactly the ids held and not fetched, each once; what size exceeds their number by is the number fetched and not removed, and after releasing that many permits as many are left as were listed |
| PoolLifetime.LifetimeAccounts | request/pool.go:339-419 | over every life of a pool, any interleaving in each phase and any number of role changes, permits, size and requests held agree when a phase starts and ends; a role change, by what it lists, counts, releases and puts in the new store, moves exactly the unfetched requests and gives back exactly the permits of the others |
| PoolLifetime.EveryPhaseStartsWell | request/pool.go:386-419 | every store that a role change fills is in a reachable state of its protocol, with no call in flight |
| PoolLifetime.CanRestart | request/pool.go:339-373 | after any life so far the other role can take over all that is moved to it |
| Epochs.DropEmptyKeeps | request/pending.go:198-210 | collecting empty buckets keeps every bucket with a request, unchanged |
| Epochs.TickBucket | request/pending.go:157-181 | an epoch change strikes a sealed bucket with requests when it is due, and otherwise leaves it as it was |
| Epochs.TickExactly | request/pending.go:157-271 | a tick in full, in terms of the three thresholds: nothing but the time of the last tick changes within an epoch; after it the buckets with requests, the current one sealed among them, are kept in order, each struck, restarted or as it was, and the callback runs exactly if some second strike is overdue, for the first such bucket |
| Epochs.TickedFrom | request/pending.go:198-210 | every bucket after an epoch change is one with requests from before it |
| Epochs.IgnoredRequestStrikes | request/pending.go:212-257 | a request added at t, or held at a reset with last tick t, and neither removed nor reset again causes a second-strike callback by t + FirstStrike + SecondStrike + 3*(Epoch + d), for ticks at most d apart |
| Epochs.StrikesOnlyIgnoredRequests | request/pending.go:239-257 | a second-strike callback runs only over a bucket with a request held for longer than both thresholds together, and that bucket starts again: sealed now and without a strike |
| Epochs.StrikesApart | request/pending.go:239-257 | over every run, two callbacks about one bucket are more than FirstStrike + SecondStrike apart |
| Epochs.OneRequestStrikesApart | request/pending.go:239-257 | over a run in which one request is added, all callbacks are that far apart |
| Epochs.ResetGrantsTime | request/pending.go:97-110 | after a reset no callback runs until FirstStrike + SecondStrike have passed since the last tick before it |
| Pending.Bucket.TryInsert | request/bucket.go:83-107 | a sealed bucket refuses, a known id or a payload already present is refused, else payload, size and id are stored together |
| Pending.Bucket.Delete | request/bucket.go:111-119 | removes the payload and its count, and says whether it was there |
| Pending.KeepNonEmpty | request/pending.go:198-210 | the buckets left are exactly those of Epochs.DropEmpty, and a bucket left out holds nothing |
| Pending.CheckFirstStrike | request/pending.go:212-227 | the loop computes Epochs.StrikeFirst in place, and reports exactly the buckets it struck |
| Pending.CheckSecondStrike | request/pending.go:239-257 | the loop computes Epochs.StrikeSecond in place: the first bucket that is due, if any, is sealed now and has no strike, and all others are as they were; Epochs.TickExactly and Epochs.StrikesApart say what that means |
| Pending.PendingStore.Submit | request/pending.go:343-358 | accepted exactly when the store is open and the id is neither held nor tombstoned; the request is then held |
| Pending.PendingStore.RemoveRequest | request/pending.go:286-306 | a held request is deleted and its id forgotten; an id not held is tombstoned |
| Pending.PendingStore.RemoveRequests | request/pending.go:273-306 | exactly these requests go, with one OnDelete for each that was held; the ids not held by then are left with a tombstone of the current tick, and all other ids as they were |
| Pending.PendingStore.Adds | request/pending.go:343-358 | what Submit does to the buckets is an addition of the runs in Epochs |
| Pending.PendingStore.Removes | request/pending.go:286-306 | what RemoveRequest does to the buckets is a removal of the runs in Epochs |
| Pending.PendingStore.Prune | request/pending.go:323-341 | exactly the requests that fail the test go, with one OnDelete each; tombstones stay |
| Pending.PendingStore.GarbageCollectProcessed | request/pending.go:183-196 | exactly the tombstones older than the lifetime are forgotten, and every other entry stays as it was |
| Pending.PendingStore.RotateBuckets | request/pending.go:259-271 | a non-empty current bucket is sealed and replaced, as Epochs.Rotate says |
| Pending.PendingStore.Tick | request/pending.go:157-181 | a tick refines Epochs.Tick, says whether the second-strike callback runs and when expired tombstones go; a stopped store ignores it |
| Pending.PendingStore.ResetTimestamps | request/pending.go:97-110 | every sealed bucket has the last tick as its timestamp and no strike, as in Epochs.Reset; no request moves |
| Pending.PendingStore.GetAllRequests | request/pending.go:364-387 | the list has every held request exactly once, and the requests of an older bucket before those of a newer one |
| Pending.PendingStore.ListedAsArrivedExactly | request/pending.go:364-387 | every list that may be returned is in the order of arrival if and only if no bucket has two requests |
| Listing.ArrivalOrderExactly | request/pending.go:373-384 | for groups of requests that arrived one group after the other: every order of visits lists them as they arrived if and only if no group has two |
| Listing.LaterFirst | request/pending.go:364-384 | two requests in one bucket, the later one listed first |
| Batching.BatchStore.Insert | request/batchstore.go:53-94 | for every limit on the rounds: it ends in round one if the counter has room, else in round two if an empty batch has room, else not at all, with one more empty batch queued by each round; when it ends it has inserted exactly if the key was not held |
| Batching.BatchStore.InsertRound | request/batchstore.go:54-93 | a round finds the batch full exactly by the wrapping test on the packed halves, and then queues and replaces it; an exact counter stays exact while neither half overflows |
| Batching.BatchStore.FitsTrulyExactly | request/batchstore.go:58-63 | the packed test is the test of the true totals if and only if no carry or wrap goes unnoticed |
| Batching.BeyondLimit | request/batchstore.go:57-72 | a new store takes two requests into one batch whose bytes together exceed batchMaxSizeBytes |
| Batching.BatchStore.Fetch | request/batchstore.go:172-229 | returns, whole, the first ready batch that pruning has not emptied, else the current one; its requests were not fetched before; none are returned only when every held request was fetched, unless batchMaxSize is within two of 2^32 |
| Batching.BatchStore.Remove | request/batchstore.go:160-169 | the request goes, fetched or not, and OnDelete is called exactly if it was held |
| Batching.BatchStore.RemoveRequests | request/batchstore.go:150-158 | exactly these requests go, with one OnDelete for each that was held |
| Batching.BatchStore.Prune | request/batchstore.go:129-148 | exactly the unfetched requests that fail the test go |
| Batching.BatchStore.ForEach | request/batchstore.go:96-111 | the list has every request that was not fetched, exactly once |
| RequestPool.Pool.Submit | request/pool.go:133-199 | accepted exactly if the pool runs, the request is small enough, there is a free permit, and its id is neither held nor, for a secondary, tombstoned; an accepted request becomes held, a refused one changes nothing; it fails to end only for a primary's request that fits no empty batch, and if the counters never carry exactly for those |
| RequestPool.Pool.NextRequests | request/pool.go:209-233 | returns exactly the requests that become fetched, each once; nothing leaves the pool, and none are returned only if all were fetched or the pool is not batching |
| RequestPool.Pool.RemoveRequests | request/pool.go:235-249 | exactly these requests leave, each with its permit; a secondary goes on to refuse the ids it did not hold by then |
| RequestPool.Pool.Prune | request/pool.go:275-294 | exactly the requests that fail the test leave, apart from fetched ones, and nothing else changes |
| RequestPool.Pool.MoveToPendingStore | request/pool.go:386-404 | everything not fetched moves with its permit, and the permits of fetched requests are released |
| RequestPool.Pool.MoveToBatchStore | request/pool.go:406-419 | every request moves with its permit |
| RequestPool.Pool.Restart | request/pool.go:339-373 | a role change keeps all requests except those fetched and not removed, and forgets tombstones; without a change of role all stays, and a secondary has every sealed bucket stamped with the last tick and without a strike; a new secondary has no sealed bucket and its clocks start now; the call fails to end only when a secondary that holds a request that fits no empty batch becomes primary, and if the counters never carry exactly then |
| RequestPool.Pool.Halt | request/pool.go:319-331 | the pool refuses requests and the pending store's strikes stop; nothing else changes |
| RequestPool.Pool.Close | request/pool.go:301-312 | nothing is held and the size is zero |
| RequestPool.Replay | request/pool.go:133-419 | over every run from a new pool, whatever its options, each call does and returns exactly what its relation says, and after each call permits equal size and the number of requests held, and never exceed MaxSize; the run stops early only at a call that may never end, and if the counters never carry at the first of those |
| RequestPool.HeldUntilLost | request/pool.go:133-419 | over every run a request stays, unchanged, until it is removed, pruned unfetched, or given up fetched by a change of role |
| RequestPool.HeldWasSubmitted | request/pool.go:133-199 | over every run, a held request was submitted and accepted, byte for byte, under its id |
| RequestPool.HandedOnce | request/pool.go:209-233 | over every run, role changes included, a request is handed out twice only if a call took it out in between |
| BatchMapping.BatchMapper.Set | node/assembler/batch_mapper.go:45-67 | refines insertion into a plain map from batch id, with and without overwriting |
| BatchMapping.BatchMapper.Put | node/assembler/batch_mapper.go:69-71 | refines a map update |
| BatchMapping.BatchMapper.Insert | node/assembler/batch_mapper.go:73-75 | inserts exactly if the id is absent |
| BatchMapping.BatchMapper.Get | node/assembler/batch_mapper.go:83-94 | refines a map lookup |
| BatchMapping.BatchMapper.Has | node/assembler/batch_mapper.go:77-81 | refines a membership test |
| BatchMapping.BatchMapper.Remove | node/assembler/batch_mapper.go:96-114 | refines deletion from a map, and returns the value |
| BatchCaching.BatchCache.Put | node/assembler/batch_cache.go:54-63 | stores exactly if absent; the size stays the sum of the sizes held |
| BatchCaching.BatchCache.Pop | node/assembler/batch_cache.go:45-52 | takes the batch out exactly if present; the size stays the sum of the sizes held |
| BatchHeaps.RootIsMinimum | node/assembler/batch_heap.go:77-83 | the first item of a heap has the lowest key |
| BatchHeaps.SwapExact | node/assembler/batch_heap.go:53-57 | after a swap the index still maps each item to its slot and nothing else, and the contents are the same |
| BatchHeaps.BatchHeap.Push | node/assembler/batch_heap.go:115-121 | heap order and exact index are kept; the contents gain exactly that item, if it was absent |
| BatchHeaps.BatchHeap.Pop | node/assembler/batch_heap.go:133-138 | returns an item with the lowest key, and the contents lose exactly that item |
| BatchHeaps.BatchHeap.Remove | node/assembler/batch_heap.go:86-100 | the contents lose exactly the given batch, from any position, and order and index are kept |
| BatchHeaps.BatchHeap.Swap | node/assembler/batch_heap.go:53-57 | two slots change places, the index with them |
| BatchHeaps.BatchHeap.DropLast | node/assembler/batch_heap.go:69-75 | the last slot goes, and its index entry |
| PrefetchIndex.PartitionPrefetchIndex.EvictOldestBatch | node/assembler/partition_prefetch_index.go:375-389 | takes out a batch with the lowest sequence; fails only on an empty cache |
| PrefetchIndex.PartitionPrefetchIndex.RemoveUnsafe | node/assembler/partition_prefetch_index.go:391-413 | returns the batch with this id, prefetched ones first, takes exactly that one out of cache and heap, and broadcasts exactly if there is one |
| PrefetchIndex.PartitionPrefetchIndex.SaveOrdinaryBatch | node/assembler/partition_prefetch_index.go:282-313 | stores a batch in cache and heap alike, unless it is there |
| PrefetchIndex.PartitionPrefetchIndex.MakeRoom | node/assembler/partition_prefetch_index.go:329-345 | the eviction loop ends, never finds the heap empty, evicts the lowest sequences and no more than it must; it waits if and only if it lacks room ahead of the consumer |
| PrefetchIndex.PartitionPrefetchIndex.Put | node/assembler/partition_prefetch_index.go:315-352 | exactly which result when, and what is evicted and stored; heap and cache hold the same batches within the limit; it broadcasts exactly if it stores |
| PrefetchIndex.PartitionPrefetchIndex.PutForce | node/assembler/partition_prefetch_index.go:354-373 | stores a requested batch whatever room there is, unless too large or there already, and wakes all |
| PrefetchIndex.PartitionPrefetchIndex.TryPop | node/assembler/partition_prefetch_index.go:231-262 | returns the batch with the requested id, or says whether to request it |
| PrefetchIndex.EvictOne | node/assembler/partition_prefetch_index.go:375-389 | one more eviction of the lowest sequence keeps the eviction minimal and lowest-first |
| PrefetchHandshake.StepInv | node/assembler/partition_prefetch_index.go:216-413 | every step of poppers, putters, monitors, fetches and timers keeps the invariant |
| PrefetchHandshake.NoLostWakeUp | node/assembler/partition_prefetch_index.go:222-278 | a PopOrWait that no broadcast reached waits for a batch in neither cache that is requested or will be by an armed monitor; such a Put has no room and is ahead of the consumer |
| PrefetchHandshake.ReturnsRequested | node/assembler/partition_prefetch_index.go:222-241 | a PopOrWait that returns, at once or after a wait, returns the batch it asked for, from the caches |
| PrefetchHandshake.MonitorRequests | node/assembler/partition_prefetch_index.go:256-278 | an armed monitor sends the request for its batch once, which is taken up, marks it as requested and wakes all who wait |
| PrefetchHandshake.FromPutter | node/assembler/partition_prefetch_index.go:329-345 | a parked Put for a batch that is waited for can go on, even with a full cache |
| PrefetchHandshake.WaitCanEnd | node/assembler/partition_prefetch_index.go:264-278 | unless its batch is forsaken or larger than the cache, a waiting PopOrWait can return after at most five steps of what is under way |
| PrefetchHandshake.ForsakenForever | node/assembler/partition_prefetch_index.go:256-278 | a wait for a forsaken batch does not end without a new call for that batch |
| PrefetchHandshake.OversizedForever | node/assembler/partition_prefetch_index.go:315-320 | a wait for a batch larger than the cache does not end, whatever is put or delivered |
| PrefetchHandshake.WaitEndsExactly | node/assembler/partition_prefetch_index.go:264-278 | what is under way can end a wait if and only if the batch is neither forsaken nor larger than the cache |
| PrefetchHandshake.OversizedWaits | node/assembler/partition_prefetch_index.go:354-360 | the first call for a batch larger than the cache is such a wait, and not a forsaken one |
| PrefetchHandshake.RobbedOnlyBy | node/assembler/partition_prefetch_index.go:391-400 | what can take a fetched batch away from one who waits for it |
| PrefetchHandshake.UnrobbedIsNotForsaken | node/assembler/partition_prefetch_index.go:256-275 | as long as nothing was taken away, the batch of a waiting call is on its way |
| PrefetchHandshake.ForsakenOnlyBy | node/assembler/partition_prefetch_index.go:222-413 | over every run from an unused index, a waited-for batch is forsaken only if a late timer, another call for it or its size took it away during the wait, after it was fetched |
| PrefetchHandshake.StaleTimerForsakes | node/assembler/partition_prefetch_index.go:287-297 | a reachable state in which a late timer handler has made a wait endless |
| PrefetchRefinement.PutStarts | node/assembler/partition_prefetch_index.go:315-352 | the first round of Put on the index is the handshake's step: same caches, counters and broadcasts, and the caller parks exactly if it has to wait |
| PrefetchRefinement.PutWakes | node/assembler/partition_prefetch_index.go:329-352 | a later round of Put is the handshake's step |
| PrefetchRefinement.Delivers | node/assembler/partition_prefetch_index.go:354-373 | PutForce is the handshake's delivery of a fetched batch |
| PrefetchRefinement.PopStarts | node/assembler/partition_prefetch_index.go:222-262 | the first round of PopOrWait is the handshake's step: it announces the demand, returns the batch that is there, and else requests it exactly if it was put before |
| PrefetchRefinement.PopWakes | node/assembler/partition_prefetch_index.go:231-262 | a later round of PopOrWait is the handshake's step |
| PrefetchRefinement.ExpireMeans | node/assembler/partition_prefetch_index.go:287-297 | an expired batch is gone from the cache that had it, prefetched before fetched, and then every wait has ended; if neither had it nothing changes |
| PrefetchRefinement.Expires | node/assembler/partition_prefetch_index.go:287-297 | removeUnsafe, as the timer's handler calls it, is that step |
| RateLimit.OverflowTestExact | common/ratelimit/gcra.go:96-109 | the division test detects int64 overflow of interval*burst exactly |
| RateLimit.LowBurstIsOne | common/ratelimit/gcra.go:96-98 | a burst below one counts as one |
| RateLimit.NoOverflow | common/ratelimit/gcra.go:114-131 | while now + burstOffset + interval fits in int64, no arithmetic of Allow wraps |
| RateLimit.RunInv | common/ratelimit/gcra.go:114-131 | the invariant of the word holds over all compare-and-swap interleavings with stale clocks |
| RateLimit.RateBound | common/ratelimit/gcra.go:114-131 | k consecutive admissions satisfy k*interval <= last sample - first sample + burst offset; that calls within the budget are admitted is SwapDecides |
| RateLimit.RateBoundOfBurst | common/ratelimit/gcra.go:96-131 | the same with burst*interval, when that product fits |
| RateLimit.RejectionIsPure | common/ratelimit/gcra.go:119-124 | a rejection leaves the state unchanged and is justified by the word it read |
| RateLimit.SwapDecides | common/ratelimit/gcra.go:119-131 | a swap on the word that was loaded ends the call, admitted if and only if it is within the budget, and then the word moves by one interval; on another word it is rejected if it was over the budget, and else starts again |
| RateLimit.WordsAscend | common/ratelimit/gcra.go:114-131 | over every run the word never comes back to an earlier value: it is the same exactly if nothing was admitted in between |
| RateLimit.UndisturbedDecides | common/ratelimit/gcra.go:114-131 | over every run, a call with no admission between its load and its swap ends, admitted if and only if it is within the budget; one that starts again has lost to an admission |
| RateLimit.SerialRunIsTokenBucket | common/ratelimit/gcra.go:114-131 | steps of one call after the other, on a clock that does not go back, are decided exactly as by a full token bucket |
| RateLimit.Limiter.Allow | common/ratelimit/gcra.go:114-131 | a lone call decides as Decision says |
| RateLimit.SameDecisions | common/ratelimit/gcra.go:114-131 | with a clock that does not go back, every sequence of requests is decided exactly as by a token bucket (continuous-state leaky bucket of Annex A of ITU-T Recommendation I.371) |
| Acker.Acker.HandleAck | node/batcher/acker.go:60-97 | refines Handle on confirmedSeq and the tracked acks |
| Acker.Acker.SecondariesKeepUp | node/batcher/acker.go:127-130 | the unsigned test means seq < confirmedSeq + gap when the primary is not behind, and what it means when it is |
| Acker.HandleInv | node/batcher/acker.go:60-97 | confirmedSeq passes s only when threshold distinct parties acknowledged s; tracked sequences stay within the gap |
| Acker.HandleExactly | node/batcher/acker.go:86-96 | after an ack confirmedSeq is the first sequence lacking acks, exactly unless the ack completes a sequence whose successor is complete |
| Acker.HandleLagging | node/batcher/acker.go:60-97 | once confirmedSeq lags, each ack that counts moves it by one, and it catches up exactly with one that finds the next sequence incomplete |
| Acker.RunExactExactly | node/batcher/acker.go:60-97 | over every run, confirmedSeq is exact after each ack if and only if no ack completes a sequence whose successor is complete already |
| Acker.ConfirmedExactly | node/batcher/acker.go:60-97 | over every run of acks in order, confirmedSeq is the first sequence that fewer than threshold parties acknowledged |
| Acker.OutOfOrderLags | node/batcher/acker.go:86-96 | out of order it is not |
| BatcherRole.EveryBatcherOnce | node/batcher/batcher_role.go:179-188 | among n consecutive terms each batcher is primary in exactly one |
| BatcherRole.TurnsInOrder | node/batcher/batcher_role.go:179-188 | the primary of term 0 has index shard mod n, and each next term the next index |
| BatcherRole.WorksForPrimary | node/batcher/batcher_role.go:157-188 | over every run, a batcher works for the primary of the term that was announced last when it began, and pulls exactly if that is another party |
| BatcherRole.AsksOnce | node/batcher/batcher_role.go:366-396 | over every run, a primary asks its pool once for each time that its secondaries were found to keep up |
| BatcherRole.StepInv | node/batcher/batcher_role.go:346-514 | every step of either role, term changes, restarts and acks included, keeps the invariant |
| BatcherRole.RunInv | node/batcher/batcher_role.go:157-177 | the invariant holds over every run |
| BatcherRole.ConfirmedIsProduced | node/batcher/batcher_role.go:357-378 | with fewer than threshold liars, confirmedSeq never exceeds the primary's height |
| BatcherRole.GapTestExact | node/batcher/acker.go:127-130 | the unsigned subtraction of the gap test never wraps |
| BatcherRole.RunAppends | node/batcher/batcher_role.go:398-428 | every append of every run is at exactly the current height of that primary's chain |
| BatcherRole.RunKeepsLedger | node/batcher/batcher_role.go:476-511 | nothing stored is ever overwritten |
| BatcherRole.OneDigest | node/batcher/batcher_role.go:481-494 | over a run with restarts, two attestations for one primary and sequence have one digest |
| BatcherRole.AttestsStored | node/batcher/batcher_role.go:517-549 | an attested digest is that of the non-empty list of requests stored at that height |
| BatcherRole.PrimaryWithinGap | node/batcher/batcher_role.go:366-405 | a primary starts a batch only when it is less than gap ahead of a confirmed sequence that has its acks |
| BatcherRole.TermIsAckerRun | node/batcher/batcher_role.go:346-396 | over every run, the acker of a term is a run of Acker on exactly the acks of that term, from the height at which it began |
| BatcherRole.KeepsUpExactly | node/batcher/acker.go:127-130 | when acks of each party come in order, a primary goes on if and only if it is less than gap ahead of the first sequence of the term that fewer than threshold parties acknowledged |
| BatcherRole.PullsExactly | node/batcher/batcher_role.go:517-549 | a secondary stores and attests a batch if and only if it is of this shard, from this primary, at the next height, not empty, and with a digest, signature and requests that verify; otherwise nothing changes |
| BatcherRole.LengthenedOnlyBy | node/batcher/batcher_role.go:398-511 | over every run, a chain is lengthened only by what its primary produced here or by an acceptable batch that was pulled, at its height |
| BatcherRole.SecondaryFollowsPrimary | node/batcher/batcher_role.go:517-549 | given unforgeable signatures, a secondary's chain of a primary is, digest by digest, a prefix of that primary's own chain; CatchesUp is the other direction |
| BatcherRole.TakesNext | node/batcher/batcher_role.go:481-549 | a secondary takes the batch that its primary stored at the secondary's height |
| BatcherRole.CatchesUp | node/batcher/batcher_role.go:481-514 | from any height a secondary can catch up with all that its primary stored, with two steps for each batch |
| Broadcaster.SendRound | node/batcher/control_event_broadcaster.go:36-52 | each consenter asked either fails or accepts, and is counted once more exactly when it accepts |
| Broadcaster.BroadcastControlEvent | node/batcher/control_event_broadcaster.go:31-81 | over any schedule: each consenter accepts at most once, success comes in the first round that reaches the threshold, and waits double up to the limit |
| Broadcaster.BroadcastReachesQuorums | node/batcher/control_event_broadcaster.go:98-104 | what was delivered are the acceptances of the rounds used; success comes exactly when they reach n - f, and leaves more than f of them in every quorum |
| Quorum.QuorumIsAvailable | common/utils/state.go:14-19 | a quorum is at most n - f exactly when n is at least 1; the threshold is f + 1 and at most a quorum |
| Quorum.FaultsAreMost | common/utils/state.go:14-19 | f is the greatest number with 3f + 1 <= n |
| Quorum.QuorumIsHalf | common/utils/state.go:14-19 | a quorum is half of n + f + 1, rounded up |
| Quorum.QuorumIsLeast | common/utils/state.go:14-19 | any two sets of k parties share more than f if and only if k is at least a quorum |
| Quorum.QuorumsIntersect | common/utils/state.go:14-19 | two quorums of one configuration share at least f + 1 parties |
| Quorum.TransitionQuorumsIntersect | common/utils/state.go:14-19 | quorums of configurations one party apart share at least f + 1, with the smaller f |
| Quorum.AcceptedReachesQuorum | common/utils/state.go:14-19 | n - f acceptances include at least f + 1 members of every quorum |
| Membership.ValidatePartyModification | config/verify/orderer_rules.go:528-556 | the loops decide exactly: unchanged, allowed, or invalid |
| Membership.AddedParties | config/verify/orderer_rules.go:496-524 | lists each added party once, in any order of iteration |
| Membership.RemovedAndModified | config/verify/orderer_rules.go:496-524 | fails exactly on an invalid modification, and else lists each removed and each modified party once |
| Membership.MaxPartyIdOk | config/verify/orderer_rules.go:274-290 | the tests on uint32 mean: the added id is the old maximum plus one and the new maximum, and without an addition nothing changes |
| Membership.ValidateTransition | config/verify/orderer_rules.go:214-321 | accepts exactly the transitions with at most one party added, removed or modified under the rules |
| Membership.AcceptedExactly | config/verify/orderer_rules.go:214-321 | on the configurations themselves: accepted if and only if none has a nil party and the new one is the old one, or it with one party added under the next number with a good certificate, or removed, or altered with the same shards and a good certificate, and MaxPartyID to match |
| Membership.ByIdLast | config/verify/orderer_rules.go:496-524 | of the entries with one id, the last counts |
| Membership.ValidatePartyAndShardIds | config/verify/orderer_rules.go:699-722 | accepts exactly the lists whose ids are in range |
| Membership.ModificationKeepsShards | config/verify/orderer_rules.go:528-556 | a party with distinct shards keeps exactly its shards |
| Membership.ShardsFixedExactly | config/verify/orderer_rules.go:528-556 | every allowed modification keeps a party's shards if and only if its shards are distinct |
| Membership.DuplicateShardMayChange | config/verify/orderer_rules.go:528-556 | an allowed modification that changes the shards |
| Membership.MaxBoundsHistory | config/verify/orderer_rules.go:274-290 | along every chain of accepted configurations MaxPartyID does not decrease and bounds every id ever used |
| Membership.RemovedIdNeverReturns | config/verify/orderer_rules.go:263-305 | a removed id is never used again |
| Membership.SurvivorKeepsShards | config/verify/orderer_rules.go:496-556 | a surviving party keeps its set of shards along every chain |
| Membership.AcceptedQuorumsIntersect | node/consensus/consensus_config_applier.go:52-56 | across an accepted transition, old and new quorums share at least f + 1 parties |
| BatchCodec.SizeBytes | common/types/batched_requests.go:28-33 | the sum of the lengths, which is the encoding's length without the headers |
| BatchCodec.Serialize | common/types/batched_requests.go:23-48 | the buffer filled at moving positions holds exactly the frames in order; nil and empty give no bytes |
| BatchCodec.Uint32Bytes | common/types/batched_requests.go:37-45 | the four bytes of a frame's header are the length's bytes, the most significant first |
| BatchCodec.Deserialize | common/types/batched_requests.go:50-74 | accepts exactly the encodings of non-empty lists of requests below 2^32 bytes, returns the list, and otherwise keeps the frames before the first malformed one |
| BatchCodec.EncodeInjective | common/types/batched_requests.go:23-74 | two lists of short requests with one encoding are equal |
| BatchCodec.RoundTrip | common/types/batched_requests.go:23-74 | reading back the bytes that were written, which are the encoding, returns the list if and only if it is not empty and every request is short |
| BatchCodec.WriteBack | common/types/batched_requests.go:50-74 | accepted bytes are written back unchanged |
| BatchCodec.Digest | common/types/batched_requests.go:92-106 | the streamed digest is the hash of the encoding, for nil and empty lists too |
| BatchCodec.DigestBySerializing | common/types/batched_requests.go:110-113 | the reference digest is the hash of the encoding |

## Left out

- gRPC, TLS, delivery streams and connectors: network plumbing.
- Certificates, signatures, policies and marshalling: they enter as predicates of the environment.
- Configuration loading and the rules on timeouts, SmartBFT options, endpoints and consenter consistency: field checks.
- The consensus state machine, the ledger files and SmartBFT: the ledger is an append-only sequence per primary.
- Metrics, logging, health checks and the operations server.
- The goroutine that calls first-strike callbacks: the model says which buckets are struck and not the order of the callbacks.
- Reviving the requests of pending and stale attestations after a term change (resubmission to the pool).
- The float division that gives the limiter its interval: the interval is a positive integer here.
- A nil limiter, which admits everything.
- A limiter whose burst offset saturates at the largest int64: the bounds assume that it does not.
- Behaviour of the stores after Pool.Close and PartitionPrefetchIndex.Stop: teardown breaks the match of heap and cache on purpose.
- Chunking of keys over workers (parallelForEachKey): keys are handled in any order, and the protocols interleave their steps.
- A nil receiver of Deserialize, which the source rejects before it reads anything.
- Batching.BatchStore.Insert: takes a limit on its rounds, as the loop may not end; limits of batches under concurrency are in BatchProtocol.
- Pending.PendingStore.GetAllRequests: leaves out that a running store is stopped first, as the pool has closed it by then.
- Pending.PendingStore.RemoveRequests: an id listed twice is handled one after the other; two workers at once may forget it instead, an interleaving that PendingProtocol has.
- RequestPool.Replay: Close is not among the calls of a run, and nothing is said of a pool in which a call never ends.
- PoolLifetime.LifetimeAccounts: requires that an empty batch has room for every request, since otherwise a restart may never end.
- Batching.BatchStore.Fetch: starts where the wait for a batch or for the context is over.
- Batching.BatchStore.Prune: lists the failing requests before it removes them, which is the same under the write lock.
- Pending.Bucket.TryInsert: its rollback is reached only under concurrency, which PendingProtocol has.
- BatchProtocol.RunInv: assumes, as the batcher role does, that only fetched ids are removed, and bounds the bytes and calls in flight.
- BatchHeaps.BatchHeap.Remove: the source's repair of an index entry outside the heap is dead code, as the index is exact.
- PrefetchHandshake.StepInv: the channel of requests has no bound, so that a send never blocks; a timer may fire more than once for a stored batch; a monitor's store of the request flag is joined with the firing of its timer.
- Acker.Acker.HandleAck: sequences are unbounded; BatcherRole shows that they stay at most the primary's height, which fits in uint64.
- BatcherRole.StepInv: heights stay below 2^64.
- Broadcaster.BroadcastControlEvent: the schedule of rounds is finite, so that the model says what happened so far; delays are unbounded integers.
