/**
 * The prefetch index of one partition: prefetched batches under a byte limit, batches fetched on
 * request, and a heap that says which prefetched batch to evict first.  Each method here is what one
 * call does between taking the lock and giving it up, by returning or by waiting.
 */
module PrefetchIndex {
  import opened Wrappers
  import opened BatchIds
  import opened BatchCaching
  import opened BatchHeaps

  // ---------- What the calls do, on the contents ----------

  datatype PutResult = Stored | TooLarge | AlreadyExists | Wait

  /** The batch with this id, from the prefetched ones if it is there. */
  ghost function Lookup(cache: Batches, forced: Batches, id: BatchId): Option<Batch> {
    if id in cache then Some(cache[id]) else if id in forced then Some(forced[id]) else None
  }

  /** Some of the batches, as they were. */
  ghost predicate Part(part: Batches, whole: Batches) {
    forall id | id in part :: id in whole && part[id] == whole[id]
  }

  /** No batch that is gone has a higher sequence than one that is left. */
  ghost predicate LowestGone(before: Batches, after: Batches) {
    forall x, y | x in before && x !in after && y in after :: x.num <= y.num
  }

  ghost predicate LastNeeded(before: Batches, after: Batches, x: BatchId, need: nat, max: nat) {
    && x in before && x !in after
    && (forall y | y in before && y !in after :: y.num <= x.num)
    && Total(after) + before[x].size + need > max
  }

  /** Eviction takes the lowest sequences, and no more of them than it has to. */
  ghost predicate Evicted(before: Batches, after: Batches, need: nat, max: nat) {
    && Part(after, before) && LowestGone(before, after)
    && (before == after || exists x :: LastNeeded(before, after, x, need, max))
  }

  ghost predicate StoredOver(before: Batches, kept: Batches, after: Batches, batch: Batch, max: nat) {
    && Evicted(before, kept, batch.size, max) && batch.id !in kept && after == kept[batch.id := batch]
    && Total(kept) + batch.size <= max
  }

  /** The batch was added to what eviction left. */
  ghost predicate StoredAfterEviction(before: Batches, after: Batches, batch: Batch, max: nat) {
    exists kept :: StoredOver(before, kept, after, batch, max)
  }

  lemma EvictOne(before: Batches, now: Batches, x: BatchId, need: nat, max: nat)
    requires Evicted(before, now, need, max) && x in now && Total(now) + need > max
    requires forall y | y in now :: x.num <= y.num
    ensures Evicted(before, now - {x}, need, max)
  {
    TotalRemove(now, x);
    assert LastNeeded(before, now - {x}, x, need, max);
  }

  lemma NotEmpty(m: Batches, need: nat, max: nat)
    requires need <= max < Total(m) + need
    ensures m != map[]
  {
    assert m == map[] ==> Sizes(m) == map[];
  }

  datatype Timer = Timer

  ghost predicate SameBatch(items: map<BatchId, Item<Timer>>, m: Batches, id: BatchId) {
    (id in items <==> id in m) && (id in m ==> items[id].batch == m[id])
  }

  /** The items of the heap are exactly these batches. */
  ghost predicate Synced(items: map<BatchId, Item<Timer>>, m: Batches) {
    forall id {:trigger SameBatch(items, m, id)} :: SameBatch(items, m, id)
  }

  lemma SyncedRemove(items: map<BatchId, Item<Timer>>, m: Batches, id: BatchId)
    requires Synced(items, m)
    ensures Synced(items - {id}, m - {id}) && (id in items <==> id in m)
    ensures Total(m - {id}) <= Total(m)
  {
    forall x ensures SameBatch(items - {id}, m - {id}, x) { assert SameBatch(items, m, x); }
    assert SameBatch(items, m, id);
    if id in m {
      TotalRemove(m, id);
    } else {
      assert m - {id} == m;
    }
  }

  lemma SyncedInsert(items: map<BatchId, Item<Timer>>, m: Batches, b: Batch)
    requires Synced(items, m) && b.id !in m
    ensures b.id !in items && Synced(items[b.id := Item(b, Timer)], m[b.id := b])
    ensures Total(m[b.id := b]) == Total(m) + b.size
  {
    assert SameBatch(items, m, b.id);
    var items', m' := items[b.id := Item(b, Timer)], m[b.id := b];
    forall x ensures SameBatch(items', m', x) { assert SameBatch(items, m, x); }
    TotalInsert(m, b);
  }

  lemma SyncedEmpty(items: map<BatchId, Item<Timer>>, m: Batches)
    requires Synced(items, m)
    ensures items == map[] <==> m == map[]
  {
    forall id ensures id in items <==> id in m { assert SameBatch(items, m, id); }
  }

  lemma SyncedLowest(items: map<BatchId, Item<Timer>>, m: Batches, id: BatchId)
    requires Synced(items, m) && forall x | x in items :: id.num <= x.num
    ensures forall x | x in m :: id.num <= x.num
  {
    forall x | x in m ensures id.num <= x.num { assert SameBatch(items, m, x); }
  }

  class PartitionPrefetchIndex {
    const partition: Partition
    const maxSizeBytes: nat
    var lastPutSeqRequest: nat
    var lastPutSeq: nat
    var maxPoppedCallSeq: nat
    const cache: BatchCache
    const forcedPutCache: BatchCache
    const sequenceHeap: BatchHeap<Timer>
    /** How often the condition variable was broadcast. */
    var broadcasts: nat

    ghost predicate Separate() {
      && cache != forcedPutCache && cache.mapper != forcedPutCache.mapper
    }

    ghost predicate Parts()
      reads cache, cache.mapper, forcedPutCache, forcedPutCache.mapper, sequenceHeap, sequenceHeap.index
    {
      && Separate() && cache.Valid() && forcedPutCache.Valid() && sequenceHeap.Valid()
      && cache.partition == partition && forcedPutCache.partition == partition && sequenceHeap.partition == partition
      && (forall id: BatchId :: sequenceHeap.key(id) == id.num)
    }

    /** The heap holds exactly the prefetched batches, and they are within the limit. */
    ghost predicate Valid()
      reads cache, cache.mapper, forcedPutCache, forcedPutCache.mapper, sequenceHeap, sequenceHeap.index
    {
      Parts() && Synced(sequenceHeap.Items(), cache.Contents()) && Total(cache.Contents()) <= maxSizeBytes
    }

    /** The prefetched batches. */
    ghost function Cached(): Batches
      reads cache, cache.mapper
    {
      cache.Contents()
    }

    /** The batches fetched on request. */
    ghost function Forced(): Batches
      reads forcedPutCache, forcedPutCache.mapper
    {
      forcedPutCache.Contents()
    }

    constructor (partition: Partition, maxSizeBytes: nat)
      ensures Valid() && Cached() == map[] && Forced() == map[]
      ensures lastPutSeqRequest == lastPutSeq == maxPoppedCallSeq == 0
      ensures this.partition == partition && this.maxSizeBytes == maxSizeBytes
    {
      this.partition, this.maxSizeBytes := partition, maxSizeBytes;
      cache := new BatchCache(partition);
      forcedPutCache := new BatchCache(partition);
      sequenceHeap := new BatchHeap(partition, (id: BatchId) => id.num);
      lastPutSeqRequest, lastPutSeq, maxPoppedCallSeq, broadcasts := 0, 0, 0, 0;
      new;
      assert Sizes(cache.Contents()) == map[];
    }

    /** Takes out the prefetched batch with the lowest sequence. */
    method EvictOldestBatch() returns (evicted: Option<BatchId>)
      requires Valid()
      modifies this`broadcasts, cache, cache.mapper, sequenceHeap`data, sequenceHeap.index
      ensures Valid() && (evicted.None? <==> old(Cached()) == map[])
      ensures evicted.None? ==> Cached() == map[] && broadcasts == old(broadcasts)
      ensures evicted.Some? ==>
                && evicted.value in old(Cached()) && (forall x | x in old(Cached()) :: evicted.value.num <= x.num)
                && Cached() == old(Cached()) - {evicted.value} && broadcasts > old(broadcasts)
    {
      ghost var items, batches := sequenceHeap.Items(), cache.Contents();
      SyncedEmpty(items, batches);
      var item := sequenceHeap.Pop();
      if item.None? {
        return None;
      }
      var id := item.value.batch.id;
      SyncedRemove(items, batches, id);
      SyncedLowest(items, batches, id);
      assert cache.mapper.Filed(id);
      var _ := cache.Pop(id);
      broadcasts := broadcasts + 1;
      return Some(id);
    }

    /** Takes the batch out of the cache that has it. */
    method RemoveUnsafe(id: BatchId) returns (r: Option<Batch>)
      requires Valid() && id.partition == partition
      modifies this`broadcasts, cache, cache.mapper, forcedPutCache, forcedPutCache.mapper, sequenceHeap`data,
               sequenceHeap.index
      ensures Valid() && r == Lookup(old(Cached()), old(Forced()), id) && (r.Some? ==> r.value.id == id)
      ensures Cached() == old(Cached()) - {id}
      ensures Forced() == if id in old(Cached()) then old(Forced()) else old(Forced()) - {id}
      ensures if r.Some? then broadcasts > old(broadcasts) else broadcasts == old(broadcasts)
    {
      r := cache.Pop(id);
      if r.None? {
        assert cache.Contents() == old(cache.Contents());
        r := forcedPutCache.Pop(id);
        if r.Some? {
          broadcasts := broadcasts + 1;
        }
        return;
      }
      SyncedRemove(sequenceHeap.Items(), old(cache.Contents()), id);
      var _ := sequenceHeap.Remove(id);
      broadcasts := broadcasts + 1;
    }

    /** Stores a batch for which there is room, unless it is there already. */
    method SaveOrdinaryBatch(batch: Batch) returns (ok: bool)
      requires Valid() && batch.id.partition == partition && Total(Cached()) + batch.size <= maxSizeBytes
      modifies this`broadcasts, this`lastPutSeq, cache, cache.mapper, sequenceHeap`data, sequenceHeap.index
      ensures Valid() && (ok <==> batch.id !in old(Cached()))
      ensures !ok ==> Cached() == old(Cached()) && lastPutSeq == old(lastPutSeq) && broadcasts == old(broadcasts)
      ensures ok ==>
                && Cached() == old(Cached())[batch.id := batch] && lastPutSeq == batch.id.num
                && broadcasts > old(broadcasts)
    {
      ok := cache.Put(batch);
      if !ok {
        return;
      }
      SyncedInsert(old(sequenceHeap.Items()), old(cache.Contents()), batch);
      var pushed := sequenceHeap.Push(Item(batch, Timer));
      // The heap cannot refuse a batch that the cache did not have.
      assert pushed;
      lastPutSeq := batch.id.num;
      broadcasts := broadcasts + 1;
    }

    /** Evicts one more batch for a batch of this size. */
    method EvictFor(size: nat, ghost before: Batches)
      requires Valid() && size <= maxSizeBytes < Total(Cached()) + size && Evicted(before, Cached(), size, maxSizeBytes)
      modifies this`broadcasts, cache, cache.mapper, sequenceHeap`data, sequenceHeap.index
      ensures Valid() && Evicted(before, Cached(), size, maxSizeBytes)
      ensures Cached().Keys < old(Cached()).Keys && broadcasts > old(broadcasts)
    {
      ghost var now := Cached();
      NotEmpty(now, size, maxSizeBytes);
      var evicted := EvictOldestBatch();
      // The heap is never found empty here.
      assert evicted.Some?;
      EvictOne(before, now, evicted.value, size, maxSizeBytes);
    }

    /** Evicts for a batch of this size, unless prefetching is ahead of the consumer: then it has to wait. */
    method MakeRoom(id: BatchId, size: nat) returns (room: bool)
      requires Valid() && size <= maxSizeBytes
      modifies this`broadcasts, cache, cache.mapper, sequenceHeap`data, sequenceHeap.index
      ensures Valid() && Evicted(old(Cached()), Cached(), size, maxSizeBytes)
      ensures room <==> Total(Cached()) + size <= maxSizeBytes
      ensures !room <==> Total(old(Cached())) + size > maxSizeBytes && maxPoppedCallSeq < id.num
      ensures !room ==> Cached() == old(Cached())
      ensures if Cached() == old(Cached()) then broadcasts == old(broadcasts) else broadcasts > old(broadcasts)
    {
      while cache.sizeBytes + size > maxSizeBytes
        invariant Valid() && Evicted(old(Cached()), Cached(), size, maxSizeBytes)
        invariant maxPoppedCallSeq < id.num ==> Cached() == old(Cached())
        invariant Cached().Keys <= old(Cached().Keys)
        invariant if Cached() == old(Cached()) then broadcasts == old(broadcasts) else broadcasts > old(broadcasts)
        decreases Cached().Keys
      {
        if maxPoppedCallSeq < id.num {
          return false;
        }
        EvictFor(size, old(Cached()));
      }
      return true;
    }

    /** The loop of Put, from its start or from waking up to the next wait or the end of the call. */
    method PutOrWait(batch: Batch) returns (r: PutResult)
      requires Valid() && batch.id.partition == partition && batch.size <= maxSizeBytes
      modifies this`broadcasts, this`lastPutSeq, cache, cache.mapper, sequenceHeap`data, sequenceHeap.index
      ensures Valid() && !r.TooLarge? && (r.AlreadyExists? ==> batch.id in old(Cached()))
      ensures r.Wait? <==> Total(old(Cached())) + batch.size > maxSizeBytes && maxPoppedCallSeq < batch.id.num
      ensures r.Wait? ==> Cached() == old(Cached()) && lastPutSeq == old(lastPutSeq)
      ensures r.AlreadyExists? ==>
                && Evicted(old(Cached()), Cached(), batch.size, maxSizeBytes) && lastPutSeq == old(lastPutSeq)
                && batch.id in Cached() && Total(Cached()) + batch.size <= maxSizeBytes
      ensures !r.Stored? ==>
                if Cached() == old(Cached()) then broadcasts == old(broadcasts) else broadcasts > old(broadcasts)
      ensures r.Stored? ==>
                StoredAfterEviction(old(Cached()), Cached(), batch, maxSizeBytes) && lastPutSeq == batch.id.num
                            && broadcasts > old(broadcasts)
    {
      var room := MakeRoom(batch.id, batch.size);
      if !room {
        return Wait;
      }
      ghost var kept := Cached();
      var ok := SaveOrdinaryBatch(batch);
      if !ok {
        return AlreadyExists;
      }
      assert StoredOver(old(Cached()), kept, Cached(), batch, maxSizeBytes);
      return Stored;
    }

    /** Put, up to its first wait. */
    method Put(batch: Batch) returns (r: PutResult)
      requires Valid() && batch.id.partition == partition
      modifies this`broadcasts, this`lastPutSeq, this`lastPutSeqRequest, cache, cache.mapper, sequenceHeap`data,
               sequenceHeap.index
      ensures Valid() && (r.TooLarge? <==> batch.size > maxSizeBytes)
      ensures r.AlreadyExists? <==> batch.size <= maxSizeBytes && batch.id in old(Cached())
      ensures lastPutSeqRequest == if r.TooLarge? || r.AlreadyExists? then old(lastPutSeqRequest) else batch.id.num
      ensures lastPutSeq == if r.Stored? then batch.id.num else old(lastPutSeq)
      ensures !r.Stored? ==> Cached() == old(Cached()) && broadcasts == old(broadcasts)
      ensures r.Wait? <==> batch.size <= maxSizeBytes && batch.id !in old(Cached())
                           && Total(old(Cached())) + batch.size > maxSizeBytes && maxPoppedCallSeq < batch.id.num
      ensures r.Stored? ==>
                StoredAfterEviction(old(Cached()), Cached(), batch, maxSizeBytes) && broadcasts > old(broadcasts)
    {
      if batch.size > maxSizeBytes {
        return TooLarge;
      }
      var present := cache.Has(batch.id);
      if present {
        return AlreadyExists;
      }
      lastPutSeqRequest := batch.id.num;
      r := PutOrWait(batch);
    }

    /** Stores a batch that was asked for, whatever room there is. */
    method PutForce(batch: Batch) returns (r: PutResult)
      requires Valid() && batch.id.partition == partition
      modifies this`broadcasts, forcedPutCache, forcedPutCache.mapper
      ensures Valid() && !r.Wait? && (r.TooLarge? <==> batch.size > maxSizeBytes)
      ensures r.AlreadyExists? <==> batch.size <= maxSizeBytes && batch.id in old(Forced())
      ensures Forced() == if r.Stored? then old(Forced())[batch.id := batch] else old(Forced())
      ensures if r.Stored? then broadcasts > old(broadcasts) else broadcasts == old(broadcasts)
    {
      if batch.size > maxSizeBytes {
        return TooLarge;
      }
      var ok := forcedPutCache.Put(batch);
      if !ok {
        return AlreadyExists;
      }
      broadcasts := broadcasts + 1;
      return Stored;
    }

    /** The start of PopOrWait: the consumer's demand is announced. */
    method AnnouncePop(id: BatchId)
      requires Valid()
      modifies this`maxPoppedCallSeq, this`broadcasts
      ensures Valid() && maxPoppedCallSeq == if old(maxPoppedCallSeq) < id.num then id.num else old(maxPoppedCallSeq)
      ensures if maxPoppedCallSeq == old(maxPoppedCallSeq) then broadcasts == old(broadcasts)
              else broadcasts > old(broadcasts)
    {
      if maxPoppedCallSeq < id.num {
        maxPoppedCallSeq := id.num;
        broadcasts := broadcasts + 1;
      }
    }

    /** One round of PopOrWait: the batch asked for, or whether to request it before the wait. */
    method TryPop(id: BatchId, requested: bool) returns (r: Option<Batch>, request: bool)
      requires Valid() && id.partition == partition
      modifies this`broadcasts, cache, cache.mapper, forcedPutCache, forcedPutCache.mapper, sequenceHeap`data,
               sequenceHeap.index
      ensures Valid() && r == Lookup(old(Cached()), old(Forced()), id) && (r.Some? ==> r.value.id == id)
      ensures Cached() == old(Cached()) - {id}
      ensures Forced() == if id in old(Cached()) then old(Forced()) else old(Forced()) - {id}
      ensures if r.Some? then broadcasts > old(broadcasts) else broadcasts == old(broadcasts)
      ensures request <==> r.None? && !requested && (id.num < lastPutSeqRequest || id.num == lastPutSeq)
    {
      r := RemoveUnsafe(id);
      request := r.None? && !requested && (id.num < lastPutSeqRequest || id.num == lastPutSeq);
    }
  }
}
