/**
 * The steps of the handshake are what the methods of the prefetch index do: each method here makes one step's call
 * on an index that is in the step's first state, and ends with the index in its last.
 */
module PrefetchRefinement {
  import opened Wrappers
  import opened BatchIds
  import opened BatchCaching
  import opened PrefetchIndex
  import opened PrefetchHandshake

  /** What the index holds is what the state says. */
  ghost predicate Shows(ix: PartitionPrefetchIndex, s: State)
    reads ix, ix.cache, ix.cache.mapper, ix.forcedPutCache, ix.forcedPutCache.mapper, ix.sequenceHeap,
          ix.sequenceHeap.index
  {
    && ix.Valid() && s.max == ix.maxSizeBytes && s.cache == ix.Cached() && s.forced == ix.Forced()
    && s.lastPutSeqRequest == ix.lastPutSeqRequest && s.lastPutSeq == ix.lastPutSeq
    && s.maxPoppedCallSeq == ix.maxPoppedCallSeq
  }

  /** A broadcast ends every wait but the caller's own, and without one no wait ends but the caller's own. */
  ghost predicate Signals(s: State, s': State, popper: set<Thread>, putter: set<Thread>, broadcast: bool) {
    if broadcast then s'.poppers.Keys - popper <= s'.awake && s'.putters.Keys - putter <= s'.awakePuts
    else s'.awake - popper == s.awake - popper && s'.awakePuts - putter == s.awakePuts - putter
  }

  /** The state differs only in the two caches and what Put keeps in mind. */
  ghost predicate PutOnly(s: State, s': State, cache: Batches, lastPutSeq: nat) {
    && s'.max == s.max && s'.cache == cache && s'.forced == s.forced && s'.lastPutSeq == lastPutSeq
    && s'.maxPoppedCallSeq == s.maxPoppedCallSeq
    && s'.poppers == s.poppers && s'.popped == s.popped && s'.channel == s.channel
  }

  /** What a round of Put does to the caller: it waits for its turn with this batch, or it is over. */
  ghost predicate Parks(s': State, t: Thread, batch: Batch, waits: bool) {
    (waits <==> t in s'.putters) && (waits ==> s'.putters[t] == batch && t !in s'.awakePuts)
  }

  lemma PutParks(s: State, t: Thread, b: Batch, kept: Batches)
    requires Total(s.cache) + b.size > s.max && s.maxPoppedCallSeq < b.id.num
    ensures var s' := PutRound(s, t, b, kept);
            && PutOnly(s, s', s.cache, s.lastPutSeq) && s'.lastPutSeqRequest == s.lastPutSeqRequest
            && Signals(s, s', {}, {t}, false) && Parks(s', t, b, true)
  {
  }

  lemma PutStores(s: State, t: Thread, b: Batch, kept: Batches, cache: Batches)
    requires !(Total(s.cache) + b.size > s.max && s.maxPoppedCallSeq < b.id.num)
    requires b.id !in kept && cache == kept[b.id := b]
    ensures var s' := PutRound(s, t, b, kept);
            && PutOnly(s, s', cache, b.id.num) && s'.lastPutSeqRequest == s.lastPutSeqRequest
            && Signals(s, s', {}, {t}, true) && Parks(s', t, b, false)
  {
  }

  lemma PutFinds(s: State, t: Thread, b: Batch, kept: Batches)
    requires !(Total(s.cache) + b.size > s.max && s.maxPoppedCallSeq < b.id.num) && b.id in kept
    ensures var s' := PutRound(s, t, b, kept);
            && PutOnly(s, s', kept, s.lastPutSeq) && s'.lastPutSeqRequest == s.lastPutSeqRequest
            && Signals(s, s', {}, {t}, kept != s.cache) && Parks(s', t, b, false)
  {
  }

  ghost predicate Full(s: State, b: Batch) { Total(s.cache) + b.size > s.max && s.maxPoppedCallSeq < b.id.num }

  lemma {:induction false} KeptFits(whole: Batches, kept: Batches, x: BatchId)
    requires Part(kept, whole) && x in whole && x !in kept
    ensures Total(kept) + whole[x].size <= Total(whole)
    decreases |whole|
  {
    TotalRemove(whole, x);
    if kept != whole - {x} {
      var y :| y in whole - {x} && y !in kept;
      TotalRemove(whole, y);
      KeptFits(whole - {y}, kept, x);
    }
  }

  /** Where there is room already, eviction leaves everything. */
  lemma KeptEnough(s: State, b: Batch, kept: Batches)
    requires Evicted(s.cache, kept, b.size, s.max) && Total(kept) + b.size <= s.max && !Full(s, b)
    ensures CanKeep(s, b, kept)
  {
    if Total(s.cache) + b.size <= s.max && kept != s.cache {
      var x :| LastNeeded(s.cache, kept, x, b.size, s.max);
      KeptFits(s.cache, kept, x);
    }
  }

  /** What Put promises for the first round, given the result and the cache after it. */
  lemma PutStartMeans(s: State, t: Thread, b: Batch, r: PutResult, cache: Batches) returns (kept: Batches)
    requires t !in s.putters && (r.TooLarge? <==> b.size > s.max)
    requires r.AlreadyExists? <==> b.size <= s.max && b.id in s.cache
    requires r.Wait? <==> b.size <= s.max && b.id !in s.cache && Full(s, b)
    requires if r.Stored? then StoredAfterEviction(s.cache, cache, b, s.max) else cache == s.cache
    ensures Enabled(s, PutStart(t, b, kept))
    ensures var s' := Next(s, PutStart(t, b, kept));
            && PutOnly(s, s', cache, if r.Stored? then b.id.num else s.lastPutSeq)
            && s'.lastPutSeqRequest == (if r.TooLarge? || r.AlreadyExists? then s.lastPutSeqRequest else b.id.num)
            && Signals(s, s', {}, {t}, r.Stored?) && Parks(s', t, b, r.Wait?)
  {
    kept := s.cache;
    var s1 := s.(lastPutSeqRequest := b.id.num);
    if r.Stored? {
      kept :| StoredOver(s.cache, kept, cache, b, s.max);
      KeptEnough(s, b, kept);
      PutStores(s1, t, b, kept, cache);
    } else if r.Wait? {
      PutParks(s1, t, b, kept);
    }
  }

  /** The first round of Put. */
  method PutStarts(ix: PartitionPrefetchIndex, ghost s: State, ghost t: Thread, batch: Batch)
    returns (r: PutResult, ghost kept: Batches)
    requires Shows(ix, s) && t !in s.putters && batch.id.partition == ix.partition
    modifies ix`broadcasts, ix`lastPutSeq, ix`lastPutSeqRequest, ix.cache, ix.cache.mapper, ix.sequenceHeap`data,
             ix.sequenceHeap.index
    ensures Enabled(s, PutStart(t, batch, kept))
    ensures var s' := Next(s, PutStart(t, batch, kept));
            && Shows(ix, s') && Signals(s, s', {}, {t}, ix.broadcasts > old(ix.broadcasts))
            && Parks(s', t, batch, r.Wait?) && PutOnly(s, s', ix.Cached(), ix.lastPutSeq)
  {
    r := ix.Put(batch);
    kept := PutStartMeans(s, t, batch, r, ix.Cached());
  }

  /** What Put promises for a later round. */
  lemma PutWakeMeans(s: State, t: Thread, b: Batch, r: PutResult, cache: Batches) returns (kept: Batches)
    requires t in s.putters && t in s.awakePuts && s.putters[t] == b && !r.TooLarge?
    requires r.Wait? <==> Full(s, b)
    requires r.Wait? ==> cache == s.cache
    requires r.AlreadyExists? ==>
               Evicted(s.cache, cache, b.size, s.max) && b.id in cache && Total(cache) + b.size <= s.max
    requires r.Stored? ==> StoredAfterEviction(s.cache, cache, b, s.max)
    ensures Enabled(s, PutWake(t, kept))
    ensures var s' := Next(s, PutWake(t, kept));
            && PutOnly(s, s', cache, if r.Stored? then b.id.num else s.lastPutSeq)
            && s'.lastPutSeqRequest == s.lastPutSeqRequest
            && Signals(s, s', {}, {t}, r.Stored? || cache != s.cache) && Parks(s', t, b, r.Wait?)
  {
    kept := cache;
    if r.Stored? {
      kept :| StoredOver(s.cache, kept, cache, b, s.max);
      KeptEnough(s, b, kept);
      PutStores(s, t, b, kept, cache);
    } else if r.Wait? {
      PutParks(s, t, b, kept);
    } else {
      KeptEnough(s, b, kept);
      PutFinds(s, t, b, kept);
    }
  }

  /** A later round of Put. */
  method PutWakes(ix: PartitionPrefetchIndex, ghost s: State, ghost t: Thread, batch: Batch)
    returns (r: PutResult, ghost kept: Batches)
    requires Shows(ix, s) && t in s.putters && t in s.awakePuts && s.putters[t] == batch
    requires batch.id.partition == ix.partition && batch.size <= s.max
    modifies ix`broadcasts, ix`lastPutSeq, ix.cache, ix.cache.mapper, ix.sequenceHeap`data, ix.sequenceHeap.index
    ensures Enabled(s, PutWake(t, kept))
    ensures var s' := Next(s, PutWake(t, kept));
            && Shows(ix, s') && Signals(s, s', {}, {t}, ix.broadcasts > old(ix.broadcasts))
            && Parks(s', t, batch, r.Wait?) && PutOnly(s, s', ix.Cached(), ix.lastPutSeq)
  {
    r := ix.PutOrWait(batch);
    kept := PutWakeMeans(s, t, batch, r, ix.Cached());
  }

  /** The delivery of a batch that was fetched. */
  method Delivers(ix: PartitionPrefetchIndex, ghost s: State, batch: Batch) returns (r: PutResult)
    requires Shows(ix, s) && batch.id in s.fetching && batch.id.partition == ix.partition
    modifies ix`broadcasts, ix.forcedPutCache, ix.forcedPutCache.mapper
    ensures var s' := Next(s, Deliver(batch));
            && Shows(ix, s') && Signals(s, s', {}, {}, ix.broadcasts > old(ix.broadcasts))
            && s'.poppers == s.poppers && s'.putters == s.putters && s'.popped == s.popped && s'.channel == s.channel
  {
    r := ix.PutForce(batch);
  }

  /** The state differs only in the two caches, from which the batch was taken. */
  ghost predicate TakenOnly(s: State, s': State, id: BatchId) {
    && s'.max == s.max && s'.cache == s.cache - {id}
    && s'.forced == (if id in s.cache then s.forced else s.forced - {id})
    && s'.lastPutSeqRequest == s.lastPutSeqRequest && s'.lastPutSeq == s.lastPutSeq && s'.putters == s.putters
  }

  /** What a round of PopOrWait does to the caller: it returns the batch, or waits, and may have requested it. */
  ghost predicate Pops(s: State, s': State, t: Thread, id: BatchId, r: Option<Batch>, request: bool) {
    && (r.Some? <==> t !in s'.poppers)
    && s'.popped == (if r.Some? then s.popped[t := r.value] else s.popped)
    && (r.None? ==> s'.poppers[t].id == id && t !in s'.awake)
    && s'.poppers - {t} == s.poppers - {t}
    && s'.channel == (if request then s.channel + multiset{id} else s.channel)
  }

  lemma PopRoundMeans(s: State, t: Thread, p: Popper)
    ensures var s', r := PopRound(s, t, p), Lookup(s.cache, s.forced, p.id);
            var request := r.None? && !p.requested && (p.id.num < s.lastPutSeqRequest || p.id.num == s.lastPutSeq);
            && TakenOnly(s, s', p.id) && s'.maxPoppedCallSeq == s.maxPoppedCallSeq
            && Signals(s, s', {t}, {}, r.Some?) && Pops(s, s', t, p.id, r, request)
  {
    if Lookup(s.cache, s.forced, p.id).None? {
      var s' := PopRound(s, t, p);
      assert s.cache - {p.id} == s.cache && s.forced - {p.id} == s.forced;
      assert s'.poppers - {t} == s.poppers - {t};
    } else if p.id !in s.cache {
      assert s.cache - {p.id} == s.cache;
    }
  }

  /** A broadcast that the caller makes before its round ends the waits just as well. */
  lemma SignalsEither(s: State, s1: State, s': State, t: Thread, first: bool, second: bool)
    requires Signals(s, s1, {}, {}, first) && Signals(s1, s', {t}, {}, second)
    requires s'.poppers - {t} == s1.poppers - {t} && s'.putters == s1.putters
    ensures Signals(s, s', {t}, {}, first || second)
  {
    assert s1.awake - {} == s1.awake && s1.awakePuts - {} == s1.awakePuts && s'.awakePuts - {} == s'.awakePuts;
    assert s.awake - {} == s.awake;
    if first && !second {
      assert (s'.poppers - {t}).Keys == s'.poppers.Keys - {t};
      assert (s1.poppers - {t}).Keys == s1.poppers.Keys - {t};
      assert s1.poppers.Keys - {t} <= s1.awake - {t};
    }
  }

  lemma AnnouncedMeans(s: State, id: BatchId)
    ensures var s1 := Announced(s, id);
            && s1 == s.(maxPoppedCallSeq := if s.maxPoppedCallSeq < id.num then id.num else s.maxPoppedCallSeq,
                        awake := s1.awake, awakePuts := s1.awakePuts)
            && Signals(s, s1, {}, {}, s.maxPoppedCallSeq < id.num)
  {
  }

  /** The first round also announces the demand, which is a broadcast of its own if it is a new one. */
  lemma PopStartMeans(s: State, t: Thread, id: BatchId)
    requires Enabled(s, PopStart(t, id))
    ensures var s', r := Next(s, PopStart(t, id)), Lookup(s.cache, s.forced, id);
            && TakenOnly(s, s', id)
            && s'.maxPoppedCallSeq == (if s.maxPoppedCallSeq < id.num then id.num else s.maxPoppedCallSeq)
            && Signals(s, s', {t}, {}, r.Some? || s.maxPoppedCallSeq < id.num)
            && Pops(s, s', t, id, r, r.None? && (id.num < s.lastPutSeqRequest || id.num == s.lastPutSeq))
  {
    var s1 := Announced(s, id);
    var s' := PopRound(s1, t, Popper(id, false, 0));
    AnnouncedMeans(s, id);
    PopRoundMeans(s1, t, Popper(id, false, 0));
    SignalsEither(s, s1, s', t, s.maxPoppedCallSeq < id.num, Lookup(s.cache, s.forced, id).Some?);
  }

  /** The first round of PopOrWait. */
  method PopStarts(ix: PartitionPrefetchIndex, ghost s: State, ghost t: Thread, id: BatchId)
    returns (r: Option<Batch>, request: bool)
    requires Shows(ix, s) && Enabled(s, PopStart(t, id)) && id.partition == ix.partition
    modifies ix`maxPoppedCallSeq, ix`broadcasts, ix.cache, ix.cache.mapper, ix.forcedPutCache,
             ix.forcedPutCache.mapper, ix.sequenceHeap`data, ix.sequenceHeap.index
    ensures var s' := Next(s, PopStart(t, id));
            && Shows(ix, s') && TakenOnly(s, s', id) && Pops(s, s', t, id, r, request)
            && Signals(s, s', {t}, {}, ix.broadcasts > old(ix.broadcasts))
  {
    PopStartMeans(s, t, id);
    ix.AnnouncePop(id);
    r, request := ix.TryPop(id, false);
  }

  /** A later round of PopOrWait. */
  method PopWakes(ix: PartitionPrefetchIndex, ghost s: State, ghost t: Thread, p: Popper)
    returns (r: Option<Batch>, request: bool)
    requires Shows(ix, s) && Enabled(s, PopWake(t)) && s.poppers[t] == p && p.id.partition == ix.partition
    modifies ix`broadcasts, ix.cache, ix.cache.mapper, ix.forcedPutCache, ix.forcedPutCache.mapper,
             ix.sequenceHeap`data, ix.sequenceHeap.index
    ensures var s' := Next(s, PopWake(t));
            && Shows(ix, s') && TakenOnly(s, s', p.id) && Pops(s, s', t, p.id, r, request)
            && Signals(s, s', {t}, {}, ix.broadcasts > old(ix.broadcasts))
  {
    PopRoundMeans(s, t, p);
    r, request := ix.TryPop(p.id, p.requested);
  }

  /**
   * The handler of a timer that fired takes the batch out of the cache that has it, ending every wait, and does
   * nothing if neither has it.
   */
  lemma ExpireMeans(s: State, id: BatchId)
    requires id in s.expiring
    ensures var s' := Next(s, Expire(id));
            && TakenOnly(s, s', id) && s'.maxPoppedCallSeq == s.maxPoppedCallSeq && id !in s'.cache
            && Signals(s, s', {}, {}, Present(s, id))
            && s'.poppers == s.poppers && s'.popped == s.popped && s'.channel == s.channel
            && s'.expiring == s.expiring - multiset{id}
  {
    if id !in s.cache {
      assert s.cache - {id} == s.cache;
      if id !in s.forced {
        assert s.forced - {id} == s.forced;
      }
    }
  }

  /** The handler of a timer that fired. */
  method Expires(ix: PartitionPrefetchIndex, ghost s: State, id: BatchId) returns (r: Option<Batch>)
    requires Shows(ix, s) && id in s.expiring && id.partition == ix.partition
    modifies ix`broadcasts, ix.cache, ix.cache.mapper, ix.forcedPutCache, ix.forcedPutCache.mapper,
             ix.sequenceHeap`data, ix.sequenceHeap.index
    ensures var s' := Next(s, Expire(id));
            && Shows(ix, s') && TakenOnly(s, s', id)
            && Signals(s, s', {}, {}, ix.broadcasts > old(ix.broadcasts))
            && (r.Some? <==> Present(s, id))
  {
    ExpireMeans(s, id);
    r := ix.RemoveUnsafe(id);
  }
}
