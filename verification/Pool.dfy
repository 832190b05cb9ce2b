/**
 * The request pool of a batcher: a pending store while the batcher is a secondary, a batch store while
 * it is the primary, and one permit for every request held.
 */
module RequestPool {
  import opened Finite
  import opened Listing
  import opened Pending
  import opened Batching
  import opened PackedCounter
  import Epochs

  datatype Options = Options(maxSize: nat, batchMaxSize: nat, batchMaxSizeBytes: nat, requestMaxBytes: nat,
                             strikes: Epochs.Config, autoRemoveTimeout: int)

  /** Both limits of a batch are of type uint32. */
  predicate Typed(o: Options) { o.batchMaxSize < TWO_32 && o.batchMaxSizeBytes < TWO_32 }

  /** An empty batch has room for the request, of whose length the batch store is told the low 32 bits. */
  predicate Roomy(o: Options, request: Bytes) {
    1 <= o.batchMaxSize && |request| % TWO_32 <= o.batchMaxSizeBytes
  }

  /** The bytes of a batch and of an acceptable request together do not carry, nor does the number of requests wrap. */
  predicate NeverCarries(o: Options) {
    o.batchMaxSizeBytes + o.requestMaxBytes < TWO_32 && o.batchMaxSize < TWO_32 - 1
  }

  /** An empty batch has room for every request of an acceptable size.  The source does not check it. */
  ghost predicate Sound(o: Options) {
    1 <= o.batchMaxSize < TWO_32 && o.requestMaxBytes <= o.batchMaxSizeBytes < TWO_32
  }

  // ---------- What a caller can tell of a pool ----------

  /** The requests held, which of them were fetched, and the ids that are refused though not held. */
  datatype View = View(held: Requests, fetched: set<Id>, tombs: set<Id>, batching: bool, stopped: bool)

  ghost predicate Accepts(o: Options, v: View, id: Id, request: Bytes) {
    !v.stopped && |request| <= o.requestMaxBytes && |v.held.Keys| < o.maxSize && id !in v.held && id !in v.tombs
  }

  /** A submission to the batch store that may never end: it finds no room, not even in an empty batch. */
  ghost predicate SubmitHangs(o: Options, v: View, request: Bytes) {
    && v.batching && !v.stopped && |request| <= o.requestMaxBytes && |v.held.Keys| < o.maxSize
    && !Roomy(o, request)
  }

  /** A restart as the primary that may never end: it moves a request for which an empty batch has no room. */
  ghost predicate RestartHangs(o: Options, v: View, batching: bool) {
    !v.batching && batching && exists id :: id in v.held && !Roomy(o, v.held[id])
  }

  ghost function Submitted(o: Options, v: View, id: Id, request: Bytes): View {
    if Accepts(o, v, id, request) then v.(held := v.held[id := request]) else v
  }

  /**
   * The held requests of the list, each of them once and not fetched before, are fetched.  The list is empty only if
   * there are none left, or no batching.
   */
  ghost predicate Fetches(o: Options, list: List, v: View, w: View) {
    && w == v.(fetched := w.fetched) && v.fetched <= w.fetched <= v.held.Keys
    && (forall i, j | 0 <= i < j < |list| :: list[i].0 != list[j].0)
    && (forall i | 0 <= i < |list| :: list[i].0 in v.held && v.held[list[i].0] == list[i].1)
    && (forall id :: id in w.fetched && id !in v.fetched <==> exists x :: x in list && x.0 == id)
    && (v.stopped || !v.batching ==> list == [])
    && (v.batching && !v.stopped && o.batchMaxSize < 0xffff_fffe && list == [] ==> v.fetched == v.held.Keys)
  }

  /** A secondary goes on to refuse the ids that it did not hold by then. */
  ghost function Removed(v: View, ids: seq<Id>): View {
    var tombs := if v.batching then v.tombs else v.tombs - Elements(ids) + Left(v.held, ids);
    v.(held := v.held - Elements(ids), fetched := v.fetched - Elements(ids), tombs := tombs)
  }

  ghost predicate Prunes(keep: Bytes -> bool, v: View, w: View) {
    && w == v.(held := w.held)
    && (forall id :: id in w.held <==> id in v.held && (id in v.fetched || keep(v.held[id])))
    && (forall id | id in w.held :: w.held[id] == v.held[id])
  }

  /** A change of role gives up the requests that were fetched and not removed, and forgets the refused ids. */
  ghost function Restarted(v: View, batching: bool): View {
    if v.batching == batching then v.(stopped := false) else View(v.held - v.fetched, {}, {}, batching, false)
  }

  ghost predicate Ticks(v: View, w: View) {
    w == v.(tombs := w.tombs) && w.tombs <= v.tombs && (v.batching || v.stopped ==> w == v)
  }

  // ---------- The pool ----------

  class Pool {
    const options: Options
    const idOf: Bytes -> Id
    var pending: PendingStore?
    var batchStore: BatchStore?
    /** The permits taken from the semaphore. */
    var permits: int
    var size: int
    var batchingEnabled: bool
    var stopped: bool
    var closed: bool
    ghost var repr: set<object>

    ghost predicate Sane(m: Requests) {
      forall id | id in m :: idOf(m[id]) == id && |m[id]| <= options.requestMaxBytes
    }

    /** One permit, and one in size, for every request held: fetched and not removed ones included. */
    ghost predicate Balanced(m: Requests)
      reads this
    {
      permits == size == |m.Keys| <= options.maxSize && Sane(m)
    }

    ghost predicate PendingOk(p: PendingStore)
      reads this, p, p.index, p.All()
    {
      p.Valid() && !p.closed && Balanced(p.stored)
    }

    ghost predicate Limited(b: BatchStore) {
      b.batchMaxSize == options.batchMaxSize && b.batchMaxSizeBytes == options.batchMaxSizeBytes
    }

    ghost predicate BatchingOk(b: BatchStore)
      reads this, b, b.Open()
    {
      b.Valid() && Balanced(b.stored) && Limited(b)
    }

    ghost predicate Valid()
      reads this, repr
    {
      && Typed(options) && this in repr
      && (closed ||
          if batchingEnabled
          then && batchStore != null && batchStore in repr && batchStore.batches + batchStore.Open() <= repr
               && BatchingOk(batchStore)
          else && pending != null && pending in repr && pending.index in repr && pending.All() <= repr
               && PendingOk(pending) && pending.stopped == stopped)
    }

    ghost function Snapshot(): View
      requires Valid()
      reads this, repr
    {
      if closed then View(map[], {}, {}, batchingEnabled, stopped)
      else if batchingEnabled then View(batchStore.stored, batchStore.fetched, {}, true, stopped)
      else View(pending.stored, {}, pending.index.m.Keys - pending.stored.Keys, false, stopped)
    }

    constructor (options: Options, idOf: Bytes -> Id, startTime: int)
      requires Typed(options)
      ensures Valid() && !closed && Snapshot() == View(map[], {}, {}, false, false)
      ensures this.options == options && this.idOf == idOf && fresh(repr)
    {
      this.options, this.idOf := options, idOf;
      // The batch store that the source makes here is replaced before it is used.
      batchStore := null;
      pending := new PendingStore(options.strikes, options.autoRemoveTimeout / 4, options.autoRemoveTimeout, startTime);
      permits, size, batchingEnabled, stopped, closed := 0, 0, false, false, false;
      new;
      repr := {this, pending, pending.index} + pending.All();
    }

    lemma SaneGrows(m: Requests, id: Id, request: Bytes)
      requires Sane(m) && idOf(request) == id && |request| <= options.requestMaxBytes
      ensures Sane(m[id := request]) && |m[id := request].Keys| == |m.Keys| + (if id in m then 0 else 1)
    {
      assert m[id := request].Keys == m.Keys + {id};
    }

    lemma SaneShrinks(m: Requests, gone: set<Id>)
      requires Sane(m)
      ensures Sane(m - gone) && |(m - gone).Keys| <= |m.Keys|
    {
      assert m.Keys == (m - gone).Keys + (m.Keys * gone);
    }

    /** A permit has been taken; it is given back if the pending store knows the id. */
    method SubmitToPendingStore(reqId: Id, request: Bytes) returns (ok: bool)
      requires pending != null && pending.Valid() && permits >= 1
      modifies this`permits, this`size, pending.index, pending.currentBucket`size, pending.currentBucket`requests,
               pending`stored, pending`arrival, pending`arrivals
      ensures pending.Valid() && (ok <==> !pending.closed && reqId !in old(pending.index.m))
      ensures reqId in old(pending.stored) ==> !ok
      ensures pending.stored == if ok then old(pending.stored)[reqId := request] else old(pending.stored)
      ensures pending.index.m.Keys == if ok then old(pending.index.m).Keys + {reqId} else old(pending.index.m).Keys
      ensures if ok then size == old(size) + 1 && permits == old(permits)
              else size == old(size) && permits == old(permits) - 1
    {
      ok := pending.Submit(reqId, request);
      label done:
      if !ok {
        permits := permits - 1;
      } else {
        size := size + 1;
      }
      pending.Untouched@done();
    }

    /** A permit has been taken; it is given back if the batch store holds the id.  The insertion may never end. */
    method SubmitToBatchStore(reqId: Id, request: Bytes) returns (ended: bool, ok: bool)
      requires batchStore != null && batchStore.Valid() && permits >= 1 && Limited(batchStore)
      modifies this`permits, this`size, batchStore`currentBatch, batchStore`readyBatches, batchStore`keys2Batches,
               batchStore`stored, batchStore`batches, batchStore.currentBatch
      ensures batchStore.Valid() && fresh(batchStore.batches - old(batchStore.batches))
      ensures Roomy(options, request) ==> ended
      ensures ended && NeverCarries(options) && |request| <= options.requestMaxBytes ==> Roomy(options, request)
      ensures ok <==> ended && reqId !in old(batchStore.stored)
      ensures batchStore.stored == if ok then old(batchStore.stored)[reqId := request] else old(batchStore.stored)
      ensures ended && ok ==> size == old(size) + 1 && permits == old(permits)
      ensures ended && !ok ==> size == old(size) && permits == old(permits) - 1
    {
      var rounds;
      RoomyFits(batchStore, request);
      ended, ok, rounds := batchStore.Insert(reqId, request, |request| % TWO_32, 2);
      if !ended {
        return;
      }
      if !ok {
        permits := permits - 1;
        return;
      }
      size := size + 1;
    }

    lemma RoomyFits(b: BatchStore, request: Bytes)
      requires b.Valid() && Limited(b)
      ensures b.Fits(0, |request| % TWO_32) <==> Roomy(options, request)
      ensures NeverCarries(options) && |request| <= options.requestMaxBytes && !Roomy(options, request) ==>
                !b.Fits(b.currentBatch.sizeBytes, |request| % TWO_32)
    {
      AddedExact(0, 0, |request| % TWO_32);
      if NeverCarries(options) && |request| <= options.requestMaxBytes && !Roomy(options, request) {
        b.NoRoom(|request|);
      }
    }

    /** A request of an acceptable size, with a permit taken for it. */
    method SubmitPending(reqId: Id, request: Bytes) returns (ok: bool)
      requires Valid() && !closed && !batchingEnabled && permits < options.maxSize
      requires reqId == idOf(request) && |request| <= options.requestMaxBytes
      modifies this`permits, this`size, pending.index, pending.currentBucket`size, pending.currentBucket`requests,
               pending`stored, pending`arrival, pending`arrivals
      ensures Valid() && (ok <==> reqId !in old(pending.index.m))
      ensures Snapshot() == if ok then old(Snapshot()).(held := old(pending.stored)[reqId := request])
              else old(Snapshot())
    {
      TombsAfterSubmission(pending.stored, pending.index.m.Keys, reqId, request);
      SaneGrows(pending.stored, reqId, request);
      permits := permits + 1;
      pending.Untouched();
      ok := SubmitToPendingStore(reqId, request);
    }

    method SubmitBatching(reqId: Id, request: Bytes) returns (ended: bool, ok: bool)
      requires Valid() && !closed && batchingEnabled && permits < options.maxSize
      requires reqId == idOf(request) && |request| <= options.requestMaxBytes
      modifies this`permits, this`size, this`repr, batchStore`currentBatch, batchStore`readyBatches,
               batchStore`keys2Batches, batchStore`stored, batchStore`batches, batchStore.currentBatch
      ensures ended ==> Valid()
      ensures fresh(repr - old(repr)) && (ok <==> ended && reqId !in old(batchStore.stored))
      ensures Roomy(options, request) ==> ended
      ensures ended && NeverCarries(options) ==> Roomy(options, request)
      ensures batchStore.stored == if ok then old(batchStore.stored)[reqId := request] else old(batchStore.stored)
    {
      SaneGrows(batchStore.stored, reqId, request);
      permits := permits + 1;
      ended, ok := SubmitToBatchStore(reqId, request);
      repr := repr + batchStore.batches;
    }

    /**
     * Takes a request in.  Without a free permit the wait for one times out.  What is promised of the pool afterwards
     * is promised of a call that ends.
     */
    method Submit(request: Bytes) returns (ended: bool, ok: bool)
      requires Valid()
      modifies repr
      ensures closed == old(closed) && fresh(repr - old(repr))
      ensures !ended ==> !closed && SubmitHangs(options, old(Snapshot()), request)
      ensures NeverCarries(options) && !closed && SubmitHangs(options, old(Snapshot()), request) ==> !ended
      ensures ended ==> Valid()
      ensures ended ==> (ok <==> !closed && Accepts(options, old(Snapshot()), idOf(request), request))
      ensures ended && !closed ==> Snapshot() == Submitted(options, old(Snapshot()), idOf(request), request)
    {
      if closed || stopped {
        return true, false;
      }
      if |request| > options.requestMaxBytes {
        return true, false;
      }
      if permits == options.maxSize {
        return true, false;
      }
      if !batchingEnabled {
        assert pending.IdOk(idOf(request));
        ok := SubmitPending(idOf(request), request);
        ended := true;
      } else {
        ended, ok := SubmitBatching(idOf(request), request);
      }
    }

    /** The next batch: its requests stay in the pool until they are removed. */
    method NextRequests() returns (list: List)
      requires Valid()
      modifies repr
      ensures Valid() && closed == old(closed) && fresh(repr - old(repr))
      ensures if closed then list == [] else Fetches(options, list, old(Snapshot()), Snapshot())
    {
      FetchedAreHeld();
      if closed || stopped {
        return [];
      }
      if !batchingEnabled {
        return [];
      }
      list := NextBatch();
    }

    lemma FetchedAreHeld()
      requires Valid()
      ensures Snapshot().fetched <= Snapshot().held.Keys
    {
      if !closed && batchingEnabled {
        forall id | id in batchStore.fetched ensures id in batchStore.stored { assert batchStore.KeyOk(id); }
      }
    }

    method NextBatch() returns (list: List)
      requires Valid() && !closed && batchingEnabled
      modifies this`repr, batchStore`readyBatches, batchStore`currentBatch, batchStore`fetched, batchStore`batches,
               batchStore.currentBatch`enqueued
      ensures Valid() && fresh(repr - old(repr))
      ensures batchStore.FreshList(list, old(batchStore.fetched))
      ensures batchStore.fetched == old(batchStore.fetched) + batchStore.Keys(list)
      ensures list == [] && options.batchMaxSize < 0xffff_fffe ==> batchStore.stored.Keys == batchStore.fetched
    {
      ghost var skipped;
      list, skipped := batchStore.Fetch();
      repr := repr + batchStore.batches;
    }

    /** The permits of deleted requests are given back. */
    method Release(deleted: int)
      modifies this`permits, this`size
      ensures permits == old(permits) - deleted && size == old(size) - deleted
      ensures pending != null && old(pending.Valid()) ==> pending.Valid()
      ensures batchStore != null && old(batchStore.Valid()) ==> batchStore.Valid()
    {
      permits, size := permits - deleted, size - deleted;
      if pending != null && old(pending.Valid()) {
        pending.Untouched();
      }
    }

    method RemovePending(reqIds: seq<Id>)
      requires Valid() && !closed && !batchingEnabled
      modifies this`permits, this`size, pending.index, pending.All()`size, pending.All()`requests, pending`stored
      ensures Valid() && Snapshot() == Removed(old(Snapshot()), reqIds)
    {
      ghost var tombstone;
      var deleted;
      deleted, tombstone := pending.RemoveRequests(reqIds);
      TombsAfterRemoval(old(pending.stored), old(pending.index.m), reqIds, tombstone, pending.index.m);
      SaneShrinks(old(pending.stored), Elements(reqIds));
      Release(deleted);
    }

    method RemoveBatching(reqIds: seq<Id>)
      requires Valid() && !closed && batchingEnabled
      modifies this`permits, this`size, batchStore`keys2Batches, batchStore`stored, batchStore`fetched,
               batchStore.batches`m
      ensures Valid() && Snapshot() == Removed(old(Snapshot()), reqIds)
    {
      var deleted := batchStore.RemoveRequests(reqIds);
      SaneShrinks(old(batchStore.stored), Elements(reqIds));
      Release(deleted);
    }

    /** Removes requests; each one held gives back its permit. */
    method RemoveRequests(reqIds: seq<Id>)
      requires Valid()
      modifies repr
      ensures Valid() && closed == old(closed) && repr == old(repr)
      ensures !closed ==> Snapshot() == Removed(old(Snapshot()), reqIds)
    {
      if closed {
        return;
      }
      if !batchingEnabled {
        RemovePending(reqIds);
      } else {
        RemoveBatching(reqIds);
      }
    }

    method PrunePending(keep: Bytes -> bool)
      requires Valid() && !closed && !batchingEnabled
      modifies this`permits, this`size, pending.index, pending.All()`size, pending.All()`requests, pending`stored
      ensures Valid() && Prunes(keep, old(Snapshot()), Snapshot())
    {
      var deleted := pending.Prune(keep);
      Release(deleted);
      assert pending.index.m.Keys - pending.stored.Keys == old(pending.index.m.Keys - pending.stored.Keys);
    }

    method PruneBatching(keep: Bytes -> bool)
      requires Valid() && !closed && batchingEnabled
      modifies this`permits, this`size, batchStore`keys2Batches, batchStore`stored, batchStore`fetched,
               batchStore.batches`m
      ensures Valid() && Prunes(keep, old(Snapshot()), Snapshot())
    {
      var deleted := batchStore.Prune(keep);
      Release(deleted);
    }

    /** Drops the requests that fail the test, apart from those that were fetched already. */
    method Prune(keep: Bytes -> bool)
      requires Valid()
      modifies repr
      ensures Valid() && closed == old(closed) && repr == old(repr)
      ensures !closed ==> Prunes(keep, old(Snapshot()), Snapshot())
    {
      if closed {
        return;
      }
      if batchingEnabled {
        PruneBatching(keep);
      } else {
        PrunePending(keep);
      }
    }

    // ---------- Role changes ----------

    /** Puts the requests in a new pending store, each with its permit; it takes them all, as their ids are distinct. */
    method ResubmitPending(requests: List, ghost moved: Requests)
      requires pending != null && pending.Valid() && !pending.closed && pending.stored == map[]
      requires pending.index.m == map[]
      requires ListsAll(requests, moved) && Sane(moved) && size == 0 && permits == |requests|
      modifies this`permits, this`size, pending.index, pending.currentBucket`size, pending.currentBucket`requests,
               pending`stored, pending`arrival, pending`arrivals
      ensures pending.Valid() && pending.stored == moved && pending.index.m.Keys == moved.Keys
      ensures size == permits == |requests|
    {
      assert ListsAll(requests[..0], pending.stored);
      for i := 0 to |requests|
        invariant pending.Valid() && ListsAll(requests[..i], pending.stored)
        invariant pending.index.m.Keys == pending.stored.Keys
        invariant size == i && permits == |requests|
      {
        ListsAllNext(requests, i, pending.stored);
        assert idOf(requests[i].1) == requests[i].0;
        var ok := SubmitToPendingStore(idOf(requests[i].1), requests[i].1);
        assert ok;
      }
      assert requests[..|requests|] == requests;
      ListsAllSame(requests, pending.stored, moved);
    }

    /** Lists what was not fetched, and gives back the permits of what was. */
    method LeaveBatchStore(store: BatchStore, ghost moved: Requests) returns (requests: List)
      requires store.Valid() && Balanced(store.stored) && moved == store.stored - store.fetched
      modifies this`permits, this`size
      ensures ListsAll(requests, moved) && Sane(moved) && size == 0
      ensures permits == |requests| == |moved.Keys| <= options.maxSize
    {
      requests := store.ForEach();
      ListsAllSize(requests, moved);
      SaneShrinks(store.stored, store.fetched);
      var dropped := size - |requests|;
      size := 0;
      if dropped > 0 {
        permits := permits - dropped;
      }
    }

    /** All requests of the batch store that were not fetched go to a new pending store. */
    method MoveToPendingStore(startTime: int, ghost moved: Requests)
      requires batchStore != null && batchStore.Valid() && Typed(options) && Balanced(batchStore.stored) && this in repr
      requires !closed && !batchingEnabled && !stopped && moved == batchStore.stored - batchStore.fetched
      modifies this`pending, this`batchStore, this`permits, this`size, this`repr
      ensures Valid() && pending.stored == moved && pending.index.m.Keys == moved.Keys && fresh(repr - old(repr))
      ensures pending.Starts(startTime)
    {
      var requests := LeaveBatchStore(batchStore, moved);
      FillPendingStore(startTime, requests, moved);
    }

    method FillPendingStore(startTime: int, requests: List, ghost moved: Requests)
      requires ListsAll(requests, moved) && Sane(moved) && size == 0 && permits == |requests|
      modifies this`pending, this`batchStore, this`permits, this`size, this`repr
      ensures pending != null && pending.Valid() && !pending.closed && !pending.stopped && fresh(repr - old(repr))
      ensures pending.stored == moved && pending.index.m.Keys == moved.Keys && size == permits == |requests|
      ensures pending.Starts(startTime)
      ensures old(repr) <= repr && pending in repr && pending.index in repr && pending.All() <= repr
    {
      OpenPendingStore(startTime);
      ResubmitPending(requests, moved);
    }

    method OpenPendingStore(startTime: int)
      modifies this`pending, this`batchStore, this`repr
      ensures pending != null && pending.Valid() && !pending.closed && !pending.stopped
      ensures pending.stored == map[] && pending.index.m == map[] && pending.Starts(startTime)
      ensures fresh(pending) && fresh(pending.index) && fresh(pending.All()) && fresh(repr - old(repr))
      ensures batchStore == null && old(repr) <= repr && pending in repr && pending.index in repr
      ensures pending.All() <= repr
    {
      var lifetime := options.autoRemoveTimeout;
      var store := new PendingStore(options.strikes, lifetime / 4, lifetime, startTime);
      label made:
      pending, batchStore := store, null;
      repr := repr + {store, store.index} + store.All();
      store.Untouched@made();
    }

    /**
     * Puts the requests in a new batch store, each with its permit; it takes them all, as their ids are distinct,
     * unless one of the insertions does not end.
     */
    method ResubmitBatching(requests: List, ghost moved: Requests) returns (ended: bool)
      requires batchStore != null && batchStore.Valid() && batchStore.stored == map[] && batchStore.fetched == {}
      requires Limited(batchStore) && ListsAll(requests, moved) && Sane(moved) && permits == |requests|
      modifies this`permits, this`size, batchStore, batchStore.batches
      ensures batchStore.Valid() && fresh(batchStore.batches - old(batchStore.batches))
      ensures !ended ==> exists id :: id in moved && !Roomy(options, moved[id])
      ensures ended && NeverCarries(options) ==> forall id | id in moved :: Roomy(options, moved[id])
      ensures ended ==> batchStore.stored == moved && batchStore.fetched == {} && permits == |requests|
    {
      assert ListsAll(requests[..0], batchStore.stored);
      for i := 0 to |requests|
        invariant batchStore.Valid() && ListsAll(requests[..i], batchStore.stored) && permits == |requests|
        invariant fresh(batchStore.batches - old(batchStore.batches)) && batchStore.fetched == {}
        invariant NeverCarries(options) ==> forall j | 0 <= j < i :: Roomy(options, requests[j].1)
      {
        ListsAllNext(requests, i, batchStore.stored);
        assert idOf(requests[i].1) == requests[i].0;
        var ok;
        ended, ok := SubmitToBatchStore(idOf(requests[i].1), requests[i].1);
        if !ended {
          return false;
        }
        assert ok;
      }
      assert requests[..|requests|] == requests;
      ListsAllSame(requests, batchStore.stored, moved);
      forall id | id in moved && NeverCarries(options) ensures Roomy(options, moved[id]) {
        assert (id, moved[id]) in requests;
      }
      ended := true;
    }

    /** All requests of the pending store go to a new batch store. */
    method MoveToBatchStore() returns (ended: bool)
      requires pending != null && pending.Valid() && Typed(options) && Balanced(pending.stored) && this in repr
      requires !closed && batchingEnabled
      modifies this`pending, this`batchStore, this`permits, this`size, this`repr, pending`closed
      ensures fresh(repr - old(repr))
      ensures !ended ==> exists id :: id in old(pending.stored) && !Roomy(options, old(pending.stored)[id])
      ensures ended && NeverCarries(options) ==>
                forall id | id in old(pending.stored) :: Roomy(options, old(pending.stored)[id])
      ensures ended ==> Valid() && batchStore.stored == old(pending.stored) && batchStore.fetched == {}
    {
      ghost var moved := pending.stored;
      var requests := pending.GetAllRequests();
      ListsAllSize(requests, moved);
      pending.closed := true;
      ended := FillBatchStore(requests, moved);
    }

    method FillBatchStore(requests: List, ghost moved: Requests) returns (ended: bool)
      requires Typed(options) && ListsAll(requests, moved) && Sane(moved) && permits == |requests|
      modifies this`pending, this`batchStore, this`permits, this`size, this`repr
      ensures fresh(repr - old(repr)) && old(repr) <= repr
      ensures !ended ==> exists id :: id in moved && !Roomy(options, moved[id])
      ensures ended && NeverCarries(options) ==> forall id | id in moved :: Roomy(options, moved[id])
      ensures ended ==>
                && batchStore != null && batchStore.Valid() && Limited(batchStore)
                && batchStore.stored == moved && batchStore.fetched == {} && permits == size == |requests|
                && batchStore in repr && batchStore.batches + batchStore.Open() <= repr
    {
      OpenBatchStore();
      ended := ResubmitBatching(requests, moved);
      if ended {
        EnterBatchStore(|requests|);
      }
    }

    method OpenBatchStore()
      requires Typed(options)
      modifies this`batchStore
      ensures batchStore != null && batchStore.Valid() && batchStore.stored == map[] && batchStore.fetched == {}
      ensures fresh(batchStore) && fresh(batchStore.batches) && Limited(batchStore)
    {
      var store := new BatchStore(options.batchMaxSize, options.batchMaxSizeBytes);
      batchStore := store;
    }

    method EnterBatchStore(count: nat)
      requires batchStore != null && batchStore.Valid()
      modifies this`pending, this`size, this`repr
      ensures pending == null && size == count && batchStore.Valid()
      ensures old(repr) <= repr && batchStore in repr && batchStore.batches + batchStore.Open() <= repr
      ensures forall o | o in repr && o !in old(repr) :: o == batchStore || o in batchStore.batches
    {
      pending := null;
      size := count;
      repr := repr + {batchStore} + batchStore.batches;
    }

    method HaltPending()
      requires Valid() && !closed && !batchingEnabled
      modifies this`stopped, pending`stopped
      ensures Valid() && stopped
    {
      pending.Stop();
      label done:
      stopped := true;
      pending.Untouched@done();
    }

    /** Stops the strikes and refuses requests until the next restart. */
    method Halt()
      requires Valid() && !closed
      modifies repr
      ensures Valid() && !closed && repr == old(repr) && Snapshot() == old(Snapshot()).(stopped := true)
      ensures !batchingEnabled ==> pending.stopped
    {
      if !batchingEnabled {
        HaltPending();
      } else {
        stopped := true;
      }
    }

    method ResetPending()
      requires Valid() && !closed && !batchingEnabled
      modifies this`stopped, pending`stopped, pending.buckets`lastTimestamp, pending.buckets`firstStrikeTimestamp
      ensures Valid() && !stopped && pending.View() == Epochs.Reset(old(pending.View()))
      ensures forall b | b in pending.buckets :: b.Restarted(pending.lastTick)
    {
      RestartClocks(pending);
      label done:
      stopped := false;
      pending.Untouched@done();
    }

    method SwitchToPending(startTime: int)
      requires Valid() && !closed && batchingEnabled
      modifies this
      ensures Valid() && !closed && !batchingEnabled && !stopped && fresh(repr - old(repr))
      ensures pending.stored == old(batchStore.stored) - old(batchStore.fetched)
      ensures pending.index.m.Keys == pending.stored.Keys && pending.Starts(startTime)
    {
      ghost var moved := batchStore.stored - batchStore.fetched;
      batchingEnabled, stopped := false, false;
      MoveToPendingStore(startTime, moved);
    }

    method SwitchToBatching() returns (ended: bool)
      requires Valid() && !closed && !batchingEnabled
      modifies this, pending`closed
      ensures closed == old(closed) && batchingEnabled && !stopped && fresh(repr - old(repr))
      ensures !ended ==> exists id :: id in old(pending.stored) && !Roomy(options, old(pending.stored)[id])
      ensures ended && NeverCarries(options) ==>
                forall id | id in old(pending.stored) :: Roomy(options, old(pending.stored)[id])
      ensures ended ==> Valid() && batchStore.stored == old(pending.stored) && batchStore.fetched == {}
    {
      batchingEnabled, stopped := true, false;
      pending.Untouched();
      ended := MoveToBatchStore();
    }

    /**
     * Restarts the pool for a role.  The lock is held throughout, so that the halt at the start shows in the pending
     * store only.  Every request moves with its permit, apart from those that were fetched and not removed: when the
     * batch store is left these are given up, and their permits with them.  What is promised of the pool afterwards is
     * promised of a call that ends.
     */
    method Restart(batching: bool, startTime: int) returns (ended: bool)
      requires Valid()
      modifies repr
      ensures closed == old(closed) && fresh(repr - old(repr))
      ensures !ended ==> !closed && RestartHangs(options, old(Snapshot()), batching)
      ensures NeverCarries(options) && !closed && RestartHangs(options, old(Snapshot()), batching) ==> !ended
      ensures ended ==> Valid() && !stopped
      ensures ended && !closed ==> Snapshot() == Restarted(old(Snapshot()), batching)
      ensures !closed && !batching && !old(batchingEnabled) ==>
                && ended && pending == old(pending) && pending.View() == Epochs.Reset(old(pending.View()))
                && forall b | b in pending.buckets :: b.Restarted(pending.lastTick)
      ensures !closed && !batching && old(batchingEnabled) ==> ended && pending.Starts(startTime)
    {
      ended := true;
      if closed || batchingEnabled == batching == true {
        stopped := false;
      } else if batchingEnabled {
        SwitchToPending(startTime);
      } else if batching {
        ended := SwitchToBatching();
        assert old(pending.stored) == old(Snapshot()).held - {};
      } else {
        ResetPending();
      }
    }

    /** Gives up everything. */
    method Close()
      requires Valid()
      modifies repr
      ensures Valid() && closed && size == 0 && repr == old(repr)
    {
      if pending != null && !batchingEnabled && !closed {
        pending.closed := true;
      }
      closed, pending, batchStore, size := true, null, null, 0;
    }

    /** A tick of the pending store's clock; it takes no request away. */
    method Tick(now: int) returns (second: bool)
      requires Valid() && !closed && !batchingEnabled
      modifies repr
      ensures Valid() && !closed && fresh(repr - old(repr)) && Ticks(old(Snapshot()), Snapshot())
      ensures pending == old(pending) && if stopped then !second
              else (pending.View(), second) == Epochs.Tick(pending.config, old(pending.View()), now)
    {
      second := pending.Tick(now);
      label ticked:
      repr := repr + pending.All();
      pending.Untouched@ticked();
      assert stopped ==> pending.index.m.Keys == old(pending.index.m.Keys);
    }
  }

  method RestartClocks(p: PendingStore)
    requires p.Valid() && !p.closed
    modifies p`stopped, p.buckets`lastTimestamp, p.buckets`firstStrikeTimestamp
    ensures p.Valid() && !p.stopped && p.currentBucket.View() == old(p.currentBucket.View())
    ensures forall b | b in p.buckets :: b.Restarted(p.lastTick)
    ensures p.View() == Epochs.Reset(old(p.View()))
  {
    p.Stop();
    p.ResetTimestamps();
  }

  lemma TombsAfterSubmission(held: Requests, known: set<Id>, id: Id, request: Bytes)
    ensures id !in known ==> known + {id} - held[id := request].Keys == known - held.Keys
  {
  }

  lemma TombsAfterRemoval(held: Requests, known: Known, ids: seq<Id>, tombstone: Bucket, still: Known)
    requires forall id :: KnownAfter(held, known, ids, tombstone, still, id)
    ensures still.Keys - (held - Elements(ids)).Keys == known.Keys - held.Keys - Elements(ids) + Left(held, ids)
  {
    forall id ensures id in still <==> id in Left(held, ids) || (id in known && id !in ids) {
      assert KnownAfter(held, known, ids, tombstone, still, id);
    }
  }

  // ---------- Runs ----------

  datatype Call =
    | CallSubmit(request: Bytes)
    | CallNextRequests
    | CallRemoveRequests(ids: seq<Id>)
    | CallPrune(keep: Bytes -> bool)
    | CallRestart(batching: bool, at: int)
    | CallHalt
    | CallTick(now: int)

  datatype Reply = Quiet | Verdict(ok: bool) | Handed(list: List)

  /** What a call makes of the pool, and what it returns. */
  ghost predicate Follows(o: Options, idOf: Bytes -> Id, call: Call, reply: Reply, v: View, w: View) {
    match call
    case CallSubmit(request) =>
      && reply == Verdict(Accepts(o, v, idOf(request), request))
      && w == Submitted(o, v, idOf(request), request)
    case CallNextRequests => reply.Handed? && Fetches(o, reply.list, v, w)
    case CallRemoveRequests(ids) => w == Removed(v, ids)
    case CallPrune(keep) => Prunes(keep, v, w)
    case CallRestart(batching, at) => w == Restarted(v, batching)
    case CallHalt => w == v.(stopped := true)
    case CallTick(now) => Ticks(v, w)
  }

  /** The calls that may never end. */
  ghost predicate Hangs(o: Options, call: Call, v: View) {
    match call
    case CallSubmit(request) => SubmitHangs(o, v, request)
    case CallRestart(batching, at) => RestartHangs(o, v, batching)
    case _ => false
  }

  method Apply(pool: Pool, call: Call) returns (ended: bool, reply: Reply)
    requires pool.Valid() && !pool.closed
    modifies pool.repr
    ensures pool.closed == old(pool.closed) && fresh(pool.repr - old(pool.repr))
    ensures !ended ==> Hangs(pool.options, call, old(pool.Snapshot()))
    ensures NeverCarries(pool.options) && Hangs(pool.options, call, old(pool.Snapshot())) ==> !ended
    ensures Sound(pool.options) ==> ended
    ensures ended ==> pool.Valid()
    ensures ended ==> Follows(pool.options, pool.idOf, call, reply, old(pool.Snapshot()), pool.Snapshot())
  {
    SoundIsRoomy(pool);
    ended, reply := true, Quiet;
    match call {
      case CallSubmit(request) =>
        var ok;
        ended, ok := pool.Submit(request);
        reply := Verdict(ok);
      case CallNextRequests =>
        var list := pool.NextRequests();
        reply := Handed(list);
      case CallRemoveRequests(ids) => pool.RemoveRequests(ids);
      case CallPrune(keep) => pool.Prune(keep);
      case CallRestart(batching, at) => ended := pool.Restart(batching, at);
      case CallHalt => pool.Halt();
      case CallTick(now) =>
        if !pool.batchingEnabled {
          var _ := pool.Tick(now);
        }
    }
  }

  lemma SoundIsRoomy(pool: Pool)
    requires pool.Valid() && !pool.closed
    ensures Sound(pool.options) ==>
              forall id | id in pool.Snapshot().held :: Roomy(pool.options, pool.Snapshot().held[id])
  {
  }

  ghost predicate Run(o: Options, idOf: Bytes -> Id, calls: seq<Call>, replies: seq<Reply>, views: seq<View>) {
    && |views| == |calls| + 1 && |replies| == |calls| && views[0] == View(map[], {}, {}, false, false)
    && forall i {:trigger calls[i]} | 0 <= i < |calls| :: Follows(o, idOf, calls[i], replies[i], views[i], views[i + 1])
  }

  lemma RunMore(o: Options, idOf: Bytes -> Id, calls: seq<Call>, i: nat, replies: seq<Reply>, views: seq<View>,
                reply: Reply, w: View)
    requires i < |calls| && Run(o, idOf, calls[..i], replies, views) && Follows(o, idOf, calls[i], reply, views[i], w)
    ensures Run(o, idOf, calls[..i + 1], replies + [reply], views + [w])
  {
    assert calls[..i + 1] == calls[..i] + [calls[i]];
  }

  /** If the counters never carry, none of these calls may hang. */
  ghost predicate NoneHangs(o: Options, calls: seq<Call>, views: seq<View>) {
    NeverCarries(o) && |views| > |calls| ==> forall i | 0 <= i < |calls| :: !Hangs(o, calls[i], views[i])
  }

  lemma NoneHangsMore(o: Options, calls: seq<Call>, i: nat, views: seq<View>, w: View)
    requires i < |calls| && |views| == i + 1 && NoneHangs(o, calls[..i], views)
    requires NeverCarries(o) ==> !Hangs(o, calls[i], views[i])
    ensures NoneHangs(o, calls[..i + 1], views + [w])
  {
    assert calls[..i + 1] == calls[..i] + [calls[i]];
  }

  /** A run of the first calls, as many as have replies, after which there is none or one that may hang. */
  ghost predicate Replayed(o: Options, idOf: Bytes -> Id, calls: seq<Call>, permits: seq<int>, sizes: seq<int>,
                           replies: seq<Reply>, views: seq<View>)
  {
    var n := |replies|;
    && n <= |calls| && Run(o, idOf, calls[..n], replies, views) && Balances(o, permits, sizes, views)
    && NoneHangs(o, calls[..n], views) && (n < |calls| ==> Hangs(o, calls[n], views[n]))
  }

  /** Permits, size and the number of requests held, at each point of a run. */
  ghost predicate Balances(o: Options, permits: seq<int>, sizes: seq<int>, views: seq<View>) {
    && |permits| == |sizes| == |views|
    && forall i | 0 <= i < |views| :: permits[i] == sizes[i] == |views[i].held.Keys| <= o.maxSize
  }

  lemma BalancesMore(o: Options, permits: seq<int>, sizes: seq<int>, views: seq<View>, p: int, z: int, w: View)
    requires Balances(o, permits, sizes, views) && p == z == |w.held.Keys| <= o.maxSize
    ensures Balances(o, permits + [p], sizes + [z], views + [w])
  {
  }

  /**
   * Over every run of the pool, role changes in both directions included, each call does and returns what it should,
   * and after each call the permits taken equal the size and the number of requests held, and never exceed the maximum.
   * The run is cut short by the first call that does not end, which is one of those that may hang; if the counters
   * never carry, it is the first one of those.
   */
  method Replay(options: Options, idOf: Bytes -> Id, startTime: int, calls: seq<Call>)
    returns (permits: seq<int>, sizes: seq<int>, replies: seq<Reply>)
    requires Typed(options)
    ensures exists views :: Replayed(options, idOf, calls, permits, sizes, replies, views)
    ensures Sound(options) ==> |replies| == |calls|
  {
    var pool := new Pool(options, idOf, startTime);
    ghost var views := [pool.Snapshot()];
    permits, sizes, replies := [pool.permits], [pool.size], [];
    for i := 0 to |calls|
      invariant fresh(pool.repr) && pool.Valid() && !pool.closed && pool.options == options && pool.idOf == idOf
      invariant Run(options, idOf, calls[..i], replies, views) && views[i] == pool.Snapshot()
      invariant Balances(options, permits, sizes, views) && NoneHangs(options, calls[..i], views)
    {
      var ended, reply := Apply(pool, calls[i]);
      if !ended {
        assert Replayed(options, idOf, calls, permits, sizes, replies, views);
        return;
      }
      NoneHangsMore(options, calls, i, views, pool.Snapshot());
      RunMore(options, idOf, calls, i, replies, views, reply, pool.Snapshot());
      BalancesMore(options, permits, sizes, views, pool.permits, pool.size, pool.Snapshot());
      views := views + [pool.Snapshot()];
      permits, sizes, replies := permits + [pool.permits], sizes + [pool.size], replies + [reply];
    }
    assert calls[..|calls|] == calls;
    assert Replayed(options, idOf, calls, permits, sizes, replies, views);
  }

  /** The calls that take a request out of the pool. */
  ghost predicate Loses(call: Call, v: View, id: Id)
    requires id in v.held
  {
    match call
    case CallRemoveRequests(ids) => id in ids
    case CallPrune(keep) => id !in v.fetched && !keep(v.held[id])
    case CallRestart(batching, at) => v.batching != batching && id in v.fetched
    case _ => false
  }

  lemma LostExactly(o: Options, idOf: Bytes -> Id, call: Call, reply: Reply, v: View, w: View, id: Id)
    requires Follows(o, idOf, call, reply, v, w) && id in v.held
    ensures id !in w.held <==> Loses(call, v, id)
    ensures id in w.held ==> w.held[id] == v.held[id]
  {
  }

  /** A request stays, unchanged, until one of these calls takes it out. */
  lemma {:induction false} HeldUntilLost(o: Options, idOf: Bytes -> Id, calls: seq<Call>, replies: seq<Reply>,
                                         views: seq<View>, i: nat, j: nat, id: Id)
    requires Run(o, idOf, calls, replies, views) && i <= j < |views| && id in views[i].held
    requires forall k | i <= k < j && id in views[k].held :: !Loses(calls[k], views[k], id)
    ensures id in views[j].held && views[j].held[id] == views[i].held[id]
    decreases j
  {
    if i < j {
      HeldUntilLost(o, idOf, calls, replies, views, i, j - 1, id);
      LostExactly(o, idOf, calls[j - 1], replies[j - 1], views[j - 1], views[j], id);
    }
  }

  /** Every request that is held was submitted, and accepted, as it is. */
  lemma {:induction false} HeldWasSubmitted(o: Options, idOf: Bytes -> Id, calls: seq<Call>, replies: seq<Reply>,
                                            views: seq<View>, j: nat, id: Id) returns (i: nat)
    requires Run(o, idOf, calls, replies, views) && j < |views| && id in views[j].held
    ensures i < j && calls[i] == CallSubmit(views[j].held[id]) && replies[i] == Verdict(true)
    ensures idOf(views[j].held[id]) == id
    decreases j
  {
    var k := j - 1;
    if k >= 0 {
      assert Follows(o, idOf, calls[k], replies[k], views[k], views[j]);
      if id in views[k].held {
        i := HeldWasSubmitted(o, idOf, calls, replies, views, k, id);
        LostExactly(o, idOf, calls[k], replies[k], views[k], views[j], id);
      } else {
        i := k;
      }
    }
  }

  lemma StaysFetched(o: Options, idOf: Bytes -> Id, call: Call, reply: Reply, v: View, w: View, id: Id)
    requires Follows(o, idOf, call, reply, v, w) && id in v.held && id in v.fetched && !Loses(call, v, id)
    ensures id in w.held && id in w.fetched
  {
  }

  ghost predicate HandedOut(reply: Reply, id: Id) { reply.Handed? && exists x :: x in reply.list && x.0 == id }

  lemma HandedOutExactly(o: Options, idOf: Bytes -> Id, reply: Reply, v: View, w: View, id: Id)
    requires Follows(o, idOf, CallNextRequests, reply, v, w) && HandedOut(reply, id)
    ensures id in v.held && id !in v.fetched && id in w.held && id in w.fetched
  {
  }

  /** A request that was handed out counts as handed out until one of those calls takes it out. */
  lemma {:induction false} FetchedUntilLost(o: Options, idOf: Bytes -> Id, calls: seq<Call>, replies: seq<Reply>,
                                            views: seq<View>, i: nat, j: nat, id: Id) returns (k: nat)
    requires Run(o, idOf, calls, replies, views) && i <= j < |views| && id in views[i].held && id in views[i].fetched
    requires id !in views[j].held || id !in views[j].fetched
    ensures i <= k < j && id in views[k].held && Loses(calls[k], views[k], id)
    decreases j
  {
    k := j - 1;
    if id in views[k].held && id in views[k].fetched {
      if !Loses(calls[k], views[k], id) {
        StaysFetched(o, idOf, calls[k], replies[k], views[k], views[j], id);
        assert false;
      }
    } else {
      k := FetchedUntilLost(o, idOf, calls, replies, views, i, k, id);
    }
  }

  /** No request is handed out twice, unless a call took it out in between. */
  lemma HandedOnce(o: Options, idOf: Bytes -> Id, calls: seq<Call>, replies: seq<Reply>, views: seq<View>,
                   i: nat, j: nat, id: Id) returns (k: nat)
    requires Run(o, idOf, calls, replies, views) && i < j < |calls| && calls[i] == calls[j] == CallNextRequests
    requires HandedOut(replies[i], id) && HandedOut(replies[j], id)
    ensures i < k < j && id in views[k].held && Loses(calls[k], views[k], id)
  {
    HandedOutExactly(o, idOf, replies[i], views[i], views[i + 1], id);
    HandedOutExactly(o, idOf, replies[j], views[j], views[j + 1], id);
    k := FetchedUntilLost(o, idOf, calls, replies, views, i + 1, j, id);
  }
}
