/**
 * The batch store, in which a primary batcher's requests are cut into batches.  This is what the
 * calls do one at a time; BatchProtocol has their interleavings.
 */
module Batching {
  import opened Finite
  import opened Listing
  import opened PackedCounter

  /**
   * `sizeBytes` packs the number of insertions (high half) and of their bytes (low half); ghosts have the true ones.
   */
  class Batch {
    var sizeBytes: nat
    var enqueued: bool
    var m: Requests
    ghost var count: nat
    ghost var bytes: nat

    constructor ()
      ensures sizeBytes == count == bytes == 0 && !enqueued && m == map[]
    {
      sizeBytes, enqueued, m, count, bytes := 0, false, map[], 0, 0;
    }
  }

  lemma OneLess(m: Requests, id: Id)
    ensures |(m - {id}).Keys| == |m.Keys| - (if id in m then 1 else 0)
  {
    assert (m - {id}).Keys == m.Keys - {id};
  }

  datatype RoundResult = Taken | Exists | Full

  class BatchStore {
    const batchMaxSize: nat
    const batchMaxSizeBytes: nat
    var currentBatch: Batch
    var readyBatches: seq<Batch>
    var keys2Batches: map<Id, Batch>
    /** The requests held, those that were fetched and not removed included. */
    ghost var stored: Requests
    ghost var fetched: set<Id>
    /** All batches of this store, fetched ones included. */
    ghost var batches: set<Batch>

    ghost function Open(): set<Batch>
      reads this
    {
      (set b | b in readyBatches) + {currentBatch}
    }

    /** A request in an open batch is held and not fetched, and its key leads to this batch. */
    ghost predicate SlotOk(b: Batch, id: Id)
      reads this, b
    {
      id in b.m ==>
        id in stored && id !in fetched && id in keys2Batches && keys2Batches[id] == b && b.m[id] == stored[id]
    }

    ghost predicate BatchOk(b: Batch)
      reads this, b
    {
      forall id {:trigger SlotOk(b, id)} :: SlotOk(b, id)
    }

    ghost predicate KeyOk(id: Id)
      reads this, Open()
    {
      && (id in stored <==> id in keys2Batches) && (id in stored ==> keys2Batches[id] in batches)
      && (id in fetched ==> id in stored && keys2Batches[id] !in Open())
      && (id in stored && id !in fetched ==> keys2Batches[id] in Open() && id in keys2Batches[id].m)
    }

    /**
     * The halves of the current batch's counter are within the limits; with sane limits it is zero in an unused batch
     * only.
     */
    ghost predicate CounterOk()
      reads this, currentBatch
    {
      && currentBatch.sizeBytes < TWO_64
      && High(currentBatch.sizeBytes) <= batchMaxSize && Low(currentBatch.sizeBytes) <= batchMaxSizeBytes
      && (batchMaxSize < 0xffff_fffe && currentBatch.sizeBytes == 0 ==> currentBatch.m == map[])
    }

    /** The counter of the current batch holds the true number of insertions and of their bytes. */
    ghost predicate Exact()
      reads this, currentBatch
    {
      && currentBatch.sizeBytes == currentBatch.count * TWO_32 + currentBatch.bytes
      && currentBatch.count < TWO_32 && currentBatch.bytes < TWO_32
    }

    ghost predicate Valid()
      reads this, Open()
    {
      && batchMaxSize < TWO_32 && batchMaxSizeBytes < TWO_32
      && Distinct(readyBatches) && currentBatch !in readyBatches && CounterOk() && Open() <= batches
      && !currentBatch.enqueued && (forall b | b in readyBatches :: b.enqueued)
      && (forall b {:trigger BatchOk(b)} | b in Open() :: BatchOk(b))
      && (forall id {:trigger KeyOk(id)} :: KeyOk(id))
    }

    constructor (batchMaxSize: nat, batchMaxSizeBytes: nat)
      requires batchMaxSize < TWO_32 && batchMaxSizeBytes < TWO_32
      ensures Valid() && stored == map[] && fetched == {} && fresh(batches) && fresh(currentBatch)
      ensures currentBatch.sizeBytes == currentBatch.count == currentBatch.bytes == 0
      ensures this.batchMaxSize == batchMaxSize && this.batchMaxSizeBytes == batchMaxSizeBytes
    {
      this.batchMaxSize, this.batchMaxSizeBytes := batchMaxSize, batchMaxSizeBytes;
      currentBatch := new Batch();
      readyBatches, keys2Batches, stored, fetched, batches := [], map[], map[], {}, {currentBatch};
      new;
      assert Open() == {currentBatch} && BatchOk(currentBatch);
    }

    twostate predicate SameKey(key: Id, id: Id)
      reads this
    {
      id != key ==>
        && (id in keys2Batches <==> id in old(keys2Batches))
        && (id in keys2Batches ==> keys2Batches[id] == old(keys2Batches[id]))
        && (id in stored <==> id in old(stored)) && (id in stored ==> stored[id] == old(stored[id]))
        && (id in fetched <==> id in old(fetched))
    }

    twostate predicate SameSlot(b: Batch, key: Id, id: Id)
      reads b
    {
      id != key ==> (id in b.m <==> id in old(b.m)) && (id in b.m ==> b.m[id] == old(b.m[id]))
    }

    /** The batch that a change for this key is about. */
    ghost function Target(key: Id): Batch
      reads this
    {
      if key in keys2Batches then keys2Batches[key] else currentBatch
    }

    /** A change that concerns one key and its batch only has to be right there. */
    twostate lemma OnlyFor(key: Id)
      requires old(Valid()) && readyBatches == old(readyBatches) && currentBatch == old(currentBatch) && CounterOk()
      requires batches == old(batches)
      requires !currentBatch.enqueued && forall b | b in readyBatches :: b.enqueued
      requires forall b | b in old(Open()) && b != old(Target(key)) :: b.m == old(b.m)
      requires forall id {:trigger SameKey(key, id)} :: SameKey(key, id)
      requires forall id {:trigger SameSlot(old(Target(key)), key, id)} :: SameSlot(old(Target(key)), key, id)
      requires KeyOk(key) && (old(Target(key)) in Open() ==> SlotOk(old(Target(key)), key))
      ensures Valid()
    {
      var c := old(Target(key));
      forall id ensures KeyOk(id) { assert old(KeyOk(id)) && SameKey(key, id) && SameSlot(c, key, id); }
      forall b | b in Open() ensures BatchOk(b) {
        assert old(BatchOk(b));
        forall id ensures SlotOk(b, id) { assert old(SlotOk(b, id)) && SameKey(key, id) && SameSlot(c, key, id); }
      }
    }

    /** Requests stay where they are, and their batches open; batches that come or go are empty. */
    twostate lemma Regrouped()
      requires old(Valid()) && stored == old(stored) && fetched == old(fetched) && keys2Batches == old(keys2Batches)
      requires Distinct(readyBatches) && currentBatch !in readyBatches && CounterOk() && Open() <= batches
      requires old(batches) <= batches
      requires !currentBatch.enqueued && forall b | b in readyBatches :: b.enqueued
      requires forall b | b in Open() :: if b in old(Open()) then b.m == old(b.m) else b.m == map[] && fresh(b)
      requires forall b | b in old(Open()) && b !in Open() :: old(b.m) == map[]
      ensures Valid()
    {
      forall b | b in Open() ensures BatchOk(b) {
        assert b in old(Open()) ==> old(BatchOk(b));
        forall id ensures SlotOk(b, id) { assert b in old(Open()) ==> old(SlotOk(b, id)); }
      }
      forall id ensures KeyOk(id) { assert old(KeyOk(id)); }
    }

    /** Whether the counter stays within the limits. */
    predicate Fits(sizeBytes: nat, size: nat) {
      High(Added(sizeBytes, size)) <= batchMaxSize && Low(Added(sizeBytes, size)) <= batchMaxSizeBytes
    }

    method Count(size: nat)
      modifies currentBatch`sizeBytes, currentBatch`count, currentBatch`bytes
      ensures currentBatch.sizeBytes == Added(old(currentBatch.sizeBytes), size)
      ensures currentBatch.count == old(currentBatch.count) + 1 && currentBatch.bytes == old(currentBatch.bytes) + size
    {
      currentBatch.sizeBytes := Added(currentBatch.sizeBytes, size);
      currentBatch.count, currentBatch.bytes := currentBatch.count + 1, currentBatch.bytes + size;
    }

    /** Counts a request that fits. */
    method Reserve(size: nat)
      requires Valid() && size < TWO_32 && Fits(currentBatch.sizeBytes, size)
      modifies currentBatch`sizeBytes, currentBatch`count, currentBatch`bytes
      ensures Valid() && (batchMaxSize < 0xffff_fffe ==> currentBatch.sizeBytes > 0)
      ensures currentBatch.sizeBytes == Added(old(currentBatch.sizeBytes), size)
      ensures currentBatch.count == old(currentBatch.count) + 1 && currentBatch.bytes == old(currentBatch.bytes) + size
    {
      if batchMaxSize < 0xffff_fffe {
        AddedPositive(currentBatch.sizeBytes, size);
      }
      Count(size);
      Regrouped();
    }

    /** Stores a request that was counted. */
    method Store(key: Id, value: Bytes)
      requires Valid() && key !in stored && (batchMaxSize < 0xffff_fffe ==> currentBatch.sizeBytes > 0)
      modifies this`keys2Batches, this`stored, currentBatch`m
      ensures Valid() && keys2Batches == old(keys2Batches)[key := currentBatch] && stored == old(stored)[key := value]
    {
      assert KeyOk(key);
      assert BatchOk(currentBatch) && SlotOk(currentBatch, key);
      keys2Batches := keys2Batches[key := currentBatch];
      currentBatch.m := currentBatch.m[key := value];
      stored := stored[key := value];
      OnlyFor(key);
    }

    /** The request is counted, but the batch is full: it is put in the queue, and a new one opened. */
    method Replace(size: nat)
      requires Valid()
      modifies this`currentBatch, this`readyBatches, this`batches, currentBatch
      ensures Valid() && readyBatches == old(readyBatches) + [old(currentBatch)]
      ensures batches == old(batches) + {currentBatch}
      ensures fresh(currentBatch) && currentBatch.sizeBytes == currentBatch.count == currentBatch.bytes == 0
    {
      Count(size);
      currentBatch.enqueued := true;
      readyBatches := readyBatches + [currentBatch];
      currentBatch := new Batch();
      batches := batches + {currentBatch};
      Regrouped();
    }

    /** One round of Insert: the counter goes up in any case. */
    method InsertRound(key: Id, value: Bytes, size: nat) returns (r: RoundResult)
      requires Valid() && size < TWO_32
      modifies this`currentBatch, this`readyBatches, this`keys2Batches, this`stored, this`batches, currentBatch
      ensures Valid() && (r.Full? <==> !Fits(old(currentBatch.sizeBytes), size))
      ensures !r.Full? ==> (r.Taken? <==> key !in old(stored))
      ensures stored == if r.Taken? then old(stored)[key := value] else old(stored)
      ensures keys2Batches == if r.Taken? then old(keys2Batches)[key := currentBatch] else old(keys2Batches)
      ensures r.Full? ==>
                fresh(currentBatch) && currentBatch.sizeBytes == currentBatch.count == currentBatch.bytes == 0
      ensures !r.Full? ==>
                && currentBatch == old(currentBatch)
                && currentBatch.sizeBytes == Added(old(currentBatch.sizeBytes), size)
                && currentBatch.count == old(currentBatch.count) + 1
                && currentBatch.bytes == old(currentBatch.bytes) + size
      ensures old(Exact() && currentBatch.count + 1 < TWO_32 && currentBatch.bytes + size < TWO_32) ==> Exact()
      ensures readyBatches == if r.Full? then old(readyBatches) + [old(currentBatch)] else old(readyBatches)
      ensures fresh(batches - old(batches))
    {
      if Exact() && currentBatch.count + 1 < TWO_32 && currentBatch.bytes + size < TWO_32 {
        AddedExact(currentBatch.count, currentBatch.bytes, size);
      }
      var newSize := Added(currentBatch.sizeBytes, size);
      var full := High(newSize) > batchMaxSize;
      var fullBytes := Low(newSize) > batchMaxSizeBytes;
      if full || fullBytes {
        Replace(size);
        return Full;
      }
      Reserve(size);
      assert KeyOk(key);
      if key in keys2Batches {
        return Exists;
      }
      Store(key, value);
      return Taken;
    }

    /**
     * The bytes carry into the number of insertions, which stays within its limit all the same, or that number wraps.
     */
    ghost predicate Unnoticed(size: nat)
      reads this, currentBatch
    {
      var count, bytes := currentBatch.count, currentBatch.bytes + size;
      if bytes >= TWO_32 then (count + 2) % TWO_32 <= batchMaxSize
      else count + 1 == TWO_32 && bytes <= batchMaxSizeBytes
    }

    /** The test on an exact counter is the test of the true totals exactly if no overflow goes unnoticed. */
    lemma FitsTrulyExactly(size: nat)
      requires Valid() && Exact() && size < TWO_32
      ensures Fits(currentBatch.sizeBytes, size)
              == (currentBatch.count + 1 <= batchMaxSize && currentBatch.bytes + size <= batchMaxSizeBytes)
              <==> !Unnoticed(size)
    {
      var count, bytes := currentBatch.count, currentBatch.bytes;
      Halves(count, bytes);
      if bytes + size < TWO_32 {
        if count + 1 < TWO_32 {
          AddedExact(count, bytes, size);
        } else {
          AddedWraps(count, bytes, size);
        }
      } else {
        AddedCarries(count, bytes, size);
      }
    }

    /** A request for which an empty batch has no room finds none in any batch, unless the bytes carry. */
    lemma NoRoom(size: nat)
      requires Valid() && size + batchMaxSizeBytes < TWO_32 && !Fits(0, size) && batchMaxSize < TWO_32 - 1
      ensures !Fits(currentBatch.sizeBytes, size)
    {
      var count, bytes := High(currentBatch.sizeBytes), Low(currentBatch.sizeBytes);
      assert currentBatch.sizeBytes == count * TWO_32 + bytes;
      AddedExact(count, bytes, size);
      AddedExact(0, 0, size);
    }

    /** Takes the request in, unless its key is held, in at most `limit` rounds. */
    method Insert(key: Id, value: Bytes, size: nat, limit: nat) returns (done: bool, inserted: bool, rounds: nat)
      requires Valid() && size < TWO_32
      modifies this`currentBatch, this`readyBatches, this`keys2Batches, this`stored, this`batches, currentBatch
      ensures Valid() && fresh(batches - old(batches))
      ensures done <==> (limit >= 1 && Fits(old(currentBatch.sizeBytes), size)) || (limit >= 2 && Fits(0, size))
      ensures inserted <==> done && key !in old(stored)
      ensures stored == if inserted then old(stored)[key := value] else old(stored)
      ensures keys2Batches == if inserted then old(keys2Batches)[key := currentBatch] else old(keys2Batches)
      ensures rounds == if !done then limit else if Fits(old(currentBatch.sizeBytes), size) then 1 else 2
      ensures |readyBatches| == |old(readyBatches)| + rounds - if done then 1 else 0
    {
      done, inserted, rounds := false, false, 0;
      while !done && rounds < limit
        invariant Valid() && fresh(batches - old(batches)) && rounds <= limit
        invariant !done ==> stored == old(stored) && keys2Batches == old(keys2Batches) && !inserted
        invariant !done ==> |readyBatches| == |old(readyBatches)| + rounds
        invariant !done && rounds == 0 ==>
                    currentBatch == old(currentBatch) && currentBatch.sizeBytes == old(currentBatch.sizeBytes)
        invariant !done && rounds > 0 ==>
                    fresh(currentBatch) && currentBatch.sizeBytes == 0 && !Fits(old(currentBatch.sizeBytes), size)
        invariant !done && rounds >= 2 ==> !Fits(0, size)
        invariant done ==>
                    && rounds == (if Fits(old(currentBatch.sizeBytes), size) then 1 else 2)
                    && (rounds == 2 ==> Fits(0, size))
        invariant done ==> (inserted <==> key !in old(stored)) && |readyBatches| == |old(readyBatches)| + rounds - 1
        invariant done ==> stored == if inserted then old(stored)[key := value] else old(stored)
        invariant done ==>
                    keys2Batches == if inserted then old(keys2Batches)[key := currentBatch] else old(keys2Batches)
      {
        rounds := rounds + 1;
        var r := InsertRound(key, value, size);
        done, inserted := !r.Full?, r.Taken?;
      }
    }

    /** Removes a request, fetched or not; says whether OnDelete is called. */
    method Remove(key: Id) returns (deleted: bool)
      requires Valid()
      modifies this`keys2Batches, this`stored, this`fetched, batches`m
      ensures Valid() && deleted == (key in old(stored)) && stored == old(stored) - {key}
      ensures keys2Batches == old(keys2Batches) - {key} && fetched == old(fetched) - {key}
    {
      assert KeyOk(key);
      if key !in keys2Batches {
        assert stored - {key} == stored && keys2Batches - {key} == keys2Batches;
        return false;
      }
      var b := keys2Batches[key];
      assert b in Open() ==> BatchOk(b) && SlotOk(b, key);
      keys2Batches := keys2Batches - {key};
      b.m := b.m - {key};
      stored, fetched := stored - {key}, fetched - {key};
      OnlyFor(key);
      return true;
    }

    /** Removes requests, in any order; `deleted` counts the calls of OnDelete. */
    method RemoveRequests(keys: seq<Id>) returns (deleted: nat)
      requires Valid()
      modifies this`keys2Batches, this`stored, this`fetched, batches`m
      ensures Valid() && deleted == |old(stored).Keys| - |stored.Keys|
      ensures stored == old(stored) - Elements(keys) && fetched == old(fetched) - Elements(keys)
    {
      deleted := 0;
      ghost var done: set<Id> := {};
      assert stored == stored - done && fetched == fetched - done;
      for i := 0 to |keys|
        invariant Valid() && deleted == |old(stored).Keys| - |stored.Keys|
        invariant stored == old(stored) - done && fetched == old(fetched) - done && done == Elements(keys[..i])
      {
        MapMinusOne(old(stored), done, keys[i]);
        SetMinusOne(old(fetched), done, keys[i]);
        OneLess(stored, keys[i]);
        ElementsNext(keys, i);
        var d := Remove(keys[i]);
        done := done + {keys[i]};
        if d {
          deleted := deleted + 1;
        }
      }
      assert keys[..|keys|] == keys;
    }

    // ---------- Taking batches out ----------

    /** A batch that leaves the store takes its requests with it, as fetched. */
    twostate lemma Closed()
      requires old(Valid()) && stored == old(stored) && keys2Batches == old(keys2Batches)
      requires Distinct(readyBatches) && currentBatch !in readyBatches && CounterOk() && Open() <= batches
      requires old(batches) <= batches
      requires !currentBatch.enqueued && forall b | b in readyBatches :: b.enqueued
      requires forall b | b in Open() :: if b in old(Open()) then b.m == old(b.m) else b.m == map[] && fresh(b)
      requires forall id ::
                 id in fetched <==>
                 id in old(fetched) || exists b :: b in old(Open()) && b !in Open() && id in old(b.m)
      ensures Valid()
    {
      forall b | b in Open() ensures BatchOk(b) {
        assert b in old(Open()) ==> old(BatchOk(b));
        forall id ensures SlotOk(b, id) {
          assert b in old(Open()) ==> old(SlotOk(b, id));
          forall c | c in old(Open()) && c !in Open() ensures id in b.m ==> id !in old(c.m) {
            assert old(BatchOk(c)) && old(SlotOk(c, id));
          }
        }
      }
      forall id ensures KeyOk(id) {
        assert old(KeyOk(id));
        forall c | c in old(Open()) && c !in Open() && id in old(c.m) ensures id in stored && keys2Batches[id] == c {
          assert old(BatchOk(c)) && old(SlotOk(c, id));
        }
      }
    }

    /** What a fetch returns: requests that are held and were not fetched before. */
    ghost predicate FreshList(list: List, before: set<Id>)
      reads this
    {
      && (forall i, j | 0 <= i < j < |list| :: list[i].0 != list[j].0)
      && (forall i | 0 <= i < |list| :: list[i].0 in stored && stored[list[i].0] == list[i].1 && list[i].0 !in before)
    }

    ghost function Keys(list: List): set<Id> { set x | x in list :: x.0 }

    /** The requests of an open batch. */
    method PrepareBatch(b: Batch) returns (list: List)
      requires Valid() && b in Open()
      ensures FreshList(list, fetched) && Keys(list) == b.m.Keys && ListsAll(list, b.m)
    {
      list := ListRequests(b.m);
      assert BatchOk(b);
      forall i | 0 <= i < |list|
        ensures list[i].0 in stored && stored[list[i].0] == list[i].1 && list[i].0 !in fetched
      {
        assert SlotOk(b, list[i].0);
      }
      forall id ensures id in Keys(list) <==> id in b.m {
        if id in b.m {
          assert (id, b.m[id]) in list;
        }
      }
    }

    method DequeueBatch() returns (list: List)
      requires Valid() && readyBatches != []
      modifies this`readyBatches, this`fetched
      ensures Valid() && FreshList(list, old(fetched)) && fetched == old(fetched) + Keys(list)
      ensures readyBatches == old(readyBatches)[1..] && ListsAll(list, old(readyBatches)[0].m)
    {
      var b := readyBatches[0];
      list := PrepareBatch(b);
      readyBatches := readyBatches[1..];
      fetched := fetched + Keys(list);
      assert b in old(Open()) && b !in Open();
      Closed();
    }

    /** Takes the current batch, full or not. */
    method TakeCurrent() returns (list: List)
      requires Valid()
      modifies this`currentBatch, this`fetched, this`batches, currentBatch`enqueued
      ensures Valid() && FreshList(list, old(fetched)) && fetched == old(fetched) + Keys(list)
      ensures currentBatch.m == map[] && fresh(currentBatch) && batches == old(batches) + {currentBatch}
      ensures ListsAll(list, old(currentBatch).m)
    {
      var b := currentBatch;
      list := PrepareBatch(b);
      b.enqueued := true;
      currentBatch := new Batch();
      batches := batches + {currentBatch};
      fetched := fetched + Keys(list);
      assert b in old(Open()) && b !in Open();
      Closed();
    }

    /**
     * The next batch, once there is one or the wait for it is over: after `skipped` full ones that were pruned to
     * nothing, the first that was not, and else the current one.
     */
    method Fetch() returns (list: List, ghost skipped: nat)
      requires Valid()
      modifies this`readyBatches, this`currentBatch, this`fetched, this`batches, currentBatch`enqueued
      ensures Valid() && fresh(batches - old(batches))
      ensures FreshList(list, old(fetched)) && fetched == old(fetched) + Keys(list)
      ensures skipped <= |old(readyBatches)| && forall j | 0 <= j < skipped :: old(readyBatches)[j].m == map[]
      ensures skipped < |old(readyBatches)| ==>
                && list != [] && ListsAll(list, old(readyBatches)[skipped].m)
                && readyBatches == old(readyBatches)[skipped + 1..] && currentBatch == old(currentBatch)
      ensures skipped == |old(readyBatches)| ==>
                && readyBatches == []
                && if old(currentBatch.sizeBytes) == 0 then list == [] && currentBatch == old(currentBatch)
                   else ListsAll(list, old(currentBatch).m) && fresh(currentBatch)
      ensures list == [] && batchMaxSize < 0xffff_fffe ==> stored.Keys == fetched
    {
      skipped := 0;
      while |readyBatches| > 0
        invariant Valid() && fetched == old(fetched) && batches == old(batches) && currentBatch == old(currentBatch)
        invariant skipped <= |old(readyBatches)| && readyBatches == old(readyBatches)[skipped..]
        invariant forall j | 0 <= j < skipped :: old(readyBatches)[j].m == map[]
        decreases |readyBatches|
      {
        list := DequeueBatch();
        if |list| > 0 {
          return;
        }
        NothingListed(list, old(readyBatches)[skipped].m);
        skipped := skipped + 1;
      }
      if currentBatch.sizeBytes == 0 {
        list := [];
        if batchMaxSize < 0xffff_fffe {
          AllFetched();
        }
        return;
      }
      list := TakeCurrent();
      if list == [] {
        AllFetched();
      }
    }

    lemma NothingListed(list: List, m: Requests)
      requires ListsAll(list, m) && list == []
      ensures m == map[]
    {
      ListsAllSize(list, m);
      assert m.Keys == {};
    }

    lemma AllFetched()
      requires Valid() && readyBatches == [] && currentBatch.m == map[]
      ensures stored.Keys == fetched
    {
      forall id ensures id in stored <==> id in fetched { assert KeyOk(id); }
    }

    // ---------- All open batches ----------

    /** The list has every request of these batches, once. */
    ghost predicate ListsOf(list: List, bs: seq<Batch>)
      reads this
    {
      && FreshList(list, fetched)
      && (forall i | 0 <= i < |list| :: list[i].0 in keys2Batches && keys2Batches[list[i].0] in bs)
      && (forall id | id in stored && id !in fetched && id in keys2Batches && keys2Batches[id] in bs ::
            (id, stored[id]) in list)
    }

    lemma ListsMore(list: List, bs: seq<Batch>, b: Batch, part: List)
      requires Valid() && b in Open() && ListsOf(list, bs) && b !in bs && ListsAll(part, b.m)
      ensures ListsOf(list + part, bs + [b])
    {
      assert BatchOk(b);
      forall i | 0 <= i < |part|
        ensures part[i].0 in stored && stored[part[i].0] == part[i].1 && part[i].0 !in fetched
        ensures part[i].0 in keys2Batches && keys2Batches[part[i].0] == b
      {
        assert SlotOk(b, part[i].0);
      }
      forall id | id in stored && id !in fetched && id in keys2Batches && keys2Batches[id] in bs + [b]
        ensures (id, stored[id]) in list + part
      {
        assert KeyOk(id) && SlotOk(b, id);
        if keys2Batches[id] == b {
          assert (id, b.m[id]) in part;
        }
      }
    }

    /** All requests that were not fetched, batch by batch. */
    method ForEach() returns (list: List)
      requires Valid()
      ensures ListsAll(list, stored - fetched)
    {
      list := [];
      for i := 0 to |readyBatches|
        invariant ListsOf(list, readyBatches[..i])
      {
        var part := ListRequests(readyBatches[i].m);
        assert readyBatches[..i + 1] == readyBatches[..i] + [readyBatches[i]];
        ListsMore(list, readyBatches[..i], readyBatches[i], part);
        list := list + part;
      }
      assert readyBatches[..|readyBatches|] == readyBatches;
      var part := ListRequests(currentBatch.m);
      ListsMore(list, readyBatches, currentBatch, part);
      list := list + part;
      forall id | id in stored - fetched ensures (id, stored[id]) in list { assert KeyOk(id); }
    }

    /** The keys of the entries that fail the test. */
    method Failing(list: List, ghost m: Requests, keep: Bytes -> bool) returns (keys: seq<Id>)
      requires ListsAll(list, m)
      ensures forall id :: id in keys <==> id in m && !keep(m[id])
    {
      keys := [];
      for i := 0 to |list|
        invariant forall k | 0 <= k < |keys| :: keys[k] in m && !keep(m[keys[k]])
        invariant forall j | 0 <= j < i && !keep(list[j].1) :: list[j].0 in keys
      {
        if !keep(list[i].1) {
          assert (keys + [list[i].0])[|keys|] == list[i].0;
          keys := keys + [list[i].0];
        }
      }
      forall id | id in m && !keep(m[id]) ensures id in keys {
        assert (id, m[id]) in list;
      }
    }

    /**
     * Removes the requests that fail the test, apart from those that were fetched.  The lock is held, so visiting
     * all requests and removing on the way is the same as listing the failing ones first.
     */
    method Prune(keep: Bytes -> bool) returns (deleted: nat)
      requires Valid()
      modifies this`keys2Batches, this`stored, this`fetched, batches`m
      ensures Valid() && deleted == |old(stored).Keys| - |stored.Keys| && fetched == old(fetched)
      ensures forall id :: id in stored <==> id in old(stored) && (id in fetched || keep(old(stored)[id]))
      ensures forall id | id in stored :: stored[id] == old(stored)[id]
    {
      var list := ForEach();
      var keys := Failing(list, stored - fetched, keep);
      deleted := RemoveRequests(keys);
      assert fetched == old(fetched);
    }
  }

  /** Two requests, the second as large as a batch may be, of which a new store takes both in one batch. */
  method BeyondLimit(id: Id, request: Bytes, id': Id, request': Bytes)
    returns (store: BatchStore, first: RoundResult, second: RoundResult)
    requires id != id' && |request| == 1 && |request'| == TWO_32 - 1
    ensures store.batchMaxSize == 10 && store.batchMaxSizeBytes == TWO_32 - 1 && first == second == Taken
    ensures store.stored == map[id := request, id' := request']
    ensures store.keys2Batches == map[id := store.currentBatch, id' := store.currentBatch]
    ensures store.currentBatch.bytes == |request| + |request'| > store.batchMaxSizeBytes
  {
    store := new BatchStore(10, TWO_32 - 1);
    assert store.keys2Batches == map[] by { forall x ensures x !in store.keys2Batches { assert store.KeyOk(x); } }
    Halves(0, 0);
    AddedExact(0, 0, 1);
    first := store.InsertRound(id, request, |request|);
    AddedCarries(1, 1, TWO_32 - 1);
    second := store.InsertRound(id', request', |request'|);
  }
}
