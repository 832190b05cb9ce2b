/**
 * The pending store, which keeps the requests of a secondary batcher in buckets by time of arrival.
 * This is what the calls do one at a time; PendingProtocol has their interleavings.
 */
module Pending {
  import opened Wrappers
  import opened Finite
  import opened Listing
  import Epochs

  datatype InsertResult = Inserted | AlreadyInserted | Sealed

  /** The shared map from request ids to buckets; a bucket with id 0 is a tombstone. */
  class ReqIndex {
    var m: map<Id, Bucket>

    constructor ()
      ensures m == map[]
    {
      m := map[];
    }
  }

  /** Requests that arrived together.  The zero time is None. */
  class Bucket {
    const id: nat
    const processedTimestamp: int
    var size: nat
    var lastTimestamp: Option<int>
    var firstStrikeTimestamp: Option<int>
    var requests: map<Id, Bytes>

    ghost predicate Valid()
      reads this
    {
      size == |requests.Keys|
    }

    constructor (id: nat, processedTimestamp: int)
      ensures this.id == id && this.processedTimestamp == processedTimestamp && Valid()
      ensures size == 0 && requests == map[] && lastTimestamp == None && firstStrikeTimestamp == None
    {
      this.id, this.processedTimestamp := id, processedTimestamp;
      size, requests, lastTimestamp, firstStrikeTimestamp := 0, map[], None, None;
    }

    /**
     * Stores the payload, then publishes the id.  An id that is known, or whose payload is here already, is refused;
     * the rollback for an id published by someone else in between is not reached here.
     */
    method TryInsert(index: ReqIndex, reqId: Id, request: Bytes) returns (r: InsertResult)
      requires Valid()
      modifies this`size, this`requests, index
      ensures Valid()
      ensures r == if lastTimestamp.Some? then Sealed
                   else if reqId in old(index.m) || reqId in old(requests) then AlreadyInserted else Inserted
      ensures if r.Inserted? then requests == old(requests)[reqId := request] && index.m == old(index.m)[reqId := this]
              else unchanged(this) && unchanged(index)
    {
      if lastTimestamp.Some? {
        return Sealed;
      }
      if reqId in index.m {
        return AlreadyInserted;
      }
      if reqId in requests {
        return AlreadyInserted;
      }
      assert requests[reqId := request].Keys == requests.Keys + {reqId};
      requests := requests[reqId := request];
      size := size + 1;
      index.m := index.m[reqId := this];
      return Inserted;
    }

    method Delete(reqId: Id) returns (existed: bool)
      requires Valid()
      modifies this`size, this`requests
      ensures Valid() && existed == (reqId in old(requests)) && requests == old(requests) - {reqId}
    {
      existed := reqId in requests;
      if existed {
        assert (requests - {reqId}).Keys == requests.Keys - {reqId};
        requests := requests - {reqId};
        size := size - 1;
      } else {
        assert requests - {reqId} == requests;
      }
    }

    /** The clock of this bucket starts at this time, and no strike is pending. */
    predicate Restarted(now: int)
      reads this
    {
      lastTimestamp == Some(now) && firstStrikeTimestamp == None
    }

    ghost function View(): Epochs.Bucket
      reads this
    {
      Epochs.Bucket(id, requests.Keys, lastTimestamp, firstStrikeTimestamp)
    }
  }

  ghost function Views(bs: seq<Bucket>): seq<Epochs.Bucket>
    reads bs
  {
    seq(|bs|, i requires 0 <= i < |bs| reads bs => bs[i].View())
  }

  lemma ViewsMore(bs: seq<Bucket>, b: Bucket)
    ensures Views(bs + [b]) == Views(bs) + [b.View()]
  {
  }

  lemma DropEmptyMore(bs: seq<Bucket>, b: Bucket)
    ensures Epochs.DropEmpty(Views(bs + [b]))
            == Epochs.DropEmpty(Views(bs)) + if b.requests == map[] then [] else [b.View()]
  {
    ViewsMore(bs, b);
    assert Views(bs + [b])[..|bs|] == Views(bs);
    assert b.requests.Keys == {} <==> b.requests == map[];
  }

  ghost predicate Keeps(bs: seq<Bucket>, kept: seq<Bucket>)
    reads bs, kept
  {
    && Views(kept) == Epochs.DropEmpty(Views(bs))
    && (forall b | b in kept :: b in bs) && (forall b | b in bs && b !in kept :: b.requests == map[])
  }

  lemma KeepsMore(bs: seq<Bucket>, kept: seq<Bucket>, b: Bucket)
    requires Keeps(bs, kept)
    ensures Keeps(bs + [b], if b.requests == map[] then kept else kept + [b])
  {
    DropEmptyMore(bs, b);
    ViewsMore(kept, b);
  }

  lemma StillAscending(bs: seq<Bucket>, i: nat, kept: seq<Bucket>)
    requires i < |bs| && (forall b | b in kept :: b in bs[..i])
    ensures Ascending(bs) && Ascending(kept) ==> Ascending(kept + [bs[i]])
  {
    forall b | b in kept ensures Ascending(bs) ==> b.id < bs[i].id {
      var j :| 0 <= j < i && bs[..i][j] == b;
    }
  }

  // ---------- The loops of changeEpochs ----------

  /** garbageCollectEmptyBuckets */
  method KeepNonEmpty(bs: seq<Bucket>) returns (kept: seq<Bucket>)
    requires forall b | b in bs :: b.Valid()
    ensures Views(kept) == Epochs.DropEmpty(Views(bs))
    ensures forall b | b in kept :: b in bs
    ensures forall b | b in bs && b !in kept :: b.requests == map[]
    ensures Ascending(bs) ==> Ascending(kept)
  {
    kept := [];
    for i := 0 to |bs|
      invariant Keeps(bs[..i], kept) && (Ascending(bs) ==> Ascending(kept))
    {
      assert bs[..i + 1] == bs[..i] + [bs[i]];
      assert bs[i].Valid() && (bs[i].requests.Keys == {} <==> bs[i].requests == map[]);
      KeepsMore(bs[..i], kept, bs[i]);
      if bs[i].size > 0 {
        StillAscending(bs, i, kept);
        kept := kept + [bs[i]];
      }
    }
    assert bs[..|bs|] == bs;
  }

  /** checkFirstStrike; the callbacks run for the buckets returned. */
  method CheckFirstStrike(c: Epochs.Config, bs: seq<Bucket>, now: int) returns (struck: seq<Bucket>)
    requires Distinct(bs) && forall b | b in bs :: b.lastTimestamp.Some?
    modifies bs`firstStrikeTimestamp
    ensures Views(bs) == Epochs.StrikeFirst(c, old(Views(bs)), now)
    ensures forall b | b in bs :: b in struck <==> old(b.firstStrikeTimestamp) != b.firstStrikeTimestamp
  {
    struck := [];
    for i := 0 to |bs|
      invariant forall j | 0 <= j < i :: Views(bs)[j] == Epochs.StrikeFirst(c, old(Views(bs)), now)[j]
      invariant forall j | i <= j < |bs| :: bs[j].View() == old(bs[j].View())
      invariant forall j | 0 <= j < |bs| ::
                  bs[j] in struck <==> old(bs[j].firstStrikeTimestamp) != bs[j].firstStrikeTimestamp
    {
      if bs[i].firstStrikeTimestamp.None? && now - bs[i].lastTimestamp.value > c.firstStrike {
        bs[i].firstStrikeTimestamp := Some(now);
        struck := struck + [bs[i]];
      }
    }
  }

  /** checkSecondStrike */
  method CheckSecondStrike(c: Epochs.Config, bs: seq<Bucket>, now: int) returns (second: bool)
    requires Distinct(bs)
    modifies bs`firstStrikeTimestamp, bs`lastTimestamp
    ensures (Views(bs), second) == Epochs.StrikeSecond(c, old(Views(bs)), now)
    ensures forall b | b in bs :: old(b.lastTimestamp).Some? ==> b.lastTimestamp.Some?
  {
    ghost var before := Views(bs);
    ghost var k := Epochs.SecondStruck(c, before, now, 0);
    for i := 0 to |bs|
      invariant Views(bs) == before && i <= k
      invariant forall b | b in bs :: b.lastTimestamp == old(b.lastTimestamp)
    {
      assert before[i] == bs[i].View();
      if bs[i].firstStrikeTimestamp.Some? && now - bs[i].firstStrikeTimestamp.value > c.secondStrike {
        bs[i].lastTimestamp := Some(now);
        bs[i].firstStrikeTimestamp := None;
        assert Views(bs) == before[i := before[i].(sealedAt := Some(now), struckAt := None)];
        return true;
      }
    }
    return false;
  }

  /** The loop of ResetTimestamps */
  method RestartAll(bs: seq<Bucket>, now: int)
    requires Distinct(bs)
    modifies bs`lastTimestamp, bs`firstStrikeTimestamp
    ensures forall b | b in bs :: b.View() == Epochs.Bucket(b.id, old(b.View()).ids, Some(now), None)
  {
    for i := 0 to |bs|
      invariant forall j | 0 <= j < i :: bs[j].View() == Epochs.Bucket(bs[j].id, old(bs[j].View()).ids, Some(now), None)
      invariant forall j | i <= j < |bs| :: bs[j].View() == old(bs[j].View())
    {
      bs[i].lastTimestamp := Some(now);
      bs[i].firstStrikeTimestamp := None;
    }
  }

  // ---------- The store ----------

  /** Buckets are numbered as they are made. */
  ghost predicate Ascending(bs: seq<Bucket>) {
    forall i, j | 0 <= i < j < |bs| :: bs[i].id < bs[j].id
  }

  ghost function RequestsOf(bs: seq<Bucket>): seq<Requests>
    reads bs
  {
    seq(|bs|, i requires 0 <= i < |bs| reads bs => bs[i].requests)
  }

  /** The ids for which a tombstone is left, one id after the other: those not held by then. */
  ghost function Left(m: Requests, ids: seq<Id>): set<Id> {
    set id | id in ids && (id !in m || multiset(ids)[id] > 1)
  }

  lemma LeftNext(m: Requests, ids: seq<Id>, i: nat)
    requires i < |ids|
    ensures Left(m, ids[..i + 1]) == Left(m, ids[..i]) + if ids[i] in m - Elements(ids[..i]) then {} else {ids[i]}
  {
    assert ids[..i + 1] == ids[..i] + [ids[i]];
    assert ids[i] in ids[..i] <==> multiset(ids[..i])[ids[i]] > 0;
  }

  type Known = map<Id, Bucket>

  /** What is held and known after removing the ids one by one. */
  ghost function Without(held: Requests, known: Known, ids: seq<Id>, tombstone: Bucket): (Requests, Known) {
    if ids == [] then (held, known)
    else
      var n := |ids| - 1;
      var (h, k) := Without(held, known, ids[..n], tombstone);
      (h - {ids[n]}, if ids[n] in h then k - {ids[n]} else k[ids[n] := tombstone])
  }

  lemma WithoutNext(held: Requests, known: Known, ids: seq<Id>, i: nat, tombstone: Bucket)
    requires i < |ids|
    ensures var (h, k) := Without(held, known, ids[..i], tombstone);
            && Without(held, known, ids[..i + 1], tombstone)
               == (h - {ids[i]}, if ids[i] in h then k - {ids[i]} else k[ids[i] := tombstone])
            && |(h - {ids[i]}).Keys| == |h.Keys| - if ids[i] in h then 1 else 0
  {
    var (h, k) := Without(held, known, ids[..i], tombstone);
    assert ids[..i + 1][..i] == ids[..i];
    assert (h - {ids[i]}).Keys == h.Keys - {ids[i]};
  }

  lemma {:induction false} HeldWithout(held: Requests, known: Known, ids: seq<Id>, tombstone: Bucket)
    ensures Without(held, known, ids, tombstone).0 == held - Elements(ids)
  {
    if ids != [] {
      var n := |ids| - 1;
      HeldWithout(held, known, ids[..n], tombstone);
      ElementsNext(ids, n);
      assert ids[..n + 1] == ids;
    }
  }

  /** What is known of an id afterwards: a tombstone if it was not held by then, what it was if it is not removed. */
  ghost predicate KnownAfter(held: Requests, known: Known, ids: seq<Id>, tombstone: Bucket, still: Known, id: Id) {
    && (id in still <==> id in Left(held, ids) || (id in known && id !in ids))
    && (id in still ==> if id in ids then still[id] == tombstone else still[id] == known[id])
  }

  lemma {:induction false} KnownWithout(held: Requests, known: Known, ids: seq<Id>, tombstone: Bucket, id: Id)
    ensures KnownAfter(held, known, ids, tombstone, Without(held, known, ids, tombstone).1, id)
  {
    if ids != [] {
      var n := |ids| - 1;
      KnownWithout(held, known, ids[..n], tombstone, id);
      HeldWithout(held, known, ids[..n], tombstone);
      LeftNext(held, ids, n);
      assert ids[..n + 1] == ids == ids[..n] + [ids[n]];
    }
  }

  class PendingStore {
    const config: Epochs.Config
    const reqIdGcInterval: int
    const reqIdLifetime: int
    const index: ReqIndex
    var buckets: seq<Bucket>
    var currentBucket: Bucket
    var lastTick: int
    var lastEpochChange: int
    var lastProcessedGc: int
    var stopped: bool
    var closed: bool
    /** The requests held, the order in which they arrived, and how many have arrived so far. */
    ghost var stored: Requests
    ghost var arrival: Arrivals
    ghost var arrivals: nat

    ghost function All(): set<Bucket>
      reads this
    {
      (set b | b in buckets) + {currentBucket}
    }

    /** A payload in a bucket is held, and the id leads to this bucket. */
    ghost predicate PayloadOk(b: Bucket, id: Id)
      reads this, index, b
    {
      id in b.requests ==> id in stored && id in index.m && index.m[id] == b && b.requests[id] == stored[id]
    }

    ghost predicate BucketOk(b: Bucket)
      reads this, index, b
    {
      b.id > 0 && b.Valid() && forall id {:trigger PayloadOk(b, id)} :: PayloadOk(b, id)
    }

    /** An id that is held leads to a bucket with its payload; any other id to a tombstone, or nowhere. */
    ghost predicate IdOk(id: Id)
      reads this, index, All()
    {
      && (id in stored ==> id in index.m && index.m[id].id > 0 && index.m[id] in All() && id in index.m[id].requests)
      && (id in index.m && id !in stored ==> index.m[id].id == 0)
    }

    ghost predicate Timestamps()
      reads this, All()
    {
      && currentBucket.lastTimestamp.None? && currentBucket.firstStrikeTimestamp.None?
      && forall b | b in buckets :: b.lastTimestamp.Some?
    }

    /** Of two requests, the one in the older bucket arrived earlier. */
    ghost predicate Ordered(x: Id, y: Id)
      reads this, index
    {
      x in stored && y in stored && x != y && x in index.m && y in index.m && x in arrival && y in arrival ==>
        arrival[x] != arrival[y] && (index.m[x].id < index.m[y].id ==> arrival[x] < arrival[y])
    }

    ghost predicate Timed(id: Id)
      reads this, index
    {
      id in stored ==> id in arrival && arrival[id] < arrivals && id in index.m && index.m[id].id <= currentBucket.id
    }

    ghost predicate Chronology()
      reads this, index
    {
      && Ascending(buckets) && (forall b | b in buckets :: b.id < currentBucket.id)
      && (forall id {:trigger Timed(id)} :: Timed(id))
      && (forall x, y {:trigger Ordered(x, y)} :: Ordered(x, y))
    }

    ghost predicate Valid()
      reads this, index, All()
    {
      && Chronology() && Timestamps()
      && (forall b {:trigger BucketOk(b)} | b in All() :: BucketOk(b))
      && (forall id {:trigger IdOk(id)} :: IdOk(id))
    }

    twostate predicate SameKey(reqId: Id, id: Id)
      reads this, index
    {
      id != reqId ==>
        && (id in index.m <==> id in old(index.m)) && (id in index.m ==> index.m[id] == old(index.m[id]))
        && (id in stored <==> id in old(stored)) && (id in stored ==> stored[id] == old(stored[id]))
    }

    twostate predicate SamePayload(b: Bucket, reqId: Id, id: Id)
      reads b
    {
      id != reqId ==>
        && (id in b.requests <==> id in old(b.requests))
        && (id in b.requests ==> b.requests[id] == old(b.requests[id]))
    }

    /** The bucket that a change for this id is about. */
    ghost function Target(reqId: Id): Bucket
      reads this, index
    {
      if reqId in stored && reqId in index.m then index.m[reqId] else currentBucket
    }

    /** A change that concerns one id and its bucket only has to be right there. */
    twostate lemma OnlyFor(reqId: Id)
      requires old(Valid()) && buckets == old(buckets) && currentBucket == old(currentBucket) && Timestamps()
      requires if reqId in stored
               then && reqId !in old(stored) && reqId in index.m && index.m[reqId] == currentBucket
                    && arrival == old(arrival)[reqId := old(arrivals)] && arrivals == old(arrivals) + 1
               else arrival == old(arrival) && arrivals == old(arrivals)
      requires forall b | b in old(All()) && b != old(Target(reqId)) ::
                 b.requests == old(b.requests) && b.size == old(b.size)
      requires forall id {:trigger SameKey(reqId, id)} :: SameKey(reqId, id)
      requires forall id {:trigger SamePayload(old(Target(reqId)), reqId, id)} ::
                 SamePayload(old(Target(reqId)), reqId, id)
      requires IdOk(reqId) && old(Target(reqId)).Valid() && PayloadOk(old(Target(reqId)), reqId)
      ensures Valid()
    {
      var c := old(Target(reqId));
      forall id ensures Timed(id) { assert old(Timed(id)) && SameKey(reqId, id); }
      forall x, y ensures Ordered(x, y) {
        assert old(Ordered(x, y)) && old(Timed(x)) && old(Timed(y)) && SameKey(reqId, x) && SameKey(reqId, y);
      }
      forall id ensures IdOk(id) { assert old(IdOk(id)) && SameKey(reqId, id) && SamePayload(c, reqId, id); }
      forall b | b in All() ensures BucketOk(b) {
        assert old(BucketOk(b)) && old(IdOk(reqId));
        forall id ensures PayloadOk(b, id) {
          assert old(PayloadOk(b, id)) && SameKey(reqId, id) && SamePayload(c, reqId, id);
        }
      }
    }

    ghost function View(): Epochs.Store
      reads this, All()
    {
      Epochs.Store(Views(buckets), currentBucket.View(), lastTick, lastEpochChange)
    }

    /** No bucket is sealed, and the clocks start at this time. */
    predicate Starts(now: int)
      reads this
    {
      buckets == [] && lastTick == lastEpochChange == now
    }

    constructor (config: Epochs.Config, reqIdGcInterval: int, reqIdLifetime: int, startTime: int)
      ensures Valid() && stored == map[] && index.m == map[] && !stopped && !closed && fresh(index) && fresh(All())
      ensures View() == Epochs.Store([], Epochs.NewBucket(1), startTime, startTime)
    {
      this.config, this.reqIdGcInterval, this.reqIdLifetime := config, reqIdGcInterval, reqIdLifetime;
      index := new ReqIndex();
      currentBucket := new Bucket(1, 0);
      buckets, stored, arrival, arrivals := [], map[], map[], 0;
      lastTick, lastEpochChange, lastProcessedGc, stopped, closed := startTime, startTime, startTime, false, false;
    }

    /** A request of an unknown id enters the current bucket, and the index. */
    twostate lemma Arrived(reqId: Id)
      requires old(Valid()) && reqId !in old(index.m) && reqId !in old(stored) && currentBucket.Valid() && Timestamps()
      requires buckets == old(buckets) && currentBucket == old(currentBucket)
      requires forall b | b in old(All()) && b != currentBucket ::
                 b.requests == old(b.requests) && b.size == old(b.size)
      requires index.m == old(index.m)[reqId := currentBucket] && currentBucket.id > 0 && reqId in stored
      requires stored == old(stored)[reqId := stored[reqId]]
      requires currentBucket.requests == old(currentBucket.requests)[reqId := stored[reqId]]
      requires arrival == old(arrival)[reqId := old(arrivals)] && arrivals == old(arrivals) + 1
      ensures Valid()
    {
      OnlyFor(reqId);
    }

    /** Takes the request in, unless its id is known: held, or removed not long ago. */
    method Submit(reqId: Id, request: Bytes) returns (ok: bool)
      requires Valid()
      modifies index, currentBucket`size, currentBucket`requests, this`stored, this`arrival, this`arrivals
      ensures Valid() && (ok <==> !closed && reqId !in old(index.m))
      ensures stored == if ok then old(stored)[reqId := request] else old(stored)
      ensures reqId in old(stored) ==> !ok
      ensures index.m == if ok then old(index.m)[reqId := currentBucket] else old(index.m)
      ensures index.m.Keys == if ok then old(index.m).Keys + {reqId} else old(index.m).Keys
      ensures if ok then arrival == old(arrival)[reqId := old(arrivals)] && arrivals == old(arrivals) + 1
              else arrival == old(arrival) && arrivals == old(arrivals)
    {
      assert IdOk(reqId);
      if closed {
        return false;
      }
      assert BucketOk(currentBucket) && PayloadOk(currentBucket, reqId);
      var r := currentBucket.TryInsert(index, reqId, request);
      ok := r.Inserted?;
      if ok {
        stored, arrival, arrivals := stored[reqId := request], arrival[reqId := arrivals], arrivals + 1;
        Arrived(reqId);
      } else {
        Untouched();
      }
    }

    /** A held request leaves its bucket, and the index. */
    twostate lemma Departed(reqId: Id)
      requires old(Valid()) && reqId in old(stored) && old(Target(reqId)).Valid() && Timestamps()
      requires buckets == old(buckets) && currentBucket == old(currentBucket)
      requires forall b | b in old(All()) && b != old(Target(reqId)) ::
                 b.requests == old(b.requests) && b.size == old(b.size)
      requires index.m == old(index.m) - {reqId} && stored == old(stored) - {reqId}
      requires old(Target(reqId)).requests == old(Target(reqId).requests) - {reqId}
      requires arrival == old(arrival) && arrivals == old(arrivals)
      ensures Valid()
    {
      assert old(IdOk(reqId));
      forall id ensures SameKey(reqId, id) {}
      forall id ensures SamePayload(old(Target(reqId)), reqId, id) {}
      OnlyFor(reqId);
    }

    /** Erases a held request: its payload and its id. */
    method Erase(reqId: Id)
      requires Valid() && reqId in stored
      modifies index, All()`size, All()`requests, this`stored
      ensures Valid() && stored == old(stored) - {reqId} && index.m == old(index.m) - {reqId}
    {
      assert IdOk(reqId);
      var b := index.m[reqId];
      assert BucketOk(b);
      index.m := index.m - {reqId};
      var _ := b.Delete(reqId);
      stored := stored - {reqId};
      Departed(reqId);
    }

    method Tombstone(reqId: Id, tombstone: Bucket)
      requires Valid() && reqId !in stored && tombstone.id == 0
      modifies index
      ensures Valid() && index.m == old(index.m)[reqId := tombstone]
    {
      index.m := index.m[reqId := tombstone];
      assert old(BucketOk(currentBucket)) && old(PayloadOk(currentBucket, reqId));
      OnlyFor(reqId);
    }

    /** Deletes a request that is held, and forgets its id; the id of one that is not held is tombstoned. */
    method RemoveRequest(reqId: Id, tombstone: Bucket) returns (deleted: bool)
      requires Valid() && tombstone.id == 0
      modifies index, All()`size, All()`requests, this`stored
      ensures Valid() && deleted == (reqId in old(stored)) && stored == old(stored) - {reqId}
      ensures index.m == if deleted then old(index.m) - {reqId} else old(index.m)[reqId := tombstone]
    {
      assert IdOk(reqId);
      deleted := reqId in index.m && index.m[reqId].id != 0;
      if deleted {
        Erase(reqId);
      } else {
        Tombstone(reqId, tombstone);
        assert stored - {reqId} == stored;
      }
    }

    method RemoveEach(reqIds: seq<Id>, tombstone: Bucket) returns (deleted: nat)
      requires Valid() && tombstone.id == 0
      modifies index, All()`size, All()`requests, this`stored
      ensures Valid() && deleted == |old(stored).Keys| - |stored.Keys|
      ensures (stored, index.m) == Without(old(stored), old(index.m), reqIds, tombstone)
    {
      deleted := 0;
      for i := 0 to |reqIds|
        invariant Valid() && deleted == |old(stored).Keys| - |stored.Keys|
        invariant (stored, index.m) == Without(old(stored), old(index.m), reqIds[..i], tombstone)
      {
        WithoutNext(old(stored), old(index.m), reqIds, i, tombstone);
        var d := RemoveRequest(reqIds[i], tombstone);
        if d {
          deleted := deleted + 1;
        }
      }
      assert reqIds[..|reqIds|] == reqIds;
    }

    /** Removes requests, and leaves tombstones of now; `deleted` counts the calls of OnDelete. */
    method RemoveRequests(reqIds: seq<Id>) returns (deleted: nat, ghost tombstone: Bucket)
      requires Valid()
      modifies index, All()`size, All()`requests, this`stored
      ensures Valid() && deleted == |old(stored).Keys| - |stored.Keys|
      ensures closed ==> stored == old(stored) && index.m == old(index.m)
      ensures !closed ==> stored == old(stored) - Elements(reqIds)
      ensures !closed ==> tombstone.id == 0 && tombstone.processedTimestamp == lastTick
      ensures !closed ==> forall id :: KnownAfter(old(stored), old(index.m), reqIds, tombstone, index.m, id)
    {
      deleted, tombstone := 0, currentBucket;
      if closed {
        return;
      }
      var processed := new Bucket(0, lastTick);
      tombstone := processed;
      deleted := RemoveEach(reqIds, processed);
      HeldWithout(old(stored), old(index.m), reqIds, tombstone);
      forall id ensures KnownAfter(old(stored), old(index.m), reqIds, tombstone, index.m, id) {
        KnownWithout(old(stored), old(index.m), reqIds, tombstone, id);
      }
    }

    /** Erases the request of this id, if it is held and fails the test; a tombstone has no payload. */
    method PruneOne(reqId: Id, keep: Bytes -> bool) returns (deleted: bool)
      requires Valid()
      modifies index, All()`size, All()`requests, this`stored
      ensures Valid() && (deleted <==> reqId in old(stored) && !keep(old(stored)[reqId]))
      ensures stored == if deleted then old(stored) - {reqId} else old(stored)
      ensures index.m == if deleted then old(index.m) - {reqId} else old(index.m)
      ensures deleted ==> |stored.Keys| == |old(stored).Keys| - 1
    {
      assert IdOk(reqId);
      deleted := false;
      if reqId in index.m && index.m[reqId].id != 0 {
        assert BucketOk(index.m[reqId]) && PayloadOk(index.m[reqId], reqId);
        if !keep(index.m[reqId].requests[reqId]) {
          Erase(reqId);
          assert stored.Keys == old(stored).Keys - {reqId};
          deleted := true;
        }
      }
    }

    /** Exactly these ids have requests that fail the test. */
    ghost predicate Failing(m: Requests, keep: Bytes -> bool, ids: set<Id>) {
      forall id :: id in ids <==> id in m && !keep(m[id])
    }

    /** These ids fail the test, and all others that do are still to be visited. */
    ghost predicate Failed(m: Requests, keep: Bytes -> bool, gone: set<Id>, todo: set<Id>) {
      && (forall id | id in gone :: id in m && !keep(m[id]))
      && (forall id | id in m && !keep(m[id]) :: id in gone || id in todo)
    }

    lemma FailedNext(m: Requests, keep: Bytes -> bool, gone: set<Id>, todo: set<Id>, id: Id, d: bool)
      requires Failed(m, keep, gone, todo) && (d <==> id in m - gone && !keep((m - gone)[id]))
      ensures Failed(m, keep, if d then gone + {id} else gone, todo - {id})
    {
    }

    method PruneEach(keep: Bytes -> bool) returns (deleted: nat, ghost gone: set<Id>)
      requires Valid()
      modifies index, All()`size, All()`requests, this`stored
      ensures Valid() && deleted == |old(stored).Keys| - |stored.Keys|
      ensures stored == old(stored) - gone && index.m == old(index.m) - gone && Failing(old(stored), keep, gone)
    {
      deleted, gone := 0, {};
      var todo := index.m.Keys;
      forall id | id in stored ensures id in todo { assert IdOk(id); }
      assert stored == stored - gone && index.m == index.m - gone;
      while todo != {}
        invariant Valid() && deleted == |old(stored).Keys| - |stored.Keys|
        invariant stored == old(stored) - gone && index.m == old(index.m) - gone
        invariant Failed(old(stored), keep, gone, todo)
        decreases todo
      {
        var id :| id in todo;
        var d := PruneOne(id, keep);
        FailedNext(old(stored), keep, gone, todo, id, d);
        todo := todo - {id};
        if d {
          MapMinusOne(old(stored), gone, id);
          MapMinusOne(old(index.m), gone, id);
          gone := gone + {id};
          deleted := deleted + 1;
        }
      }
    }

    /** Erases the requests that fail the test, visiting the ids in any order. */
    method Prune(keep: Bytes -> bool) returns (deleted: nat)
      requires Valid()
      modifies index, All()`size, All()`requests, this`stored
      ensures Valid() && deleted == |old(stored).Keys| - |stored.Keys|
      ensures forall id :: id in stored <==> id in old(stored) && keep(old(stored)[id])
      ensures forall id | id in stored :: stored[id] == old(stored)[id]
      ensures forall id :: id in index.m <==> id in old(index.m) && (id in old(stored) ==> id in stored)
    {
      ghost var gone;
      deleted, gone := PruneEach(keep);
    }

    /** A tombstone that has outlived its time. */
    predicate Expired(b: Bucket, now: int) { b.id == 0 && now - b.processedTimestamp > reqIdLifetime }

    /** If it is due, exactly the tombstones that have outlived their time are forgotten. */
    twostate predicate Collected(due: bool, now: int)
      reads this, index
    {
      && (forall id :: id in index.m <==> id in old(index.m) && !(due && Expired(old(index.m)[id], now)))
      && (forall id | id in index.m :: index.m[id] == old(index.m)[id])
    }

    /** Forgets the tombstones that have outlived their time, and nothing else. */
    method GarbageCollectProcessed(now: int)
      requires Valid()
      modifies index
      ensures Valid() && Collected(true, now)
    {
      var todo := index.m.Keys;
      while todo != {}
        invariant Valid() && todo <= old(index.m).Keys
        invariant forall id :: id in index.m <==> id in old(index.m) && (id in todo || !Expired(old(index.m)[id], now))
        invariant forall id | id in index.m :: index.m[id] == old(index.m)[id]
        decreases todo
      {
        var id :| id in todo;
        todo := todo - {id};
        if Expired(index.m[id], now) {
          DropTombstone(id);
        }
      }
    }

    method DropTombstone(reqId: Id)
      requires Valid() && reqId in index.m && index.m[reqId].id == 0
      modifies index
      ensures Valid() && index.m == old(index.m) - {reqId} && reqId !in stored
    {
      assert IdOk(reqId);
      index.m := index.m - {reqId};
      assert old(BucketOk(currentBucket)) && old(PayloadOk(currentBucket, reqId));
      OnlyFor(reqId);
    }

    // ---------- Epochs ----------

    /** Requests stay where they are; buckets may come and go when they are empty. */
    twostate lemma Regrouped()
      requires old(Valid()) && stored == old(stored) && index.m == old(index.m)
      requires Timestamps() && Ascending(buckets) && (forall b | b in buckets :: b.id < currentBucket.id)
      requires old(currentBucket.id) <= currentBucket.id && arrival == old(arrival) && arrivals == old(arrivals)
      requires forall b | b in All() :: if b in old(All()) then b.requests == old(b.requests) && b.size == old(b.size)
                                         else b.id > 0 && b.requests == map[] && b.size == 0
      requires forall b | b in old(All()) && b !in All() :: old(b.requests) == map[]
      ensures Valid()
    {
      forall b | b in All() ensures BucketOk(b) {
        assert b in old(All()) ==> old(BucketOk(b));
        forall id ensures PayloadOk(b, id) { assert b in old(All()) ==> old(PayloadOk(b, id)); }
      }
      forall id ensures IdOk(id) && Timed(id) { assert old(IdOk(id)) && old(Timed(id)); }
      forall x, y ensures Ordered(x, y) { assert old(Ordered(x, y)); }
    }

    /** What happens elsewhere makes no difference. */
    twostate lemma Untouched()
      requires old(Valid()) && unchanged(this) && unchanged(index) && forall b | b in old(All()) :: unchanged(b)
      ensures Valid() && All() == old(All())
    {
      Regrouped();
    }

    /** Seals the current bucket, if it holds a request. */
    method RotateBuckets(now: int)
      requires Valid()
      modifies this`buckets, this`currentBucket, currentBucket`lastTimestamp
      ensures Valid() && View() == Epochs.Rotate(old(View()), now) && fresh(All() - old(All()))
    {
      assert BucketOk(currentBucket);
      if currentBucket.size == 0 {
        return;
      }
      currentBucket.lastTimestamp := Some(now);
      buckets := buckets + [currentBucket];
      currentBucket := new Bucket(currentBucket.id + 1, 0);
      assert All() == old(All()) + {currentBucket};
      Regrouped();
      ViewsMore(old(buckets), old(currentBucket));
    }

    /** Some empty buckets go. */
    twostate lemma Thinned()
      requires old(Valid()) && stored == old(stored) && index.m == old(index.m) && currentBucket == old(currentBucket)
      requires arrival == old(arrival) && arrivals == old(arrivals) && Ascending(buckets) && Timestamps()
      requires forall b | b in buckets :: b in old(buckets)
      requires forall b | b in All() :: b.requests == old(b.requests) && b.size == old(b.size)
      requires forall b | b in old(buckets) && b !in buckets :: old(b.requests) == map[]
      ensures Valid()
    {
      Regrouped();
    }

    method GarbageCollectEmptyBuckets()
      requires Valid()
      modifies this`buckets
      ensures Valid() && View() == old(View()).(past := Epochs.DropEmpty(old(View()).past)) && All() <= old(All())
    {
      forall b | b in buckets ensures b.Valid() { assert BucketOk(b); }
      buckets := KeepNonEmpty(buckets);
      Thinned();
    }

    method Strikes(now: int) returns (second: bool)
      requires Valid()
      modifies buckets`firstStrikeTimestamp, buckets`lastTimestamp
      ensures Valid() && lastTick == old(lastTick)
      ensures (Views(buckets), second)
              == Epochs.StrikeSecond(config, Epochs.StrikeFirst(config, old(Views(buckets)), now), now)
      ensures currentBucket.View() == old(currentBucket.View())
    {
      var _ := CheckFirstStrike(config, buckets, now);
      second := CheckSecondStrike(config, buckets, now);
      Regrouped();
    }

    method CollectIfDue(now: int)
      requires Valid()
      modifies this`lastProcessedGc, index
      ensures Valid() && View() == old(View()) && Collected(now - old(lastProcessedGc) > reqIdGcInterval, now)
    {
      if now - lastProcessedGc > reqIdGcInterval {
        lastProcessedGc := now;
        Regrouped();
        GarbageCollectProcessed(now);
      }
    }

    /** An epoch change; `second` says whether SecondStrikeCallback is called. */
    method ChangeEpochs(now: int) returns (second: bool)
      requires Valid()
      modifies this`buckets, this`currentBucket, this`lastProcessedGc, index, All()`lastTimestamp,
               All()`firstStrikeTimestamp
      ensures Valid() && fresh(All() - old(All())) && Collected(now - old(lastProcessedGc) > reqIdGcInterval, now)
      ensures (View(), second) == Epochs.Change(config, old(View()), now)
    {
      RotateBuckets(now);
      GarbageCollectEmptyBuckets();
      CollectIfDue(now);
      second := Strikes(now);
    }

    ghost predicate Due(now: int)
      reads this
    {
      !stopped && now - lastEpochChange > config.epoch
    }

    method Advance(now: int) returns (due: bool)
      requires Valid()
      modifies this`lastTick, this`lastEpochChange
      ensures Valid() && due == old(Due(now)) && All() == old(All())
      ensures View() == old(View()).(lastTick := now, lastEpoch := if due then now else old(lastEpochChange))
    {
      due := !stopped && now - lastEpochChange > config.epoch;
      lastTick := now;
      if due {
        lastEpochChange := now;
      }
      Regrouped();
    }

    /** A tick of the clock. */
    method Tick(now: int) returns (second: bool)
      requires Valid()
      modifies this`buckets, this`currentBucket, this`lastTick, this`lastEpochChange, this`lastProcessedGc, index,
               All()`lastTimestamp, All()`firstStrikeTimestamp
      ensures Valid() && fresh(All() - old(All()))
      ensures Collected(old(Due(now)) && now - old(lastProcessedGc) > reqIdGcInterval, now)
      ensures if stopped then View() == old(View()).(lastTick := now) && !second
              else (View(), second) == Epochs.Tick(config, old(View()), now)
    {
      second := false;
      ghost var before := All();
      var due := Advance(now);
      assert All() == before;
      if due {
        second := ChangeEpochs(now);
      }
      assert fresh(All() - before);
    }

    /** Ticks have no effect until the timestamps are reset. */
    method Stop()
      requires Valid()
      modifies this`stopped
      ensures Valid() && stopped
    {
      stopped := true;
      Regrouped();
    }

    /** Restarts the clocks of all sealed buckets, and the strikes with them. */
    method ResetTimestamps()
      requires Valid() && !closed
      modifies this`stopped, buckets`lastTimestamp, buckets`firstStrikeTimestamp
      ensures Valid() && !stopped && currentBucket.View() == old(currentBucket.View()) && All() == old(All())
      ensures forall b | b in buckets :: b.View() == Epochs.Bucket(b.id, old(b.View()).ids, Some(lastTick), None)
      ensures View() == Epochs.Reset(old(View()))
    {
      RestartAll(buckets, lastTick);
      stopped := false;
      Regrouped();
    }

    // ---------- The requests as the strikes see them ----------

    /** These are exactly the held requests whose ids lead to the bucket. */
    static ghost predicate Inside(held: Requests, known: Known, b: Bucket, ids: set<Id>) {
      forall id :: id in ids <==> id in held && id in known && known[id] == b
    }

    lemma ExactlyInside(b: Bucket)
      requires Valid() && b in All()
      ensures Inside(stored, index.m, b, b.requests.Keys)
    {
      forall id ensures id in b.requests <==> id in stored && id in index.m && index.m[id] == b {
        assert BucketOk(b) && PayloadOk(b, id) && IdOk(id);
      }
    }

    /** Submit is what a run of the strikes calls an addition. */
    method Adds(reqId: Id, request: Bytes) returns (ok: bool)
      requires Valid()
      modifies index, currentBucket`size, currentBucket`requests, this`stored, this`arrival, this`arrivals
      ensures Valid() && View() == if ok then Epochs.With(old(View()), reqId) else old(View())
      ensures ok <==> !closed && reqId !in old(index.m)
    {
      ExactlyInside(currentBucket);
      ok := Submit(reqId, request);
      ExactlyInside(currentBucket);
    }

    lemma LeftInside(held: Requests, known: Known, known': Known, b: Bucket, ids: set<Id>, ids': set<Id>, reqId: Id)
      requires Inside(held, known, b, ids) && Inside(held - {reqId}, known', b, ids')
      requires forall id | id != reqId :: (id in known' <==> id in known) && (id in known ==> known'[id] == known[id])
      ensures ids' == ids - {reqId}
    {
    }

    /** RemoveRequest is what a run of the strikes calls a removal. */
    method Removes(reqId: Id, tombstone: Bucket) returns (deleted: bool)
      requires Valid() && tombstone.id == 0
      modifies index, All()`size, All()`requests, this`stored
      ensures Valid() && View() == Epochs.Without(old(View()), reqId)
      ensures deleted <==> reqId in old(stored)
    {
      forall b | b in All() ensures Inside(stored, index.m, b, b.requests.Keys) { ExactlyInside(b); }
      label before:
      deleted := RemoveRequest(reqId, tombstone);
      forall b | b in All() ensures b.requests.Keys == old@before(b.requests.Keys) - {reqId} {
        ExactlyInside(b);
        LeftInside(old(stored), old(index.m), index.m, b, old@before(b.requests.Keys), b.requests.Keys, reqId);
      }
    }

    // ---------- Moving the requests elsewhere ----------

    /** The requests by bucket, the oldest bucket first. */
    ghost function Groups(): seq<Requests>
      reads this, All()
    {
      RequestsOf(buckets + [currentBucket])
    }

    lemma InGroup(i: nat, x: Id)
      requires Valid() && i < |Groups()| && x in Groups()[i]
      ensures x in stored && stored[x] == Groups()[i][x] && x in index.m && index.m[x] == (buckets + [currentBucket])[i]
      ensures x in arrival
    {
      var b := (buckets + [currentBucket])[i];
      assert b in All();
      assert BucketOk(b) && PayloadOk(b, x) && Timed(x);
    }

    lemma HasGroup(x: Id) returns (i: nat)
      requires Valid() && x in stored
      ensures i < |Groups()| && x in Groups()[i]
    {
      assert IdOk(x);
      var bs := buckets + [currentBucket];
      if index.m[x] == currentBucket {
        i := |buckets|;
      } else {
        i :| 0 <= i < |buckets| && buckets[i] == index.m[x];
      }
      assert bs[i] == index.m[x];
    }

    lemma GroupsInOrder(i: nat, j: nat, x: Id, y: Id)
      requires Valid() && i <= j < |Groups()| && x in Groups()[i] && y in Groups()[j] && (i == j ==> x != y)
      ensures x != y && x in arrival && y in arrival && arrival[x] != arrival[y] && (i < j ==> arrival[x] < arrival[y])
    {
      InGroup(i, x);
      InGroup(j, y);
      var bs := buckets + [currentBucket];
      assert i < j ==> bs[i].id < bs[j].id;
      assert Ordered(x, y);
    }

    lemma GroupsPartition()
      requires Valid()
      ensures Parts(Groups(), stored) && Chronological(Groups(), arrival)
    {
      var gs := Groups();
      forall i: nat, x | i < |gs| && x in gs[i] ensures x in stored && stored[x] == gs[i][x] && x in arrival {
        InGroup(i, x);
      }
      forall i: nat, j: nat, x | i < j < |gs| && x in gs[i] ensures x !in gs[j] {
        if x in gs[j] {
          GroupsInOrder(i, j, x, x);
        }
      }
      forall x | x in stored ensures exists i :: 0 <= i < |gs| && x in gs[i] { var i := HasGroup(x); }
      forall i: nat, j: nat, x, y | i <= j < |gs| && x in gs[i] && y in gs[j] && (i == j ==> x != y)
        ensures arrival[x] != arrival[y] && (i < j ==> arrival[x] < arrival[y])
      {
        GroupsInOrder(i, j, x, y);
      }
    }

    /** Whatever order the buckets are ranged over, requests come out as they arrived exactly if no bucket has two. */
    lemma ListedAsArrivedExactly()
      requires Valid()
      ensures (forall list | Grouped(list, Groups()) :: InOrder(list, arrival)) <==> AtMostOneEach(Groups())
    {
      GroupsPartition();
      ArrivalOrderExactly(Groups(), arrival);
    }

    /** All requests held, bucket by bucket, the oldest bucket first. */
    method GetAllRequests() returns (list: List)
      requires Valid()
      ensures ListsAll(list, stored) && Grouped(list, Groups())
    {
      GroupsPartition();
      ghost var groups, m := Groups(), stored;
      list := ListBuckets(buckets, currentBucket);
      GroupedListsAll(list, groups, m);
    }
  }

  method ListBuckets(past: seq<Bucket>, cur: Bucket) returns (list: List)
    ensures Grouped(list, RequestsOf(past + [cur]))
  {
    list := [];
    for i := 0 to |past|
      invariant Grouped(list, RequestsOf(past[..i]))
    {
      var part := ListRequests(past[i].requests);
      GroupedMore(list, RequestsOf(past[..i]), part, past[i].requests);
      assert RequestsOf(past[..i + 1]) == RequestsOf(past[..i]) + [past[i].requests];
      list := list + part;
    }
    var part := ListRequests(cur.requests);
    assert past[..|past|] == past;
    GroupedMore(list, RequestsOf(past), part, cur.requests);
    assert RequestsOf(past + [cur]) == RequestsOf(past) + [cur.requests];
    list := list + part;
  }
}
