/**
 * The primary's batch store under concurrent inserters, removers, fetchers and pruners.
 *
 * The counter of a batch packs the number of requests above 2^32 and their bytes below it.  A step is
 * one atomic call made under the store's read lock or without it, or a whole section under the write
 * lock, which is enabled only when no thread holds the read lock.  Batches are numbered in the order
 * in which they become current.
 *
 * The fields of History and the last four of Batch are history variables.  Inserts are limited to
 * `budget` bytes and `maxThreads` calls in flight, and only fetched ids are removed, as the batcher
 * role does.
 */
module BatchProtocol {
  import opened Finite
  import opened PackedCounter

  type Id = string
  type Thread = nat

  datatype Params = Params(maxCount: nat, maxBytes: nat, budget: nat, maxThreads: nat, capacity: nat) {
    predicate Valid() {
      maxBytes + budget < TWO_32 && maxCount + maxThreads < TWO_32
    }
  }

  datatype Batch = Batch(
    packed: nat,
    enqueued: bool,
    items: map<Id, nat>,         // id to the size of the request
    // history
    okCount: nat,                // additions that fitted
    okBytes: nat,
    open: map<Thread, nat>,      // additions that fitted and are not stored yet
    over: map<Thread, nat>)      // additions that overflowed

  const NEW_BATCH := Batch(0, false, map[], 0, 0, map[], map[])

  datatype Pc =
    | Idle
    // Pool.Submit and BatchStore.Insert
    | Start(id: Id, sz: nat)
    | Locked(id: Id, sz: nat)              // read lock held
    | Reserved(id: Id, sz: nat, b: nat)    // read lock held, the addition fitted
    | Indexed(id: Id, sz: nat, b: nat)     // read lock held, the id is in keys2Batches
    | Full(id: Id, sz: nat, b: nat)        // about to take the write lock
    | Rejected(id: Id, sz: nat)
    // BatchStore.Remove
    | Removing(id: Id)
    | Unindexed(id: Id, b: nat)
    | Notifying(id: Id)
  {
    predicate Inserts() { Start? || Locked? || Reserved? || Full? || Rejected? }
    predicate ReadLocks() { Locked? || Reserved? || Indexed? }
  }

  datatype Slot = Slot(b: nat, id: Id)

  datatype History = History(
    first: nat,                        // batches before this one were fetched
    inflight: map<Thread, nat>,        // inserts before their id is indexed
    leaving: map<Thread, Id>,          // removals before their OnDelete
    storing: map<Id, Thread>,          // ids indexed and not stored yet
    dropping: map<Slot, Thread>,       // items unindexed and not deleted yet
    outstanding: set<Id>)              // ids fetched and not removed since

  datatype State = State(
    past: seq<Batch>,               // the batches before the current one
    cur: Batch,
    ready: seq<nat>,
    keys: map<Id, nat>,
    threads: map<Thread, Pc>,
    permits: int,
    poolSize: int,
    h: History)
  {
    function Get(b: nat): Batch { if b < |past| then past[b] else cur }

    function Put(b: nat, x: Batch): State {
      if b < |past| then this.(past := past[b := x]) else this.(cur := x)
    }

    /** The current batch is enqueued, or taken, and replaced by a new one. */
    function Replace(): State {
      this.(past := past + [cur.(enqueued := true)], cur := NEW_BATCH)
    }
  }

  function Init(threads: set<Thread>): State {
    State([], NEW_BATCH, [], map[], map t | t in threads :: Idle, 0, 0,
          History(0, map[], map[], map[], map[], {}))
  }

  // ---------- Steps ----------

  datatype Step =
    | Submit(t: Thread, id: Id, sz: nat)
    | Remove(t: Thread, id: Id)
    | Go(t: Thread)
    | Fetch
    | Prune(doomed: set<Id>)

  predicate NoReaders(s: State) {
    forall t | t in s.threads :: !s.threads[t].ReadLocks()
  }

  ghost predicate Enabled(p: Params, s: State, step: Step) {
    match step
    case Submit(t, id, sz) =>
      && t in s.threads && s.threads[t].Idle?
      && s.permits < p.capacity
      && |s.h.inflight.Keys| < p.maxThreads && Sum(s.h.inflight) + sz <= p.budget
    case Remove(t, id) => t in s.threads && s.threads[t].Idle?
    case Go(t) =>
      && t in s.threads
      && (s.threads[t].Full? ==> NoReaders(s))
      && (s.threads[t].Removing? && s.threads[t].id in s.keys ==> s.keys[s.threads[t].id] < s.h.first)
    case Fetch => NoReaders(s)
    case Prune(doomed) => NoReaders(s)
  }

  function Apply(p: Params, s: State, step: Step): State
    requires step.Go? ==> step.t in s.threads
  {
    match step
    case Submit(t, id, sz) =>
      s.(threads := s.threads[t := Start(id, sz)], permits := s.permits + 1,
         h := s.h.(inflight := s.h.inflight[t := sz]))
    case Remove(t, id) => s.(threads := s.threads[t := Removing(id)])
    case Go(t) => ThreadStep(p, s, t, s.threads[t])
    case Fetch => FetchStep(s)
    case Prune(doomed) => PruneStep(s, doomed)
  }

  predicate Fits(p: Params, packed: nat) {
    High(packed) <= p.maxCount && Low(packed) <= p.maxBytes
  }

  function ThreadStep(p: Params, s: State, t: Thread, pc: Pc): State {
    match pc
    case Idle => s
    case Start(id, sz) => s.(threads := s.threads[t := Locked(id, sz)])
    case Locked(id, sz) =>
      var x := s.cur.(packed := Added(s.cur.packed, sz));
      if Fits(p, x.packed) then AcceptStep(s, t, id, sz, x)
      else s.(threads := s.threads[t := Full(id, sz, |s.past|)], cur := x.(over := x.over[t := sz]))
    case Reserved(id, sz, b) =>
      if id in s.keys then s.(threads := s.threads[t := Rejected(id, sz)]).Put(b, Unopen(s.Get(b), t))
      else IndexStep(s, t, id, sz, b)
    case Indexed(id, sz, b) => StoreStep(s, t, id, sz, b)
    case Full(id, sz, b) =>
      var s' := s.(threads := s.threads[t := Start(id, sz)]);
      if s.Get(b).enqueued then s' else s'.(ready := s.ready + [b]).Replace()
    case Rejected(id, sz) => // semaphore.Release
      s.(threads := s.threads[t := Idle], permits := s.permits - 1, h := s.h.(inflight := s.h.inflight - {t}))
    case Removing(id) =>
      if id in s.keys then UnindexStep(s, t, id, s.keys[id]) else s.(threads := s.threads[t := Idle])
    case Unindexed(id, b) => DeleteStep(s, t, id, b)
    case Notifying(id) => // OnDelete
      s.(threads := s.threads[t := Idle], permits := s.permits - 1, poolSize := s.poolSize - 1,
         h := s.h.(leaving := s.h.leaving - {t}))
  }

  function Unopen(b: Batch, t: Thread): Batch { b.(open := b.open - {t}) }

  /** An addition that fits the current batch. */
  function AcceptStep(s: State, t: Thread, id: Id, sz: nat, x: Batch): State {
    s.(threads := s.threads[t := Reserved(id, sz, |s.past|)],
       cur := x.(okCount := x.okCount + 1, okBytes := x.okBytes + sz, open := x.open[t := sz]))
  }

  /** The id enters keys2Batches; from here on the permit belongs to the id. */
  function IndexStep(s: State, t: Thread, id: Id, sz: nat, b: nat): State {
    s.(threads := s.threads[t := Indexed(id, sz, b)], keys := s.keys[id := b], poolSize := s.poolSize + 1,
       h := s.h.(inflight := s.h.inflight - {t}, storing := s.h.storing[id := t]))
  }

  /** batch.Store */
  function StoreStep(s: State, t: Thread, id: Id, sz: nat, b: nat): State {
    s.(threads := s.threads[t := Idle], h := s.h.(storing := s.h.storing - {id}))
     .Put(b, Unopen(s.Get(b), t).(items := s.Get(b).items[id := sz]))
  }

  /** keys2Batches.LoadAndDelete */
  function UnindexStep(s: State, t: Thread, id: Id, b: nat): State {
    s.(threads := s.threads[t := Unindexed(id, b)], keys := s.keys - {id},
       h := s.h.(leaving := s.h.leaving[t := id], dropping := s.h.dropping[Slot(b, id) := t],
                 outstanding := s.h.outstanding - {id}))
  }

  /** batch.Delete */
  function DeleteStep(s: State, t: Thread, id: Id, b: nat): State {
    s.(threads := s.threads[t := Notifying(id)], h := s.h.(dropping := s.h.dropping - {Slot(b, id)}))
     .Put(b, s.Get(b).(items := s.Get(b).items - {id}))
  }

  /** The first batch of the ready queue, from position i, that is not empty (pruning may empty one). */
  function Pick(s: State, i: nat): (k: nat)
    requires i <= |s.ready|
    ensures i <= k <= |s.ready|
    decreases |s.ready| - i
  {
    if i == |s.ready| || s.Get(s.ready[i]).items != map[] then i else Pick(s, i + 1)
  }

  /** The ids BatchStore.Fetch returns: those of a ready batch, or else of the current one. */
  function FetchedIds(s: State): set<Id> {
    var k := Pick(s, 0);
    if k < |s.ready| then s.Get(s.ready[k]).items.Keys
    else if s.cur.packed == 0 then {}
    else s.cur.items.Keys
  }

  /** Whether Fetch, once it stops waiting, finds no ready batch and takes the current one. */
  predicate TakesCurrent(s: State) { Pick(s, 0) == |s.ready| && s.cur.packed != 0 }

  function FetchStep(s: State): State {
    var k := Pick(s, 0);
    var taken := if k < |s.ready| || s.cur.packed != 0 then 1 else 0;
    var s' := s.(ready := if k < |s.ready| then s.ready[k + 1..] else [],
                 h := s.h.(first := s.h.first + k + taken, outstanding := s.h.outstanding + FetchedIds(s)));
    if TakesCurrent(s) then s'.Replace() else s'
  }

  /** BatchStore.Prune: the doomed ids of the ready and the current batches are removed. */
  function PruneStep(s: State, doomed: set<Id>): State {
    var gone := set id | id in s.keys && id in doomed && s.keys[id] >= s.h.first;
    s.(keys := s.keys - gone, permits := s.permits - |gone|, poolSize := s.poolSize - |gone|,
       cur := s.cur.(items := s.cur.items - gone),
       past := seq(|s.past|, b requires 0 <= b < |s.past| =>
                if b >= s.h.first then s.past[b].(items := s.past[b].items - gone) else s.past[b]))
  }

  // ---------- Invariant ----------

  /** What a thread's program counter entails. */
  ghost predicate ThreadOk(s: State, t: Thread, pc: Pc) {
    && (pc.Inserts() <==> t in s.h.inflight)
    && (pc.Inserts() ==> s.h.inflight[t] == pc.sz)
    && (pc.Unindexed? || pc.Notifying? <==> t in s.h.leaving)
    && (pc.Reserved? || pc.Indexed? ==> pc.b == |s.past| && t in s.cur.open && s.cur.open[t] == pc.sz)
    && (pc.Indexed? ==> pc.id in s.keys && s.keys[pc.id] == pc.b && pc.id in s.h.storing && s.h.storing[pc.id] == t
                        && pc.id !in s.cur.items)
    && (pc.Full? ==> pc.b <= |s.past|)
    && (pc.Full? && pc.b == |s.past| ==> t in s.cur.over && s.cur.over[t] == pc.sz)
    && (pc.Unindexed? ==> pc.b < s.h.first <= |s.past| && pc.id in s.past[pc.b].items
                          && !(pc.id in s.keys && s.keys[pc.id] == pc.b)
                          && Slot(pc.b, pc.id) in s.h.dropping && s.h.dropping[Slot(pc.b, pc.id)] == t)
  }

  /** An indexed id is stored in its batch, or the thread that indexed it is about to store it. */
  ghost predicate IdOk(s: State, id: Id, b: nat) {
    && b <= |s.past|
    && (b < s.h.first <==> id in s.h.outstanding)
    && (id !in s.Get(b).items ==>
          id in s.h.storing && s.h.storing[id] in s.threads
          && s.threads[s.h.storing[id]].Indexed? && s.threads[s.h.storing[id]].id == id)
  }

  /** A stored item is indexed under its batch, or a removal of it from a fetched batch is under way. */
  ghost predicate ItemOk(s: State, b: nat, id: Id) {
    || (id in s.keys && s.keys[id] == b)
    || (b < s.h.first && Slot(b, id) in s.h.dropping && s.h.dropping[Slot(b, id)] in s.threads
        && s.threads[s.h.dropping[Slot(b, id)]] == Unindexed(id, b))
  }

  ghost predicate OpenOk(s: State, t: Thread, sz: nat) {
    t in s.threads && (s.threads[t].Reserved? || s.threads[t].Indexed?) && s.threads[t].sz == sz
  }

  ghost predicate OverOk(s: State, t: Thread, sz: nat) {
    t in s.threads && s.threads[t].Full? && s.threads[t].b == |s.past| && s.threads[t].sz == sz
  }

  /** The ready queue holds exactly the batches between the fetched ones and the current one, in order. */
  ghost predicate QueueOk(s: State) {
    && s.h.first <= |s.past|
    && |s.ready| == |s.past| - s.h.first
    && (forall i | 0 <= i < |s.ready| :: s.ready[i] == s.h.first + i)
    && !s.cur.enqueued
    && (forall b | 0 <= b < |s.past| :: s.past[b].enqueued)
  }

  /** Who points to whom. */
  ghost predicate Links(s: State) {
    && s.h.first <= |s.past|
    && (forall t {:trigger ThreadOk(s, t, s.threads[t])} | t in s.threads :: ThreadOk(s, t, s.threads[t]))
    && (forall id {:trigger IdOk(s, id, s.keys[id])} | id in s.keys :: IdOk(s, id, s.keys[id]))
    && (forall id | id in s.h.outstanding :: id in s.keys)
    && (forall t | t in s.h.inflight || t in s.h.leaving :: t in s.threads)
    && (forall b, id {:trigger ItemOk(s, b, id)} | 0 <= b <= |s.past| && id in s.Get(b).items :: ItemOk(s, b, id))
    && (forall t {:trigger OpenOk(s, t, s.cur.open[t])} | t in s.cur.open :: OpenOk(s, t, s.cur.open[t]))
    && (forall t {:trigger OverOk(s, t, s.cur.over[t])} | t in s.cur.over :: OverOk(s, t, s.cur.over[t]))
  }

  /** A batch holds no more than the additions that fitted, which are within the limits. */
  ghost predicate LoadOk(p: Params, x: Batch) {
    && x.okCount <= p.maxCount && x.okBytes <= p.maxBytes
    && |x.items.Keys| + |x.open.Keys| <= x.okCount
    && Sum(x.items) + Sum(x.open) <= x.okBytes
  }

  /** The counter of the current batch decodes to the additions made to it. */
  ghost predicate CounterOk(x: Batch) {
    x.packed == (x.okCount + |x.over.Keys|) * TWO_32 + x.okBytes + Sum(x.over)
  }

  ghost predicate PastLoads(p: Params, past: seq<Batch>) {
    forall b | 0 <= b < |past| :: LoadOk(p, past[b])
  }

  ghost predicate Loads(p: Params, s: State) {
    LoadOk(p, s.cur) && CounterOk(s.cur) && PastLoads(p, s.past)
  }

  /** The semaphore and Pool.size count the inserts in flight, the removals under way and the ids indexed. */
  ghost predicate AccountsOk(p: Params, inflight: map<Thread, nat>, leaving: set<Thread>, ids: set<Id>,
                             permits: int, poolSize: int)
  {
    && permits == |inflight.Keys| + |leaving| + |ids| <= p.capacity
    && poolSize == |leaving| + |ids|
    && |inflight.Keys| <= p.maxThreads && Sum(inflight) <= p.budget
  }

  ghost predicate Accounts(p: Params, s: State) {
    AccountsOk(p, s.h.inflight, s.h.leaving.Keys, s.keys.Keys, s.permits, s.poolSize)
  }

  ghost predicate Inv(p: Params, s: State) {
    QueueOk(s) && Links(s) && Loads(p, s) && Accounts(p, s)
  }

  // ---------- Preservation ----------

  lemma InitInv(p: Params, threads: set<Thread>)
    ensures Inv(p, Init(threads))
  {
    var s := Init(threads);
    forall t | t in s.threads ensures ThreadOk(s, t, s.threads[t]) { assert s.threads[t] == Idle; }
  }

  ghost predicate At(s: State, t: Thread, pc: Pc) {
    Links(s) && t in s.threads && s.threads[t] == pc && ThreadOk(s, t, pc)
  }

  /** A step that moves a thread's program counter, and may open or close its claim to a permit. */
  lemma MoveLinks(s: State, t: Thread, pc: Pc, pc': Pc, s': State)
    requires At(s, t, pc)
    requires s' == s.(threads := s.threads[t := pc'], permits := s'.permits, poolSize := s'.poolSize,
                      h := s.h.(inflight := s'.h.inflight, leaving := s'.h.leaving))
    requires s'.h.inflight - {t} == s.h.inflight - {t} && s'.h.leaving - {t} == s.h.leaving - {t}
    requires ThreadOk(s', t, pc')
    requires !pc.Reserved? && !pc.Indexed? && !pc.Unindexed? && !(pc.Full? && pc.b == |s.past|)
    ensures Links(s')
  {
    forall x | x in s'.threads ensures ThreadOk(s', x, s'.threads[x]) {
      assert ThreadOk(s, x, s.threads[x]);
      if x != t {
        assert x in s'.h.inflight <==> x in s'.h.inflight - {t};
        assert x in s'.h.leaving <==> x in s'.h.leaving - {t};
      }
    }
    forall x | x in s'.h.inflight || x in s'.h.leaving ensures x in s'.threads {
      if x != t { assert x in s'.h.inflight - {t} || x in s'.h.leaving - {t}; }
    }
    forall x | x in s'.keys ensures IdOk(s', x, s'.keys[x]) { assert IdOk(s, x, s.keys[x]); }
    forall b, x | 0 <= b <= |s'.past| && x in s'.Get(b).items ensures ItemOk(s', b, x) { assert ItemOk(s, b, x); }
    forall x | x in s'.cur.open ensures OpenOk(s', x, s'.cur.open[x]) { assert OpenOk(s, x, s.cur.open[x]); }
    forall x | x in s'.cur.over ensures OverOk(s', x, s'.cur.over[x]) { assert OverOk(s, x, s.cur.over[x]); }
  }

  lemma AcceptLinks(s: State, t: Thread, pc: Pc, x: Batch)
    requires At(s, t, pc) && pc.Locked? && x == s.cur.(packed := x.packed)
    ensures Links(AcceptStep(s, t, pc.id, pc.sz, x))
  {
    var s' := AcceptStep(s, t, pc.id, pc.sz, x);
    forall x | x in s'.threads ensures ThreadOk(s', x, s'.threads[x]) { assert ThreadOk(s, x, s.threads[x]); }
    forall x | x in s'.keys ensures IdOk(s', x, s'.keys[x]) { assert IdOk(s, x, s.keys[x]); }
    forall b, x | 0 <= b <= |s'.past| && x in s'.Get(b).items ensures ItemOk(s', b, x) { assert ItemOk(s, b, x); }
    forall x | x in s'.cur.open ensures OpenOk(s', x, s'.cur.open[x]) {
      assert x in s.cur.open ==> OpenOk(s, x, s.cur.open[x]);
    }
    forall x | x in s'.cur.over ensures OverOk(s', x, s'.cur.over[x]) { assert OverOk(s, x, s.cur.over[x]); }
  }

  lemma OverflowLinks(s: State, t: Thread, pc: Pc, x: Batch)
    requires At(s, t, pc) && pc.Locked? && x == s.cur.(packed := x.packed)
    ensures Links(s.(threads := s.threads[t := Full(pc.id, pc.sz, |s.past|)], cur := x.(over := x.over[t := pc.sz])))
  {
    var s' := s.(threads := s.threads[t := Full(pc.id, pc.sz, |s.past|)], cur := x.(over := x.over[t := pc.sz]));
    forall x | x in s'.threads ensures ThreadOk(s', x, s'.threads[x]) { assert ThreadOk(s, x, s.threads[x]); }
    forall x | x in s'.keys ensures IdOk(s', x, s'.keys[x]) { assert IdOk(s, x, s.keys[x]); }
    forall b, x | 0 <= b <= |s'.past| && x in s'.Get(b).items ensures ItemOk(s', b, x) { assert ItemOk(s, b, x); }
    forall x | x in s'.cur.open ensures OpenOk(s', x, s'.cur.open[x]) { assert OpenOk(s, x, s.cur.open[x]); }
    forall x | x in s'.cur.over ensures OverOk(s', x, s'.cur.over[x]) {
      assert x in s.cur.over ==> OverOk(s, x, s.cur.over[x]);
    }
  }

  lemma DuplicateLinks(s: State, t: Thread, pc: Pc)
    requires At(s, t, pc) && pc.Reserved?
    ensures Links(s.(threads := s.threads[t := Rejected(pc.id, pc.sz)], cur := Unopen(s.cur, t)))
  {
    var s' := s.(threads := s.threads[t := Rejected(pc.id, pc.sz)], cur := Unopen(s.cur, t));
    forall x | x in s'.threads ensures ThreadOk(s', x, s'.threads[x]) { assert ThreadOk(s, x, s.threads[x]); }
    forall x | x in s'.keys ensures IdOk(s', x, s'.keys[x]) { assert IdOk(s, x, s.keys[x]); }
    forall b, x | 0 <= b <= |s'.past| && x in s'.Get(b).items ensures ItemOk(s', b, x) { assert ItemOk(s, b, x); }
    forall x | x in s'.cur.open ensures OpenOk(s', x, s'.cur.open[x]) { assert OpenOk(s, x, s.cur.open[x]); }
    forall x | x in s'.cur.over ensures OverOk(s', x, s'.cur.over[x]) { assert OverOk(s, x, s.cur.over[x]); }
  }

  lemma IndexLinks(s: State, t: Thread, pc: Pc)
    requires At(s, t, pc) && pc.Reserved? && pc.id !in s.keys
    ensures Links(IndexStep(s, t, pc.id, pc.sz, pc.b))
  {
    var s' := IndexStep(s, t, pc.id, pc.sz, pc.b);
    assert pc.id in s.cur.items ==> ItemOk(s, |s.past|, pc.id);
    forall x | x in s'.threads ensures ThreadOk(s', x, s'.threads[x]) { assert ThreadOk(s, x, s.threads[x]); }
    forall x | x in s'.keys ensures IdOk(s', x, s'.keys[x]) { assert x in s.keys ==> IdOk(s, x, s.keys[x]); }
    forall b, x | 0 <= b <= |s'.past| && x in s'.Get(b).items ensures ItemOk(s', b, x) { assert ItemOk(s, b, x); }
    forall x | x in s'.cur.open ensures OpenOk(s', x, s'.cur.open[x]) { assert OpenOk(s, x, s.cur.open[x]); }
    forall x | x in s'.cur.over ensures OverOk(s', x, s'.cur.over[x]) { assert OverOk(s, x, s.cur.over[x]); }
  }

  lemma StoreLinks(s: State, t: Thread, pc: Pc)
    requires At(s, t, pc) && pc.Indexed?
    ensures Links(StoreStep(s, t, pc.id, pc.sz, pc.b))
  {
    var s' := StoreStep(s, t, pc.id, pc.sz, pc.b);
    forall x | x in s'.threads ensures ThreadOk(s', x, s'.threads[x]) { assert ThreadOk(s, x, s.threads[x]); }
    forall x | x in s'.keys ensures IdOk(s', x, s'.keys[x]) { assert IdOk(s, x, s.keys[x]); }
    forall b, x | 0 <= b <= |s'.past| && x in s'.Get(b).items ensures ItemOk(s', b, x) {
      assert b <= |s.past| && x in s.Get(b).items ==> ItemOk(s, b, x);
    }
    forall x | x in s'.cur.open ensures OpenOk(s', x, s'.cur.open[x]) { assert OpenOk(s, x, s.cur.open[x]); }
    forall x | x in s'.cur.over ensures OverOk(s', x, s'.cur.over[x]) { assert OverOk(s, x, s.cur.over[x]); }
  }

  lemma UnindexLinks(s: State, t: Thread, pc: Pc, b: nat)
    requires At(s, t, pc) && pc.Removing? && pc.id in s.keys && s.keys[pc.id] == b < s.h.first
    ensures Links(UnindexStep(s, t, pc.id, b))
  {
    var s' := UnindexStep(s, t, pc.id, b);
    assert IdOk(s, pc.id, b);
    assert pc.id !in s.Get(b).items ==> ThreadOk(s, s.h.storing[pc.id], s.threads[s.h.storing[pc.id]]);
    forall x | x in s'.threads ensures ThreadOk(s', x, s'.threads[x]) { assert ThreadOk(s, x, s.threads[x]); }
    forall x | x in s'.keys ensures IdOk(s', x, s'.keys[x]) { assert IdOk(s, x, s.keys[x]); }
    forall b, x | 0 <= b <= |s'.past| && x in s'.Get(b).items ensures ItemOk(s', b, x) { assert ItemOk(s, b, x); }
    forall x | x in s'.cur.open ensures OpenOk(s', x, s'.cur.open[x]) { assert OpenOk(s, x, s.cur.open[x]); }
    forall x | x in s'.cur.over ensures OverOk(s', x, s'.cur.over[x]) { assert OverOk(s, x, s.cur.over[x]); }
  }

  lemma DeleteLinks(s: State, t: Thread, pc: Pc)
    requires At(s, t, pc) && pc.Unindexed?
    ensures Links(DeleteStep(s, t, pc.id, pc.b))
  {
    var s' := DeleteStep(s, t, pc.id, pc.b);
    forall x | x in s'.threads ensures ThreadOk(s', x, s'.threads[x]) { assert ThreadOk(s, x, s.threads[x]); }
    forall x | x in s'.keys ensures IdOk(s', x, s'.keys[x]) { assert IdOk(s, x, s.keys[x]); }
    forall b, x | 0 <= b <= |s'.past| && x in s'.Get(b).items ensures ItemOk(s', b, x) { assert ItemOk(s, b, x); }
    forall x | x in s'.cur.open ensures OpenOk(s', x, s'.cur.open[x]) { assert OpenOk(s, x, s.cur.open[x]); }
    forall x | x in s'.cur.over ensures OverOk(s', x, s'.cur.over[x]) { assert OverOk(s, x, s.cur.over[x]); }
  }

  /** Replacing the current batch under the write lock, when its queue is `ready` and `first` is not past it. */
  lemma ReplaceLinks(s: State, s': State)
    requires Links(s) && NoReaders(s)
    requires s' == s.(ready := s'.ready, h := s.h.(first := s'.h.first, outstanding := s'.h.outstanding)).Replace()
    requires s.h.first <= s'.h.first <= |s.past| + 1
    requires forall id | id in s.keys :: id in s'.h.outstanding <==> s.keys[id] < s'.h.first
    requires forall id | id in s'.h.outstanding :: id in s.keys
    ensures Links(s')
  {
    forall b | 0 <= b <= |s.past| ensures s'.Get(b).items == s.Get(b).items {}
    forall x | x in s'.threads ensures ThreadOk(s', x, s'.threads[x]) { assert ThreadOk(s, x, s.threads[x]); }
    forall x | x in s'.keys ensures IdOk(s', x, s'.keys[x]) { assert IdOk(s, x, s.keys[x]); }
    forall b, x | 0 <= b <= |s'.past| && x in s'.Get(b).items ensures ItemOk(s', b, x) {
      assert b <= |s.past|;
      assert ItemOk(s, b, x);
    }
  }

  /** Fetching from the queue. */
  lemma DequeueLinks(s: State, s': State)
    requires Links(s) && NoReaders(s)
    requires s' == s.(ready := s'.ready, h := s.h.(first := s'.h.first, outstanding := s'.h.outstanding))
    requires s.h.first <= s'.h.first <= |s.past|
    requires forall id | id in s.keys :: id in s'.h.outstanding <==> s.keys[id] < s'.h.first
    requires forall id | id in s'.h.outstanding :: id in s.keys
    ensures Links(s')
  {
    forall x | x in s'.threads ensures ThreadOk(s', x, s'.threads[x]) { assert ThreadOk(s, x, s.threads[x]); }
    forall x | x in s'.keys ensures IdOk(s', x, s'.keys[x]) { assert IdOk(s, x, s.keys[x]); }
    forall b, x | 0 <= b <= |s'.past| && x in s'.Get(b).items ensures ItemOk(s', b, x) { assert ItemOk(s, b, x); }
    NothingOpen(s);
    forall x | x in s'.cur.over ensures OverOk(s', x, s'.cur.over[x]) { assert OverOk(s, x, s.cur.over[x]); }
  }

  /** Without readers, no accepted addition is left to be stored. */
  lemma NothingOpen(s: State)
    requires Links(s) && NoReaders(s)
    ensures s.cur.open == map[]
  {
    forall t ensures t !in s.cur.open { assert t in s.cur.open ==> OpenOk(s, t, s.cur.open[t]); }
  }

  lemma PruneLinks(s: State, doomed: set<Id>)
    requires Links(s) && NoReaders(s)
    ensures Links(PruneStep(s, doomed))
  {
    var s' := PruneStep(s, doomed);
    forall id | id in s.h.outstanding ensures id in s'.keys { assert IdOk(s, id, s.keys[id]); }
    forall x | x in s'.threads ensures ThreadOk(s', x, s'.threads[x]) { assert ThreadOk(s, x, s.threads[x]); }
    forall x | x in s'.keys ensures IdOk(s', x, s'.keys[x]) { assert IdOk(s, x, s.keys[x]); }
    forall b, x | 0 <= b <= |s'.past| && x in s'.Get(b).items ensures ItemOk(s', b, x) { assert ItemOk(s, b, x); }
    NothingOpen(s);
    forall x | x in s'.cur.over ensures OverOk(s', x, s'.cur.over[x]) { assert OverOk(s, x, s.cur.over[x]); }
  }

  // What the batches hold

  /** The halves of the counter decode exactly, and an addition fits when both totals stay within the limits. */
  lemma CounterDecodes(p: Params, count: nat, bytes: nat, sz: nat)
    requires count + 1 < TWO_32 && bytes + sz < TWO_32
    ensures var packed := Added(count * TWO_32 + bytes, sz);
            && packed == (count + 1) * TWO_32 + bytes + sz
            && High(packed) == count + 1 && Low(packed) == bytes + sz
            && (Fits(p, packed) <==> count + 1 <= p.maxCount && bytes + sz <= p.maxBytes)
  {
    AddedExact(count, bytes, sz);
  }

  /** An addition that overflowed belongs to an insert still in flight. */
  lemma OverInFlight(s: State, t: Thread, pc: Pc)
    requires At(s, t, pc) && pc.Locked?
    ensures t !in s.cur.over && t !in s.cur.open
    ensures Sum(s.cur.over) + pc.sz <= Sum(s.h.inflight) && |s.cur.over.Keys| + 1 <= |s.h.inflight.Keys|
  {
    assert t in s.cur.over ==> OverOk(s, t, s.cur.over[t]);
    assert t in s.cur.open ==> OpenOk(s, t, s.cur.open[t]);
    forall o | o in s.cur.over ensures o in s.h.inflight && s.cur.over[o] == s.h.inflight[o] {
      assert OverOk(s, o, s.cur.over[o]);
      assert ThreadOk(s, o, s.threads[o]);
    }
    SumProperPart(s.cur.over, s.h.inflight, t);
  }

  /** The atomic addition, when it fits. */
  lemma AcceptLoad(p: Params, x: Batch, t: Thread, sz: nat)
    requires LoadOk(p, x) && t !in x.open && x.okCount + 1 <= p.maxCount && x.okBytes + sz <= p.maxBytes
    ensures LoadOk(p, x.(okCount := x.okCount + 1, okBytes := x.okBytes + sz, open := x.open[t := sz]))
  {
    SumInsert(x.open, t, sz);
  }

  lemma ItemsLoad(p: Params, x: Batch, items: map<Id, nat>)
    requires LoadOk(p, x) && forall id | id in items :: id in x.items && items[id] == x.items[id]
    ensures LoadOk(p, x.(items := items))
  {
    SumPart(items, x.items);
  }

  lemma UnopenLoad(p: Params, x: Batch, t: Thread, id: Id)
    requires LoadOk(p, x) && t in x.open
    ensures LoadOk(p, Unopen(x, t))
    ensures id !in x.items ==> LoadOk(p, Unopen(x, t).(items := x.items[id := x.open[t]]))
  {
    SumDelete(x.open, t);
    if id !in x.items { SumInsert(x.items, id, x.open[t]); }
  }

  // The permits and Pool.size

  lemma SubmitAccounts(p: Params, s: State, t: Thread, id: Id, sz: nat)
    requires Accounts(p, s) && Enabled(p, s, Submit(t, id, sz)) && t !in s.h.inflight
    ensures Accounts(p, Apply(p, s, Submit(t, id, sz)))
  {
    SumInsert(s.h.inflight, t, sz);
  }

  lemma IndexAccounts(p: Params, s: State, t: Thread, id: Id, sz: nat, b: nat)
    requires Accounts(p, s) && t in s.h.inflight && id !in s.keys
    ensures Accounts(p, IndexStep(s, t, id, sz, b))
  {
    SumDelete(s.h.inflight, t);
    assert s.keys[id := b].Keys == s.keys.Keys + {id};
  }

  lemma UnindexAccounts(p: Params, s: State, t: Thread, id: Id)
    requires Accounts(p, s) && t !in s.h.leaving && id in s.keys
    ensures Accounts(p, UnindexStep(s, t, id, s.keys[id]))
  {
    assert s.h.leaving[t := id].Keys == s.h.leaving.Keys + {t};
    assert (s.keys - {id}).Keys == s.keys.Keys - {id};
  }

  /** Rejected and Notifying: a permit is released. */
  lemma ReleaseAccounts(p: Params, s: State, t: Thread, pc: Pc)
    requires Accounts(p, s) && ThreadOk(s, t, pc) && (pc.Rejected? || pc.Notifying?)
    ensures Accounts(p, ThreadStep(p, s, t, pc))
  {
    if pc.Rejected? {
      SumDelete(s.h.inflight, t);
    } else {
      assert (s.h.leaving - {t}).Keys == s.h.leaving.Keys - {t};
    }
  }

  lemma PruneAccounts(p: Params, s: State, doomed: set<Id>)
    requires Accounts(p, s)
    ensures Accounts(p, PruneStep(s, doomed))
  {
    var gone := set id | id in s.keys && id in doomed && s.keys[id] >= s.h.first;
    assert (s.keys - gone).Keys == s.keys.Keys - gone;
    assert |s.keys.Keys - gone| == |s.keys.Keys| - |gone|;
  }

  // One step of a thread

  lemma ThreadLinks(p: Params, s: State, t: Thread, pc: Pc)
    requires QueueOk(s) && At(s, t, pc) && Enabled(p, s, Go(t))
    ensures Links(ThreadStep(p, s, t, pc))
  {
    var s' := ThreadStep(p, s, t, pc);
    match pc
    case Idle =>
    case Start(id, sz) => MoveLinks(s, t, pc, Locked(id, sz), s');
    case Locked(id, sz) =>
      var x := s.cur.(packed := Added(s.cur.packed, sz));
      if Fits(p, x.packed) { AcceptLinks(s, t, pc, x); } else { OverflowLinks(s, t, pc, x); }
    case Reserved(id, sz, b) => if id in s.keys { DuplicateLinks(s, t, pc); } else { IndexLinks(s, t, pc); }
    case Indexed(id, sz, b) => StoreLinks(s, t, pc);
    case Full(id, sz, b) =>
      if b < |s.past| { MoveLinks(s, t, pc, Start(id, sz), s'); } else { EnqueueLinks(s, t, pc); }
    case Rejected(id, sz) => MoveLinks(s, t, pc, Idle, s');
    case Removing(id) => if id in s.keys { UnindexLinks(s, t, pc, s.keys[id]); } else { MoveLinks(s, t, pc, Idle, s'); }
    case Unindexed(id, b) => DeleteLinks(s, t, pc);
    case Notifying(id) => MoveLinks(s, t, pc, Idle, s');
  }

  /** The write-locked section of an insert whose batch is still current. */
  lemma EnqueueLinks(s: State, t: Thread, pc: Pc)
    requires QueueOk(s) && At(s, t, pc) && pc.Full? && pc.b == |s.past| && NoReaders(s)
    ensures Links(s.(threads := s.threads[t := Start(pc.id, pc.sz)], ready := s.ready + [pc.b]).Replace())
  {
    var r := s.(ready := s.ready + [pc.b]).Replace();
    forall id | id in s.keys ensures id in s.h.outstanding <==> s.keys[id] < s.h.first {
      assert IdOk(s, id, s.keys[id]);
    }
    ReplaceLinks(s, r);
    assert ThreadOk(r, t, pc);
    MoveLinks(r, t, pc, Start(pc.id, pc.sz), r.(threads := s.threads[t := Start(pc.id, pc.sz)]));
  }

  /** The test on the packed halves is the test on the true totals. */
  lemma CounterTest(p: Params, s: State, t: Thread, pc: Pc)
    requires p.Valid() && LoadOk(p, s.cur) && CounterOk(s.cur) && At(s, t, pc) && pc.Locked?
    requires |s.h.inflight.Keys| <= p.maxThreads && Sum(s.h.inflight) <= p.budget
    ensures var x := s.cur;
            && Added(x.packed, pc.sz)
               == (x.okCount + |x.over.Keys| + 1) * TWO_32 + x.okBytes + Sum(x.over) + pc.sz
            && (Fits(p, Added(x.packed, pc.sz)) <==>
                x.okCount + |x.over.Keys| + 1 <= p.maxCount && x.okBytes + Sum(x.over) + pc.sz <= p.maxBytes)
  {
    OverInFlight(s, t, pc);
    CounterDecodes(p, s.cur.okCount + |s.cur.over.Keys|, s.cur.okBytes + Sum(s.cur.over), pc.sz);
  }

  lemma AddCounter(p: Params, s: State, t: Thread, pc: Pc)
    requires p.Valid() && LoadOk(p, s.cur) && CounterOk(s.cur) && At(s, t, pc) && pc.Locked?
    requires |s.h.inflight.Keys| <= p.maxThreads && Sum(s.h.inflight) <= p.budget
    ensures CounterOk(ThreadStep(p, s, t, pc).cur)
  {
    CounterTest(p, s, t, pc);
    OverInFlight(s, t, pc);
    SumInsert(s.cur.over, t, pc.sz);
  }

  lemma AddLoad(p: Params, s: State, t: Thread, pc: Pc)
    requires p.Valid() && LoadOk(p, s.cur) && CounterOk(s.cur) && At(s, t, pc) && pc.Locked?
    requires |s.h.inflight.Keys| <= p.maxThreads && Sum(s.h.inflight) <= p.budget
    ensures LoadOk(p, ThreadStep(p, s, t, pc).cur)
  {
    CounterTest(p, s, t, pc);
    OverInFlight(s, t, pc);
    if Fits(p, Added(s.cur.packed, pc.sz)) { AcceptLoad(p, s.cur, t, pc.sz); }
  }

  /** The steps that touch nothing but the current batch. */
  lemma ThreadElsewhere(p: Params, s: State, t: Thread, pc: Pc)
    requires At(s, t, pc) && !pc.Full? && !pc.Unindexed?
    ensures var s' := ThreadStep(p, s, t, pc);
            && (s'.past, s'.ready, s'.h.first, s'.cur.enqueued) == (s.past, s.ready, s.h.first, s.cur.enqueued)
            && (pc.Locked? || pc.Reserved? || pc.Indexed? || s'.cur == s.cur)
  {
  }

  lemma ThreadQueue(p: Params, s: State, t: Thread, pc: Pc)
    requires QueueOk(s) && At(s, t, pc)
    ensures QueueOk(ThreadStep(p, s, t, pc))
  {
    if !pc.Full? && !pc.Unindexed? { ThreadElsewhere(p, s, t, pc); }
  }

  lemma ThreadLoads(p: Params, s: State, t: Thread, pc: Pc)
    requires p.Valid() && Loads(p, s) && At(s, t, pc)
    requires |s.h.inflight.Keys| <= p.maxThreads && Sum(s.h.inflight) <= p.budget
    ensures Loads(p, ThreadStep(p, s, t, pc))
  {
    if pc.Full? {
      ReplaceLoads(p, s);
    } else if pc.Unindexed? {
      DeleteLoads(p, s, t, pc);
    } else {
      ThreadElsewhere(p, s, t, pc);
      if pc.Locked? {
        AddLoad(p, s, t, pc);
        AddCounter(p, s, t, pc);
      } else if pc.Reserved? || pc.Indexed? {
        UnopenLoad(p, s.cur, t, pc.id);
      }
    }
  }

  lemma DeleteLoads(p: Params, s: State, t: Thread, pc: Pc)
    requires Loads(p, s) && ThreadOk(s, t, pc) && pc.Unindexed?
    ensures Loads(p, ThreadStep(p, s, t, pc))
  {
    ItemsLoad(p, s.past[pc.b], s.past[pc.b].items - {pc.id});
  }

  lemma ReplaceLoads(p: Params, s: State)
    requires Loads(p, s)
    ensures Loads(p, s.Replace())
  {
    assert LoadOk(p, NEW_BATCH) && CounterOk(NEW_BATCH);
    assert LoadOk(p, s.cur.(enqueued := true));
  }

  lemma ThreadAccounts(p: Params, s: State, t: Thread, pc: Pc)
    requires Accounts(p, s) && At(s, t, pc)
    ensures Accounts(p, ThreadStep(p, s, t, pc))
  {
    if pc.Rejected? || pc.Notifying? {
      ReleaseAccounts(p, s, t, pc);
    } else if pc.Reserved? && pc.id !in s.keys {
      IndexAccounts(p, s, t, pc.id, pc.sz, pc.b);
    } else if pc.Removing? && pc.id in s.keys {
      UnindexAccounts(p, s, t, pc.id);
    } else {
      Unbilled(p, s, t, pc);
    }
  }

  lemma Unbilled(p: Params, s: State, t: Thread, pc: Pc)
    requires !pc.Rejected? && !pc.Notifying? && ((pc.Reserved? || pc.Removing?) ==> (pc.Reserved? <==> pc.id in s.keys))
    ensures var s' := ThreadStep(p, s, t, pc);
            (s'.h.inflight, s'.h.leaving, s'.keys, s'.permits, s'.poolSize)
            == (s.h.inflight, s.h.leaving, s.keys, s.permits, s.poolSize)
  {
  }

  // Fetch and Prune

  lemma {:induction false} PickSkipsEmpty(s: State, i: nat, j: nat)
    requires i <= |s.ready| && i <= j < Pick(s, i)
    ensures s.Get(s.ready[j]).items == map[]
    decreases |s.ready| - i
  {
    if i < j { PickSkipsEmpty(s, i + 1, j); }
  }

  /** Under the write lock, the ids of unfetched batch b are exactly its items. */
  lemma UnfetchedItems(s: State, id: Id, b: nat)
    requires Links(s) && NoReaders(s) && s.h.first <= b <= |s.past|
    ensures id in s.Get(b).items <==> id in s.keys && s.keys[id] == b
  {
    assert id in s.keys ==> IdOk(s, id, s.keys[id]);
    assert id in s.Get(b).items ==> ItemOk(s, b, id);
  }

  /** No id is indexed under a batch that Fetch skips. */
  lemma SkippedIds(s: State, id: Id)
    requires QueueOk(s) && Links(s) && NoReaders(s) && id in s.keys
    ensures id in s.h.outstanding <==> s.keys[id] < s.h.first
    ensures s.keys[id] < s.h.first || s.h.first + Pick(s, 0) <= s.keys[id] <= |s.past|
  {
    assert IdOk(s, id, s.keys[id]);
    if s.h.first <= s.keys[id] < s.h.first + Pick(s, 0) {
      PickSkipsEmpty(s, 0, s.keys[id] - s.h.first);
      UnfetchedItems(s, id, s.keys[id]);
    }
  }

  /** A fetch returns the ids indexed under the first unfetched batch that is not empty. */
  lemma FetchedExactly(s: State, id: Id)
    requires QueueOk(s) && Links(s) && NoReaders(s)
    requires Pick(s, 0) < |s.ready| || s.cur.packed != 0
    ensures id in FetchedIds(s) <==> id in s.keys && s.keys[id] == s.h.first + Pick(s, 0)
  {
    UnfetchedItems(s, id, s.h.first + Pick(s, 0));
  }

  lemma FetchHistory(s: State)
    ensures FetchStep(s).h.outstanding == s.h.outstanding + FetchedIds(s)
    ensures FetchStep(s).h.first ==
            s.h.first + Pick(s, 0) + if Pick(s, 0) < |s.ready| || s.cur.packed != 0 then 1 else 0
  {
  }

  lemma FetchOutstanding(s: State)
    requires QueueOk(s) && Links(s) && NoReaders(s)
    ensures forall id | id in s.keys :: id in FetchStep(s).h.outstanding <==> s.keys[id] < FetchStep(s).h.first
    ensures forall id | id in FetchStep(s).h.outstanding :: id in s.keys
  {
    FetchHistory(s);
    forall id | id in s.keys
      ensures id in FetchStep(s).h.outstanding <==> s.keys[id] < FetchStep(s).h.first
    {
      SkippedIds(s, id);
      if Pick(s, 0) < |s.ready| || s.cur.packed != 0 { FetchedExactly(s, id); }
    }
    forall id | id in FetchedIds(s) ensures id in s.keys { FetchedExactly(s, id); }
  }

  lemma FetchLinks(s: State)
    requires QueueOk(s) && Links(s) && NoReaders(s)
    ensures Links(FetchStep(s))
  {
    FetchOutstanding(s);
    if TakesCurrent(s) {
      ReplaceLinks(s, FetchStep(s));
    } else {
      DequeueLinks(s, FetchStep(s));
    }
  }

  lemma FetchLoads(p: Params, s: State)
    requires Loads(p, s)
    ensures Loads(p, FetchStep(s))
  {
    ReplaceLoads(p, s);
  }

  lemma PruneLoads(p: Params, s: State, doomed: set<Id>)
    requires Loads(p, s)
    ensures Loads(p, PruneStep(s, doomed))
  {
    var s' := PruneStep(s, doomed);
    ItemsLoad(p, s.cur, s'.cur.items);
    forall b | 0 <= b < |s'.past| ensures LoadOk(p, s'.past[b]) { ItemsLoad(p, s.past[b], s'.past[b].items); }
  }

  lemma StepLinks(p: Params, s: State, step: Step)
    requires QueueOk(s) && Links(s) && Enabled(p, s, step)
    ensures Links(Apply(p, s, step))
  {
    if step.Submit? || step.Remove? || step.Go? { assert ThreadOk(s, step.t, s.threads[step.t]); }
    match step
    case Submit(t, id, sz) => MoveLinks(s, t, Idle, Start(id, sz), Apply(p, s, step));
    case Remove(t, id) => MoveLinks(s, t, Idle, Removing(id), Apply(p, s, step));
    case Go(t) => ThreadLinks(p, s, t, s.threads[t]);
    case Fetch => FetchLinks(s);
    case Prune(doomed) => PruneLinks(s, doomed);
  }

  lemma FetchQueue(s: State)
    requires QueueOk(s)
    ensures QueueOk(FetchStep(s))
  {
  }

  lemma StepQueue(p: Params, s: State, step: Step)
    requires QueueOk(s) && Links(s) && Enabled(p, s, step)
    ensures QueueOk(Apply(p, s, step))
  {
    match step
    case Submit(t, id, sz) =>
    case Remove(t, id) =>
    case Go(t) =>
      assert ThreadOk(s, t, s.threads[t]);
      ThreadQueue(p, s, t, s.threads[t]);
    case Fetch => FetchQueue(s);
    case Prune(doomed) =>
  }

  lemma StepLoads(p: Params, s: State, step: Step)
    requires p.Valid() && Inv(p, s) && Enabled(p, s, step)
    ensures Loads(p, Apply(p, s, step))
  {
    match step
    case Go(t) =>
      assert ThreadOk(s, t, s.threads[t]);
      ThreadLoads(p, s, t, s.threads[t]);
    case Fetch => FetchLoads(p, s);
    case Prune(doomed) => PruneLoads(p, s, doomed);
    case _ =>
  }

  lemma StepAccounts(p: Params, s: State, step: Step)
    requires Links(s) && Accounts(p, s) && Enabled(p, s, step)
    ensures Accounts(p, Apply(p, s, step))
  {
    if step.Submit? || step.Go? { assert ThreadOk(s, step.t, s.threads[step.t]); }
    match step
    case Submit(t, id, sz) => SubmitAccounts(p, s, t, id, sz);
    case Remove(t, id) =>
    case Go(t) => ThreadAccounts(p, s, t, s.threads[t]);
    case Fetch =>
    case Prune(doomed) => PruneAccounts(p, s, doomed);
  }

  /** Every step keeps the invariant. */
  lemma StepInv(p: Params, s: State, step: Step)
    requires p.Valid() && Inv(p, s) && Enabled(p, s, step)
    ensures Inv(p, Apply(p, s, step))
  {
    StepQueue(p, s, step);
    StepLinks(p, s, step);
    StepLoads(p, s, step);
    StepAccounts(p, s, step);
  }

  // ---------- Runs ----------

  /** Any finite interleaving, from the empty store. */
  ghost predicate IsRun(p: Params, run: seq<State>, steps: seq<Step>, threads: set<Thread>) {
    && |run| == |steps| + 1
    && run[0] == Init(threads)
    && forall i {:trigger steps[i]} | 0 <= i < |steps| :: Next(p, run[i], steps[i], run[i + 1])
  }

  ghost predicate Next(p: Params, s: State, step: Step, s': State) { Enabled(p, s, step) && s' == Apply(p, s, step) }

  /** s occurs in some run. */
  ghost predicate Reachable(p: Params, s: State) {
    exists run, steps, threads :: IsRun(p, run, steps, threads) && s in run
  }

  lemma NextInv(p: Params, s: State, step: Step, s': State)
    requires p.Valid() && Inv(p, s) && Next(p, s, step, s')
    ensures Inv(p, s')
  {
    StepInv(p, s, step);
  }

  lemma {:induction false} RunInv(p: Params, run: seq<State>, steps: seq<Step>, threads: set<Thread>, i: nat)
    requires p.Valid() && IsRun(p, run, steps, threads) && i < |run|
    ensures Inv(p, run[i])
  {
    if i == 0 {
      InitInv(p, threads);
    } else {
      var k := i - 1;
      RunInv(p, run, steps, threads, k);
      assert Next(p, run[k], steps[k], run[k + 1]);
      NextInv(p, run[k], steps[k], run[k + 1]);
    }
  }

  lemma ReachableInv(p: Params, s: State)
    requires p.Valid() && Reachable(p, s)
    ensures Inv(p, s)
  {
    var run, steps, threads :| IsRun(p, run, steps, threads) && s in run;
    var i :| 0 <= i < |run| && run[i] == s;
    RunInv(p, run, steps, threads, i);
  }

  /**
   * No batch is dropped or queued twice: a batch is not marked enqueued exactly when it is the current
   * one, and every other batch was either fetched or stands once in the ready queue.
   */
  lemma EveryBatchOnce(p: Params, s: State, b: nat)
    requires p.Valid() && Reachable(p, s) && b <= |s.past|
    ensures !s.Get(b).enqueued <==> b == |s.past|
    ensures b in s.ready <==> s.h.first <= b < |s.past|
    ensures forall i, j | 0 <= i < j < |s.ready| :: s.ready[i] < s.ready[j]
  {
    ReachableInv(p, s);
    if s.h.first <= b < |s.past| { assert s.ready[b - s.h.first] == b; }
  }

  /**
   * An id that was inserted and not removed sits in its batch, or its inserter is about to store it
   * there.  It sits in no other batch, ready, current or fetched, unless a removal has taken it out of the
   * index and is about to delete it from a fetched batch.
   */
  lemma EveryIdOnce(p: Params, s: State, id: Id, b: nat)
    requires p.Valid() && Reachable(p, s) && b <= |s.past|
    ensures id in s.keys ==> s.keys[id] <= |s.past|
    ensures id in s.keys && id !in s.Get(s.keys[id]).items ==>
              exists t :: t in s.threads && s.threads[t].Indexed? && s.threads[t].id == id
    ensures id in s.Get(b).items ==>
              || (id in s.keys && s.keys[id] == b)
              || (b < s.h.first && exists t :: t in s.threads && s.threads[t] == Unindexed(id, b))
  {
    ReachableInv(p, s);
    assert id in s.keys ==> IdOk(s, id, s.keys[id]);
    assert id in s.Get(b).items ==> ItemOk(s, b, id);
  }

  /** A fetch returns ids that no earlier fetch returned, unless they were removed in between. */
  lemma FetchOnce(p: Params, s: State)
    requires p.Valid() && Reachable(p, s) && NoReaders(s)
    ensures FetchedIds(s) !! s.h.outstanding
    ensures FetchStep(s).h.outstanding == s.h.outstanding + FetchedIds(s)
  {
    ReachableInv(p, s);
    FetchHistory(s);
    forall id | id in FetchedIds(s) ensures id !in s.h.outstanding {
      FetchedExactly(s, id);
      SkippedIds(s, id);
    }
  }

  /** Every batch stays within the configured number of requests and of bytes. */
  lemma BatchWithinLimits(p: Params, s: State, b: nat)
    requires p.Valid() && Reachable(p, s) && b <= |s.past|
    ensures |s.Get(b).items.Keys| <= p.maxCount && Sum(s.Get(b).items) <= p.maxBytes
  {
    ReachableInv(p, s);
    assert LoadOk(p, s.Get(b));
  }

  /**
   * For a thread about to add to the counter, the test on the packed halves is the test on the true
   * totals: additions in flight never carry from one half into the other.
   */
  lemma CounterTestExact(p: Params, s: State, t: Thread)
    requires p.Valid() && Reachable(p, s) && t in s.threads && s.threads[t].Locked?
    ensures var x := s.cur;
            Fits(p, Added(x.packed, s.threads[t].sz)) <==>
            x.okCount + |x.over.Keys| + 1 <= p.maxCount && x.okBytes + Sum(x.over) + s.threads[t].sz <= p.maxBytes
  {
    ReachableInv(p, s);
    assert ThreadOk(s, t, s.threads[t]);
    CounterTest(p, s, t, s.threads[t]);
  }

  ghost predicate Quiescent(s: State) {
    forall t | t in s.threads :: s.threads[t].Idle?
  }

  /** When no operation is in flight, permits, Pool.size and the ids held agree, within capacity. */
  lemma QuiescentAccounts(p: Params, s: State)
    requires p.Valid() && Reachable(p, s) && Quiescent(s)
    ensures s.permits == s.poolSize == |s.keys.Keys| <= p.capacity
  {
    ReachableInv(p, s);
    forall t ensures t !in s.h.inflight && t !in s.h.leaving {
      assert t in s.threads ==> ThreadOk(s, t, s.threads[t]);
    }
    assert s.h.inflight.Keys == {} && s.h.leaving.Keys == {};
  }

  // ---------- A lone insert ----------

  /** The next state of a step that thread t may take. */
  ghost predicate Goes(p: Params, s: State, t: Thread, s': State) {
    Enabled(p, s, Go(t)) && s' == ThreadStep(p, s, t, s.threads[t]) && t in s'.threads
  }

  /** The lock, the addition to the counter, and the write lock as the batch is full: a round without success. */
  ghost predicate FailedRound(p: Params, s: State, t: Thread, s': State) {
    exists s1, s2 :: Goes(p, s, t, s1) && Goes(p, s1, t, s2) && s2.threads[t].Full? && Goes(p, s2, t, s')
  }

  /** The lock and the addition, after which there is room. */
  ghost predicate FindsRoom(p: Params, s: State, t: Thread) {
    exists s1, s2 :: Goes(p, s, t, s1) && Goes(p, s1, t, s2) && s2.threads[t].Reserved?
  }

  /** A thread at the start of its insert, while nobody else reads or writes. */
  ghost predicate Alone(s: State, t: Thread, sz: nat) {
    QueueOk(s) && NoReaders(s) && t in s.threads && s.threads[t].Start? && s.threads[t].sz == sz
  }

  /**
   * A round fails exactly if the request does not fit, and then the insert is back at its start, with an empty batch.
   */
  lemma LoneRound(p: Params, s: State, t: Thread, sz: nat) returns (s': State)
    requires Alone(s, t, sz)
    ensures FindsRoom(p, s, t) <==> Fits(p, Added(s.cur.packed, sz))
    ensures !Fits(p, Added(s.cur.packed, sz)) ==> FailedRound(p, s, t, s') && Alone(s', t, sz) && s'.cur == NEW_BATCH
  {
    var s1 := s.(threads := s.threads[t := Locked(s.threads[t].id, sz)]);
    assert Goes(p, s, t, s1);
    var s2 := ThreadStep(p, s1, t, s1.threads[t]);
    assert Goes(p, s1, t, s2);
    s' := s;
    if !Fits(p, Added(s.cur.packed, sz)) {
      s' := ThreadStep(p, s2, t, s2.threads[t]);
      assert Goes(p, s2, t, s');
    }
  }

  /** Failed rounds of a lone insert, one after the other, in none of which it finds room. */
  ghost predicate FailedRounds(p: Params, t: Thread, run: seq<State>) {
    && run != []
    && (|run| > 1 ==> !FindsRoom(p, run[0], t) && FailedRound(p, run[0], t, run[1]) && FailedRounds(p, t, run[1..]))
  }

  lemma {:induction false} TriesForever(p: Params, s: State, t: Thread, sz: nat, k: nat) returns (run: seq<State>)
    requires Alone(s, t, sz) && s.cur.packed == 0 && sz < TWO_32 && (p.maxCount == 0 || sz > p.maxBytes)
    ensures FailedRounds(p, t, run) && |run| == k + 1 && run[0] == s
    decreases k
  {
    run := [s];
    CounterDecodes(p, 0, 0, sz);
    var s' := LoneRound(p, s, t, sz);
    if k > 0 {
      var rest := TriesForever(p, s', t, sz, k - 1);
      run := [s] + rest;
      assert run[1..] == rest;
    }
  }

  /**
   * A lone insert finds room, in its first or its second round, exactly when batches of one request are allowed and the
   * request is not larger than a batch; otherwise it can go on failing for any number of rounds.  (The pool compares a
   * request with RequestMaxBytes only.)
   */
  lemma LoneInsertEndsExactly(p: Params, s: State, t: Thread, sz: nat, count: nat, bytes: nat, k: nat)
    returns (run: seq<State>)
    requires Alone(s, t, sz) && s.cur.packed == count * TWO_32 + bytes
    requires count + 1 < TWO_32 && bytes + sz < TWO_32
    ensures FailedRounds(p, t, run) && run[0] == s
    ensures if 1 <= p.maxCount && sz <= p.maxBytes then |run| <= 2 && FindsRoom(p, run[|run| - 1], t)
            else |run| == k + 1
  {
    CounterDecodes(p, count, bytes, sz);
    CounterDecodes(p, 0, 0, sz);
    run := [s];
    var s' := LoneRound(p, s, t, sz);
    if 1 <= p.maxCount && sz <= p.maxBytes {
      if !Fits(p, Added(s.cur.packed, sz)) {
        var _ := LoneRound(p, s', t, sz);
        run := [s] + [s'];
        assert run[1..] == [s'];
      }
    } else if k > 0 {
      var rest := TriesForever(p, s', t, sz, k - 1);
      run := [s] + rest;
      assert run[1..] == rest;
    }
  }

  lemma ReservedGoes(p: Params, s: State, t: Thread) returns (s': State)
    requires t in s.threads && s.threads[t].Reserved? && s.threads[t].b == |s.past|
    ensures Goes(p, s, t, s') && s.threads[t].id in s'.keys && |s'.past| == |s.past|
    ensures s'.threads[t].Rejected? || (s'.threads[t].Indexed? && s'.threads[t].b == |s'.past|)
  {
    s' := ThreadStep(p, s, t, s.threads[t]);
  }

  lemma LastGoes(p: Params, s: State, t: Thread) returns (s': State)
    requires t in s.threads && (s.threads[t].Rejected? || (s.threads[t].Indexed? && s.threads[t].b == |s.past|))
    ensures Goes(p, s, t, s') && s'.threads[t].Idle? && s'.keys == s.keys
  {
    s' := ThreadStep(p, s, t, s.threads[t]);
  }

  /** An insert that has found room ends after two more steps, and its id is indexed, whether it was new or not. */
  lemma RoomEndsInsert(p: Params, s: State, t: Thread) returns (s1: State, s2: State)
    requires t in s.threads && s.threads[t].Reserved? && s.threads[t].b == |s.past|
    ensures Goes(p, s, t, s1) && Goes(p, s1, t, s2) && s2.threads[t].Idle? && s.threads[t].id in s2.keys
  {
    s1 := ReservedGoes(p, s, t);
    s2 := LastGoes(p, s1, t);
  }

  /** These steps lead from s to s'. */
  ghost predicate Leads(p: Params, s: State, steps: seq<Step>, s': State)
    decreases |steps|
  {
    if steps == [] then s' == s
    else Enabled(p, s, steps[0]) && Leads(p, Apply(p, s, steps[0]), steps[1..], s')
  }

  lemma ReachableStep(p: Params, s: State, step: Step)
    requires Reachable(p, s) && Enabled(p, s, step)
    ensures Reachable(p, Apply(p, s, step))
  {
    var run, steps, threads :| IsRun(p, run, steps, threads) && s in run;
    var i :| 0 <= i < |run| && run[i] == s;
    var s' := Apply(p, s, step);
    assert Next(p, s, step, s');
    var run', steps' := run[..i + 1] + [s'], steps[..i] + [step];
    forall j | 0 <= j < |steps'| ensures Next(p, run'[j], steps'[j], run'[j + 1]) {
      assert j < i ==> Next(p, run[j], steps[j], run[j + 1]);
    }
    assert IsRun(p, run', steps', threads);
    assert run'[i + 1] == s';
  }

  lemma {:induction false} ReachableLeads(p: Params, s: State, steps: seq<Step>, s': State)
    requires Reachable(p, s) && Leads(p, s, steps, s')
    ensures Reachable(p, s')
    decreases |steps|
  {
    if steps != [] {
      ReachableStep(p, s, steps[0]);
      ReachableLeads(p, Apply(p, s, steps[0]), steps[1..], s');
    }
  }

  // ---------- Progress under contention ----------

  /** A thread adds to the counter of the current batch. */
  predicate Adds(s: State, step: Step) { step.Go? && step.t in s.threads && s.threads[step.t].Locked? }

  /** It finds no room, and has to try again. */
  predicate Fails(p: Params, s: State, step: Step) {
    Adds(s, step) && !Fits(p, Added(s.cur.packed, s.threads[step.t].sz))
  }

  /** It finds room, and two steps later its insert ends. */
  predicate Succeeds(p: Params, s: State, step: Step) {
    Adds(s, step) && Fits(p, Added(s.cur.packed, s.threads[step.t].sz))
  }

  /** How many of these steps, from s on, fail. */
  ghost function Failures(p: Params, s: State, steps: seq<Step>): nat
    decreases |steps|
  {
    if steps == [] || !Enabled(p, s, steps[0]) then 0
    else (if Fails(p, s, steps[0]) then 1 else 0) + Failures(p, Apply(p, s, steps[0]), steps[1..])
  }

  ghost function Successes(p: Params, s: State, steps: seq<Step>): nat
    decreases |steps|
  {
    if steps == [] || !Enabled(p, s, steps[0]) then 0
    else (if Succeeds(p, s, steps[0]) then 1 else 0) + Successes(p, Apply(p, s, steps[0]), steps[1..])
  }

  ghost function Overs(bs: seq<Batch>): nat {
    if bs == [] then 0 else Overs(bs[..|bs| - 1]) + |bs[|bs| - 1].over.Keys|
  }

  ghost function Oks(bs: seq<Batch>): nat {
    if bs == [] then 0 else Oks(bs[..|bs| - 1]) + bs[|bs| - 1].okCount
  }

  ghost function Batches(s: State): seq<Batch> { s.past + [s.cur] }

  /** The additions made to a batch are the same. */
  predicate SameLoad(x: Batch, y: Batch) { y.over == x.over && y.okCount == x.okCount && y.okBytes == x.okBytes }

  ghost predicate SameLoads(bs: seq<Batch>, bs': seq<Batch>) {
    |bs'| == |bs| && forall b | 0 <= b < |bs| :: SameLoad(bs[b], bs'[b])
  }

  lemma {:induction false} SameTotals(bs: seq<Batch>, bs': seq<Batch>)
    requires SameLoads(bs, bs')
    ensures Overs(bs') == Overs(bs) && Oks(bs') == Oks(bs)
    decreases |bs|
  {
    if bs != [] { SameTotals(bs[..|bs| - 1], bs'[..|bs| - 1]); }
  }

  lemma TotalsMore(bs: seq<Batch>, x: Batch)
    ensures Overs(bs + [x]) == Overs(bs) + |x.over.Keys| && Oks(bs + [x]) == Oks(bs) + x.okCount
  {
    assert (bs + [x])[..|bs|] == bs;
  }

  /** Each batch is as it was, and possibly a new one follows. */
  ghost predicate OnlyReplaced(s: State, s': State) {
    SameLoads(Batches(s), Batches(s')) || (SameLoads(Batches(s), s'.past) && s'.cur == NEW_BATCH)
  }

  lemma ThreadReplaces(p: Params, s: State, t: Thread, pc: Pc)
    requires At(s, t, pc) && !pc.Locked?
    ensures OnlyReplaced(s, ThreadStep(p, s, t, pc))
  {
    var s' := ThreadStep(p, s, t, pc);
    match pc
    case Idle =>
    case Start(id, sz) =>
    case Reserved(id, sz, b) => assert s'.past == s.past && SameLoad(s.cur, s'.cur);
    case Indexed(id, sz, b) => assert s'.past == s.past && SameLoad(s.cur, s'.cur);
    case Full(id, sz, b) =>
    case Rejected(id, sz) =>
    case Removing(id) =>
    case Unindexed(id, b) =>
    case Notifying(id) =>
  }

  lemma StepReplaces(p: Params, s: State, step: Step)
    requires Links(s) && Enabled(p, s, step) && !Adds(s, step)
    ensures OnlyReplaced(s, Apply(p, s, step))
  {
    match step
    case Submit(t, id, sz) =>
    case Remove(t, id) =>
    case Go(t) =>
      assert ThreadOk(s, t, s.threads[t]);
      ThreadReplaces(p, s, t, s.threads[t]);
    case Fetch => FetchReplaces(s);
    case Prune(doomed) => PruneReplaces(s, doomed);
  }

  lemma FetchReplaces(s: State)
    ensures OnlyReplaced(s, FetchStep(s))
  {
  }

  lemma PruneReplaces(s: State, doomed: set<Id>)
    ensures OnlyReplaced(s, PruneStep(s, doomed))
  {
  }

  /** What overflowed a batch came after something that fitted, and every call at most once. */
  ghost predicate BatchPaid(p: Params, x: Batch) {
    (x.okCount == 0 ==> x.okBytes == 0 && x.over == map[]) && |x.over.Keys| <= p.maxThreads
  }

  ghost predicate Paid(p: Params, s: State) {
    && (forall b | 0 <= b < |Batches(s)| :: BatchPaid(p, Batches(s)[b]))
    && (forall t | t in s.h.inflight :: s.h.inflight[t] <= p.maxBytes)
  }

  /** No request is larger than a batch. */
  predicate Modest(p: Params, step: Step) { step.Submit? ==> step.sz <= p.maxBytes }

  lemma ReplacedPaid(p: Params, s: State, s': State)
    requires OnlyReplaced(s, s') && forall b | 0 <= b < |Batches(s)| :: BatchPaid(p, Batches(s)[b])
    ensures forall b | 0 <= b < |Batches(s')| :: BatchPaid(p, Batches(s')[b])
    ensures Overs(Batches(s')) == Overs(Batches(s)) && Oks(Batches(s')) == Oks(Batches(s))
  {
    if SameLoads(Batches(s), Batches(s')) {
      SameTotals(Batches(s), Batches(s'));
      forall b | 0 <= b < |Batches(s')| ensures BatchPaid(p, Batches(s')[b]) { assert BatchPaid(p, Batches(s)[b]); }
    } else {
      SameTotals(Batches(s), s'.past);
      TotalsMore(s'.past, s'.cur);
      forall b | 0 <= b < |s'.past| ensures BatchPaid(p, s'.past[b]) { assert BatchPaid(p, Batches(s)[b]); }
    }
  }

  /** A request that is not larger than a batch fits an unused one. */
  lemma FailureIsPaid(p: Params, s: State, t: Thread, pc: Pc)
    requires p.Valid() && Inv(p, s) && At(s, t, pc) && pc.Locked? && 1 <= p.maxCount && pc.sz <= p.maxBytes
    requires BatchPaid(p, s.cur) && !Fits(p, Added(s.cur.packed, pc.sz))
    ensures s.cur.okCount >= 1
  {
    if s.cur.okCount == 0 {
      assert s.cur.packed == 0;
      CounterDecodes(p, 0, 0, pc.sz);
    }
  }

  lemma AddPaid(p: Params, s: State, t: Thread, pc: Pc)
    requires p.Valid() && Inv(p, s) && At(s, t, pc) && pc.Locked? && 1 <= p.maxCount && pc.sz <= p.maxBytes
    requires BatchPaid(p, s.cur)
    ensures var s' := ThreadStep(p, s, t, pc);
            var fits := Fits(p, Added(s.cur.packed, pc.sz));
            && BatchPaid(p, s'.cur) && s'.past == s.past && s'.h.inflight == s.h.inflight
            && s'.cur.okCount == s.cur.okCount + (if fits then 1 else 0)
            && |s'.cur.over.Keys| == |s.cur.over.Keys| + (if fits then 0 else 1)
  {
    OverInFlight(s, t, pc);
    var s' := ThreadStep(p, s, t, pc);
    if !Fits(p, Added(s.cur.packed, pc.sz)) {
      FailureIsPaid(p, s, t, pc);
      assert s'.cur.over.Keys == s.cur.over.Keys + {t};
    }
  }

  lemma AddStepPaid(p: Params, s: State, step: Step)
    requires p.Valid() && 1 <= p.maxCount && Inv(p, s) && Paid(p, s) && Enabled(p, s, step) && Adds(s, step)
    ensures var s' := Apply(p, s, step);
            && Paid(p, s')
            && Overs(Batches(s')) == Overs(Batches(s)) + (if Fails(p, s, step) then 1 else 0)
            && Oks(Batches(s')) == Oks(Batches(s)) + (if Succeeds(p, s, step) then 1 else 0)
  {
    var s', pc := Apply(p, s, step), s.threads[step.t];
    assert ThreadOk(s, step.t, pc);
    assert BatchPaid(p, Batches(s)[|s.past|]);
    AddPaid(p, s, step.t, pc);
    TotalsMore(s.past, s.cur);
    TotalsMore(s'.past, s'.cur);
    forall b | 0 <= b < |Batches(s')| ensures BatchPaid(p, Batches(s')[b]) {
      assert b < |s.past| ==> BatchPaid(p, Batches(s)[b]);
    }
  }

  /** Only a submission starts an insert. */
  lemma InFlightModest(p: Params, s: State, step: Step)
    requires Enabled(p, s, step) && Modest(p, step) && !Adds(s, step)
    requires forall t | t in s.h.inflight :: s.h.inflight[t] <= p.maxBytes
    ensures forall t | t in Apply(p, s, step).h.inflight :: Apply(p, s, step).h.inflight[t] <= p.maxBytes
  {
    match step
    case Submit(t, id, sz) =>
    case Remove(t, id) =>
    case Go(t) => ThreadInFlight(p, s, t, s.threads[t]);
    case Fetch =>
    case Prune(doomed) =>
  }

  lemma ThreadInFlight(p: Params, s: State, t: Thread, pc: Pc)
    ensures var s' := ThreadStep(p, s, t, pc);
            s'.h.inflight == s.h.inflight || s'.h.inflight == s.h.inflight - {t}
  {
    match pc
    case Idle =>
    case Start(id, sz) =>
    case Locked(id, sz) =>
    case Reserved(id, sz, b) =>
    case Indexed(id, sz, b) =>
    case Full(id, sz, b) =>
    case Rejected(id, sz) =>
    case Removing(id) =>
    case Unindexed(id, b) =>
    case Notifying(id) =>
  }

  lemma StepPaid(p: Params, s: State, step: Step)
    requires p.Valid() && 1 <= p.maxCount && Inv(p, s) && Paid(p, s) && Enabled(p, s, step) && Modest(p, step)
    ensures var s' := Apply(p, s, step);
            && Paid(p, s')
            && Overs(Batches(s')) == Overs(Batches(s)) + (if Fails(p, s, step) then 1 else 0)
            && Oks(Batches(s')) == Oks(Batches(s)) + (if Succeeds(p, s, step) then 1 else 0)
  {
    if Adds(s, step) {
      AddStepPaid(p, s, step);
    } else {
      StepReplaces(p, s, step);
      ReplacedPaid(p, s, Apply(p, s, step));
      InFlightModest(p, s, step);
    }
  }

  /** So many additions have failed and succeeded, and each is on record. */
  ghost predicate Tallied(p: Params, s: State, failures: nat, successes: nat) {
    Paid(p, s) && Overs(Batches(s)) == failures && Oks(Batches(s)) == successes
  }

  lemma InitTallied(p: Params, threads: set<Thread>)
    ensures Tallied(p, Init(threads), 0, 0)
  {
    TotalsMore([], NEW_BATCH);
    assert Batches(Init(threads)) == [] + [NEW_BATCH];
  }

  lemma StepTallied(p: Params, s: State, step: Step, failures: nat, successes: nat)
    requires p.Valid() && 1 <= p.maxCount && Inv(p, s) && Tallied(p, s, failures, successes)
    requires Enabled(p, s, step) && Modest(p, step)
    ensures Inv(p, Apply(p, s, step))
    ensures Tallied(p, Apply(p, s, step), failures + (if Fails(p, s, step) then 1 else 0),
                    successes + (if Succeeds(p, s, step) then 1 else 0))
  {
    StepInv(p, s, step);
    StepPaid(p, s, step);
  }

  ghost predicate AllModest(p: Params, steps: seq<Step>) { forall i | 0 <= i < |steps| :: Modest(p, steps[i]) }

  lemma {:induction false} LeadsTallied(p: Params, s: State, steps: seq<Step>, s': State, failures: nat, successes: nat)
    requires p.Valid() && 1 <= p.maxCount && Inv(p, s) && Leads(p, s, steps, s') && Tallied(p, s, failures, successes)
    requires AllModest(p, steps)
    ensures Tallied(p, s', failures + Failures(p, s, steps), successes + Successes(p, s, steps))
    decreases |steps|
  {
    if steps != [] {
      var next, rest := Apply(p, s, steps[0]), steps[1..];
      StepTallied(p, s, steps[0], failures, successes);
      assert AllModest(p, rest) && Leads(p, next, rest, s');
      var f := failures + if Fails(p, s, steps[0]) then 1 else 0;
      var g := successes + if Succeeds(p, s, steps[0]) then 1 else 0;
      LeadsTallied(p, next, rest, s', f, g);
    }
  }

  lemma {:induction false} PaidTotals(p: Params, bs: seq<Batch>)
    requires forall b | 0 <= b < |bs| :: BatchPaid(p, bs[b])
    ensures Overs(bs) <= p.maxThreads * Oks(bs)
    decreases |bs|
  {
    if bs != [] {
      var k := |bs| - 1;
      PaidTotals(p, bs[..k]);
      assert BatchPaid(p, bs[k]);
      assert |bs[k].over.Keys| <= p.maxThreads * bs[k].okCount;
      var before, last := Oks(bs[..k]), bs[k].okCount;
      assert p.maxThreads * (before + last) == p.maxThreads * before + p.maxThreads * last;
    }
  }

  lemma TalliedPays(p: Params, s: State, failures: nat, successes: nat)
    requires Tallied(p, s, failures, successes)
    ensures failures <= p.maxThreads * successes
  {
    PaidTotals(p, Batches(s));
  }

  /**
   * No livelock: over every run, whatever the contention, the rounds that failed are at most maxThreads
   * times as many as those that found room, if batches of one request are allowed and no request is larger than a
   * batch.
   */
  lemma FailuresArePaid(p: Params, s: State, steps: seq<Step>, end: State, threads: set<Thread>)
    requires p.Valid() && 1 <= p.maxCount && s == Init(threads) && Leads(p, s, steps, end) && AllModest(p, steps)
    ensures Failures(p, s, steps) <= p.maxThreads * Successes(p, s, steps)
  {
    InitInv(p, threads);
    InitTallied(p, threads);
    LeadsTallied(p, s, steps, end, 0, 0);
    TalliedPays(p, end, Failures(p, s, steps), Successes(p, s, steps));
  }

  // ---------- A store filled anew ----------

  /** Nothing but the insert of thread t is in flight. */
  ghost predicate Only(s: State, t: Thread, pc: Pc) {
    t in s.threads && s.threads[t] == pc && forall x | x in s.threads && x != t :: s.threads[x].Idle?
  }

  /** The same ids are held, and the same of them were fetched. */
  ghost predicate SameIds(s: State, s': State) {
    s'.keys == s.keys && s'.h.outstanding == s.h.outstanding && s'.threads.Keys == s.threads.Keys
  }

  /** An insert begins, with a permit that was taken before. */
  function Begun(s: State, t: Thread, id: Id, sz: nat): State {
    s.(threads := s.threads[t := Start(id, sz)], h := s.h.(inflight := s.h.inflight[t := sz]))
  }

  /** The next n steps of thread t, alone; an idle thread does nothing. */
  function Finish(p: Params, s: State, t: Thread, n: nat): State
    decreases n
  {
    if n == 0 || t !in s.threads then s else Finish(p, ThreadStep(p, s, t, s.threads[t]), t, n - 1)
  }

  /** submitToBatchStore, alone, which takes at most n steps; a refused request releases its permit. */
  function Resubmit(p: Params, s: State, t: Thread, id: Id, sz: nat, n: nat): State {
    Finish(p, Begun(s, t, id, sz), t, n)
  }

  /** One after the other, until one is refused; the result says whether all were taken. */
  function ResubmitAll(p: Params, s: State, t: Thread, ids: seq<Id>, size: Id -> nat, n: nat): (State, bool) {
    if ids == [] then (s, true)
    else
      var k := |ids| - 1;
      var (r, ok) := ResubmitAll(p, s, t, ids[..k], size, n);
      if ok then (Resubmit(p, r, t, ids[k], size(ids[k]), n), ids[k] !in r.keys) else (r, false)
  }

  /** Two rounds, the first of which replaces the batch, and two more steps. */
  const INSERT_STEPS: nat := 7

  function Shift(s: State, k: int, m: int): State { s.(permits := s.permits + k, poolSize := s.poolSize + m) }

  predicate Submits(pc: Pc) { pc.Inserts() || pc.Indexed? || pc.Idle? }

  /** No step of an insert looks at the number of permits or at Pool.size. */
  lemma StepShift(p: Params, s: State, t: Thread, pc: Pc, k: int, m: int)
    requires Submits(pc)
    ensures ThreadStep(p, Shift(s, k, m), t, pc) == Shift(ThreadStep(p, s, t, pc), k, m)
  {
    match pc
    case Idle =>
    case Start(id, sz) =>
    case Locked(id, sz) =>
    case Reserved(id, sz, b) =>
    case Indexed(id, sz, b) =>
    case Full(id, sz, b) =>
    case Rejected(id, sz) =>
  }

  lemma StepContinues(p: Params, s: State, t: Thread, pc: Pc)
    requires Submits(pc) && t in s.threads && s.threads[t] == pc
    ensures var s' := ThreadStep(p, s, t, pc); t in s'.threads && Submits(s'.threads[t])
  {
    match pc
    case Idle =>
    case Start(id, sz) =>
    case Locked(id, sz) =>
    case Reserved(id, sz, b) =>
    case Indexed(id, sz, b) =>
    case Full(id, sz, b) =>
    case Rejected(id, sz) =>
  }

  lemma {:induction false} FinishShift(p: Params, s: State, t: Thread, n: nat, k: int, m: int)
    requires t in s.threads && Submits(s.threads[t])
    ensures Finish(p, Shift(s, k, m), t, n) == Shift(Finish(p, s, t, n), k, m)
    decreases n
  {
    if n > 0 {
      StepShift(p, s, t, s.threads[t], k, m);
      StepContinues(p, s, t, s.threads[t]);
      FinishShift(p, ThreadStep(p, s, t, s.threads[t]), t, n - 1, k, m);
    }
  }

  lemma ResubmitShift(p: Params, s: State, t: Thread, id: Id, sz: nat, n: nat, k: int, m: int)
    ensures Resubmit(p, Shift(s, k, m), t, id, sz, n) == Shift(Resubmit(p, s, t, id, sz, n), k, m)
  {
    assert Begun(Shift(s, k, m), t, id, sz) == Shift(Begun(s, t, id, sz), k, m);
    FinishShift(p, Begun(s, t, id, sz), t, n, k, m);
  }

  lemma {:induction false} FinishIdle(p: Params, s: State, t: Thread, n: nat)
    requires t in s.threads && s.threads[t].Idle?
    ensures Finish(p, s, t, n) == s
    decreases n
  {
    if n > 0 { FinishIdle(p, s, t, n - 1); }
  }

  lemma GoReachable(p: Params, s: State, t: Thread, n: nat) returns (s': State)
    requires Reachable(p, s) && Enabled(p, s, Go(t)) && n > 0
    ensures Reachable(p, s') && s' == ThreadStep(p, s, t, s.threads[t]) && Finish(p, s, t, n) == Finish(p, s', t, n - 1)
  {
    s' := Apply(p, s, Go(t));
    ReachableStep(p, s, Go(t));
  }

  lemma LockAlone(p: Params, s: State, t: Thread, id: Id, sz: nat)
    requires Only(s, t, Start(id, sz))
    ensures var s' := ThreadStep(p, s, t, s.threads[t]);
            Only(s', t, Locked(id, sz)) && SameIds(s, s') && (s'.cur, s'.past, s'.permits) == (s.cur, s.past, s.permits)
  {
  }

  lemma AddAlone(p: Params, s: State, t: Thread, id: Id, sz: nat)
    requires Only(s, t, Locked(id, sz))
    ensures var s' := ThreadStep(p, s, t, s.threads[t]);
            && SameIds(s, s') && s'.permits == s.permits && |s'.past| == |s.past| && s'.cur.enqueued == s.cur.enqueued
            && if Fits(p, Added(s.cur.packed, sz)) then Only(s', t, Reserved(id, sz, |s'.past|))
               else Only(s', t, Full(id, sz, |s'.past|))
  {
  }

  lemma ReplaceAlone(p: Params, s: State, t: Thread, id: Id, sz: nat)
    requires Only(s, t, Full(id, sz, |s.past|)) && !s.cur.enqueued
    ensures var s' := ThreadStep(p, s, t, s.threads[t]);
            Only(s', t, Start(id, sz)) && SameIds(s, s') && s'.permits == s.permits && s'.cur == NEW_BATCH
  {
  }

  lemma GoAlone(p: Params, s: State, t: Thread, pc: Pc, n: nat) returns (s': State)
    requires Reachable(p, s) && Only(s, t, pc) && Submits(pc) && n > 0
    ensures Reachable(p, s') && s' == ThreadStep(p, s, t, pc) && Finish(p, s, t, n) == Finish(p, s', t, n - 1)
  {
    s' := GoReachable(p, s, t, n);
  }

  /** The lock and the addition. */
  lemma Try(p: Params, s: State, t: Thread, id: Id, sz: nat, n: nat) returns (s': State)
    requires Reachable(p, s) && Only(s, t, Start(id, sz))
    ensures Reachable(p, s') && SameIds(s, s') && s'.permits == s.permits && s'.cur.enqueued == s.cur.enqueued
    ensures Finish(p, s, t, n + 2) == Finish(p, s', t, n)
    ensures if Fits(p, Added(s.cur.packed, sz)) then Only(s', t, Reserved(id, sz, |s'.past|))
            else Only(s', t, Full(id, sz, |s'.past|))
  {
    LockAlone(p, s, t, id, sz);
    var s1 := GoAlone(p, s, t, Start(id, sz), n + 2);
    AddAlone(p, s1, t, id, sz);
    s' := GoAlone(p, s1, t, Locked(id, sz), n + 1);
  }

  /** A round in a full batch, which is replaced. */
  lemma Round(p: Params, s: State, t: Thread, id: Id, sz: nat, n: nat) returns (s': State)
    requires p.Valid() && Reachable(p, s) && Only(s, t, Start(id, sz)) && !Fits(p, Added(s.cur.packed, sz))
    ensures Reachable(p, s') && SameIds(s, s') && s'.permits == s.permits
    ensures Only(s', t, Start(id, sz)) && s'.cur == NEW_BATCH && Finish(p, s, t, n + 3) == Finish(p, s', t, n)
  {
    ReachableInv(p, s);
    var s1 := Try(p, s, t, id, sz, n + 1);
    ReplaceAlone(p, s1, t, id, sz);
    s' := GoAlone(p, s1, t, Full(id, sz, |s1.past|), n + 1);
  }

  lemma Rounds(p: Params, s: State, t: Thread, id: Id, sz: nat, n: nat) returns (s': State, left: nat)
    requires p.Valid() && Reachable(p, s) && Only(s, t, Start(id, sz)) && 1 <= p.maxCount && sz <= p.maxBytes && n >= 5
    ensures Reachable(p, s') && SameIds(s, s') && Only(s', t, Reserved(id, sz, |s'.past|)) && s'.permits == s.permits
    ensures left >= n - 5 && Finish(p, s, t, n) == Finish(p, s', t, left)
  {
    CounterDecodes(p, 0, 0, sz);
    if Fits(p, Added(s.cur.packed, sz)) {
      s' := Try(p, s, t, id, sz, n - 2);
      left := n - 2;
    } else {
      var again := Round(p, s, t, id, sz, n - 3);
      s' := Try(p, again, t, id, sz, n - 5);
      left := n - 5;
    }
  }

  lemma SubmitAlone(p: Params, s: State, t: Thread, id: Id, sz: nat) returns (s': State)
    requires p.Valid() && Reachable(p, s) && Quiescent(s) && t in s.threads && s.permits < p.capacity
    requires 1 <= p.maxThreads && sz <= p.budget
    ensures Reachable(p, s') && SameIds(s, s') && Only(s', t, Start(id, sz)) && s' == Shift(Begun(s, t, id, sz), 1, 0)
  {
    ReachableInv(p, s);
    forall x ensures x !in s.h.inflight { assert x in s.threads ==> ThreadOk(s, x, s.threads[x]); }
    assert s.h.inflight.Keys == {};
    ReachableStep(p, s, Submit(t, id, sz));
    s' := Apply(p, s, Submit(t, id, sz));
  }

  lemma IndexAlone(p: Params, s: State, t: Thread, id: Id, sz: nat)
    requires Only(s, t, Reserved(id, sz, |s.past|)) && id !in s.keys
    ensures var s' := ThreadStep(p, s, t, s.threads[t]);
            && Only(s', t, Indexed(id, sz, |s'.past|)) && s'.threads.Keys == s.threads.Keys && s'.permits == s.permits
            && s'.keys.Keys == s.keys.Keys + {id} && s'.h.outstanding == s.h.outstanding
  {
  }

  lemma StoreAlone(p: Params, s: State, t: Thread, id: Id, sz: nat)
    requires Only(s, t, Indexed(id, sz, |s.past|))
    ensures var s' := ThreadStep(p, s, t, s.threads[t]); Quiescent(s') && SameIds(s, s') && s'.permits == s.permits
  {
  }

  lemma EndAlone(p: Params, s: State, t: Thread, id: Id, sz: nat, n: nat) returns (s': State)
    requires Reachable(p, s) && Only(s, t, Reserved(id, sz, |s.past|)) && id !in s.keys && n >= 2
    ensures Reachable(p, s') && Quiescent(s') && s'.threads.Keys == s.threads.Keys && s'.permits == s.permits
    ensures s'.keys.Keys == s.keys.Keys + {id} && s'.h.outstanding == s.h.outstanding
    ensures s' == Finish(p, s, t, n)
  {
    IndexAlone(p, s, t, id, sz);
    var s1 := GoAlone(p, s, t, Reserved(id, sz, |s.past|), n);
    StoreAlone(p, s1, t, id, sz);
    s' := GoAlone(p, s1, t, Indexed(id, sz, |s1.past|), n - 1);
    FinishIdle(p, s', t, n - 2);
  }

  /** Another request, put in by a thread that is alone. */
  lemma PutIn(p: Params, s: State, t: Thread, id: Id, sz: nat, n: nat) returns (s': State)
    requires p.Valid() && Reachable(p, s) && Quiescent(s) && t in s.threads && s.permits < p.capacity && id !in s.keys
    requires 1 <= p.maxThreads && 1 <= p.maxCount && sz <= p.maxBytes && sz <= p.budget && n == INSERT_STEPS
    ensures Reachable(p, s') && Quiescent(s') && s'.threads.Keys == s.threads.Keys && s'.permits == s.permits + 1
    ensures s'.keys.Keys == s.keys.Keys + {id} && s'.h.outstanding == s.h.outstanding
    ensures s' == Finish(p, Shift(Begun(s, t, id, sz), 1, 0), t, n)
  {
    var left;
    s' := SubmitAlone(p, s, t, id, sz);
    s', left := Rounds(p, s', t, id, sz, n);
    s' := EndAlone(p, s', t, id, sz, left);
  }

  /** Nothing is in flight, and nothing was fetched. */
  ghost predicate Refilled(p: Params, s: State, ids: set<Id>) {
    Reachable(p, s) && Quiescent(s) && s.keys.Keys == ids && s.h.outstanding == {}
  }

  lemma InitRefilled(p: Params, threads: set<Thread>)
    ensures Refilled(p, Init(threads), {})
  {
    var run := [Init(threads)];
    assert IsRun(p, run, [], threads);
    assert run[0] in run;
  }

  lemma RefillNext(p: Params, s: State, t: Thread, ids: set<Id>, id: Id, sz: nat, n: nat) returns (s': State)
    requires p.Valid() && Refilled(p, s, ids) && t in s.threads && |ids| < p.capacity && id !in ids
    requires 1 <= p.maxThreads && 1 <= p.maxCount && sz <= p.maxBytes && sz <= p.budget && n == INSERT_STEPS
    ensures Refilled(p, s', ids + {id}) && s'.threads.Keys == s.threads.Keys
    ensures s' == Finish(p, Shift(Begun(s, t, id, sz), 1, 0), t, n) && s'.permits == s.permits + 1
  {
    QuiescentAccounts(p, s);
    s' := PutIn(p, s, t, id, sz, n);
  }

  /** With another number of permits, and another size of the pool, the steps are the same. */
  ghost predicate FilledBy(p: Params, s: State, start: State, t: Thread, ids: seq<Id>, size: Id -> nat, n: nat,
                           permits: int, m: int)
  {
    ResubmitAll(p, start, t, ids, size, n) == (Shift(s, permits - s.permits, m), true)
  }

  lemma SamePermits(p: Params, s: State, t: Thread, id: Id, sz: nat, n: nat, s': State, permits: int, m: int)
    requires s' == Finish(p, Shift(Begun(s, t, id, sz), 1, 0), t, n) && s'.permits == s.permits + 1
    ensures Resubmit(p, Shift(s, permits - s.permits, m), t, id, sz, n) == Shift(s', permits - s'.permits, m)
  {
    FinishShift(p, Begun(s, t, id, sz), t, n, 1, 0);
    ResubmitShift(p, s, t, id, sz, n, permits - s.permits, m);
    var r := Resubmit(p, s, t, id, sz, n);
    assert s' == Shift(r, 1, 0);
    assert Shift(s', permits - s'.permits, m) == Shift(r, permits - s.permits, m);
  }

  lemma FilledNext(p: Params, s: State, start: State, t: Thread, ids: seq<Id>, size: Id -> nat, n: nat,
                   permits: int, m: int, s': State)
    requires ids != [] && FilledBy(p, s, start, t, ids[..|ids| - 1], size, n, permits, m)
    requires var id := ids[|ids| - 1]; id !in s.keys && s' == Finish(p, Shift(Begun(s, t, id, size(id)), 1, 0), t, n)
    requires s'.permits == s.permits + 1
    ensures FilledBy(p, s', start, t, ids, size, n, permits, m)
  {
    var id := ids[|ids| - 1];
    SamePermits(p, s, t, id, size(id), n, s', permits, m);
  }

  lemma {:induction false} RefillBy(p: Params, threads: set<Thread>, t: Thread, ids: seq<Id>, size: Id -> nat, n: nat,
                                    permits: int, m: int)
    returns (s: State)
    requires p.Valid() && t in threads && Distinct(ids) && |ids| <= p.capacity && 1 <= p.maxThreads && 1 <= p.maxCount
    requires n == INSERT_STEPS && forall id | id in ids :: size(id) <= p.maxBytes && size(id) <= p.budget
    ensures Refilled(p, s, Elements(ids)) && s.threads.Keys == threads
    ensures FilledBy(p, s, Init(threads).(permits := permits, poolSize := m), t, ids, size, n, permits, m)
    decreases |ids|
  {
    if ids == [] {
      s := Init(threads);
      InitRefilled(p, threads);
    } else {
      var k := |ids| - 1;
      var before := RefillBy(p, threads, t, ids[..k], size, n, permits, m);
      LastElement(ids);
      s := RefillNext(p, before, t, Elements(ids[..k]), ids[k], size(ids[k]), n);
      FilledNext(p, before, Init(threads).(permits := permits, poolSize := m), t, ids, size, n, permits, m, s);
    }
  }

  /**
   * A new store, into which distinct requests are put one after the other, with one permit taken before for each, and
   * Pool.size set to their number in the end, is then in a state of the protocol, and has them all.
   */
  lemma Refill(p: Params, threads: set<Thread>, t: Thread, ids: seq<Id>, size: Id -> nat, n: nat, m: int)
    requires p.Valid() && t in threads && Distinct(ids) && |ids| <= p.capacity && 1 <= p.maxThreads && 1 <= p.maxCount
    requires n == INSERT_STEPS && forall id | id in ids :: size(id) <= p.maxBytes && size(id) <= p.budget
    ensures var (s, ok) := ResubmitAll(p, Init(threads).(permits := |ids|, poolSize := m), t, ids, size, n);
            ok && Refilled(p, s.(poolSize := |ids|), Elements(ids))
  {
    var s := RefillBy(p, threads, t, ids, size, n, |ids|, m);
    QuiescentAccounts(p, s);
    DistinctSize(ids);
    assert Shift(s, 0, m).(poolSize := |ids|) == s;
  }

  // ---------- What a restart finds ----------

  /** ForEach ranges over the requests of the ready batches and of the current one, in any order. */
  ghost predicate ListedBy(s: State, slots: seq<Slot>) {
    Distinct(slots) && forall slot :: slot in slots <==> Listable(s, slot)
  }

  ghost predicate Listable(s: State, slot: Slot) {
    (slot.b in s.ready || slot.b == |s.past|) && slot.id in s.Get(slot.b).items
  }

  ghost function Listables(s: State): (r: set<Slot>)
    ensures forall slot :: slot in r <==> Listable(s, slot)
  {
    (set i, id | 0 <= i < |s.ready| && id in s.Get(s.ready[i]).items :: Slot(s.ready[i], id))
    + (set id | id in s.cur.items :: Slot(|s.past|, id))
  }

  function IdsOf(slots: seq<Slot>): seq<Id> { seq(|slots|, i requires 0 <= i < |slots| => slots[i].id) }

  lemma ListedIsHeld(p: Params, s: State, slot: Slot)
    requires p.Valid() && Reachable(p, s) && Quiescent(s)
    ensures Listable(s, slot) <==> slot.id in s.keys && s.keys[slot.id] == slot.b && slot.id !in s.h.outstanding
  {
    ReachableInv(p, s);
    assert slot.id in s.keys ==> IdOk(s, slot.id, s.keys[slot.id]);
    if s.h.first <= slot.b <= |s.past| {
      UnfetchedItems(s, slot.id, slot.b);
      EveryBatchOnce(p, s, slot.b);
    } else {
      assert slot.b !in s.ready;
    }
  }

  /**
   * With no call in flight, whatever interleaving came before, the list has exactly the ids held and not fetched, each
   * of them once; what Pool.size exceeds it by is the number of ids fetched and not removed, and when that many
   * permits are released, as many are left as were listed.
   */
  lemma ListedExactly(p: Params, s: State, slots: seq<Slot>)
    requires p.Valid() && Reachable(p, s) && Quiescent(s) && ListedBy(s, slots)
    ensures Distinct(IdsOf(slots)) && Elements(IdsOf(slots)) == s.keys.Keys - s.h.outstanding
    ensures s.poolSize - |slots| == |s.h.outstanding| && s.permits - (s.poolSize - |slots|) == |slots| <= p.capacity
  {
    var ids := IdsOf(slots);
    forall i, j | 0 <= i < j < |ids| ensures ids[i] != ids[j] {
      ListedIsHeld(p, s, slots[i]);
      ListedIsHeld(p, s, slots[j]);
    }
    forall id ensures id in ids <==> id in s.keys.Keys - s.h.outstanding {
      if id in ids {
        var i :| 0 <= i < |ids| && ids[i] == id;
        ListedIsHeld(p, s, slots[i]);
      }
      if id in s.keys.Keys - s.h.outstanding {
        var slot := Slot(s.keys[id], id);
        ListedIsHeld(p, s, slot);
        var i :| 0 <= i < |slots| && slots[i] == slot;
        assert ids[i] == id;
      }
    }
    DistinctSize(ids);
    QuiescentAccounts(p, s);
    ReachableInv(p, s);
    assert s.h.outstanding <= s.keys.Keys;
    assert |s.keys.Keys - s.h.outstanding| == |s.keys.Keys| - |s.h.outstanding|;
  }

  // ---------- What each operation does ----------

  /** Prune takes out exactly the doomed ids that were not fetched, with their permits. */
  lemma PrunesExactly(p: Params, s: State, doomed: set<Id>, id: Id)
    requires p.Valid() && Reachable(p, s) && NoReaders(s)
    ensures Enabled(p, s, Prune(doomed))
    ensures var s' := PruneStep(s, doomed);
            && |s'.past| == |s.past| && s'.threads == s.threads && s'.ready == s.ready && s'.h == s.h
            && (id in s'.keys <==> id in s.keys && (id !in doomed || id in s.h.outstanding))
            && (id in s'.keys ==> s'.keys[id] == s.keys[id])
            && s.permits - s'.permits == s.poolSize - s'.poolSize == |s.keys.Keys| - |s'.keys.Keys|
  {
    ReachableInv(p, s);
    assert id in s.keys ==> IdOk(s, id, s.keys[id]);
    PruneCounts(s, doomed);
  }

  /** And their requests, from the batches that were not fetched. */
  lemma PrunesItemsExactly(p: Params, s: State, doomed: set<Id>, id: Id, b: nat)
    requires p.Valid() && Reachable(p, s) && NoReaders(s) && b <= |s.past|
    ensures var x, y := s.Get(b).items, PruneStep(s, doomed).Get(b).items;
            (id in y <==> id in x && (id !in doomed || b < s.h.first)) && (id in y ==> y[id] == x[id])
  {
    ReachableInv(p, s);
    if s.h.first <= b { UnfetchedItems(s, id, b); }
    PruneItems(s, doomed, id, b);
  }

  lemma PruneItems(s: State, doomed: set<Id>, id: Id, b: nat)
    requires b <= |s.past| && s.h.first <= |s.past|
    ensures var x, y := s.Get(b).items, PruneStep(s, doomed).Get(b).items;
            var gone := id in s.keys && id in doomed && s.keys[id] >= s.h.first;
            (id in y <==> id in x && !(gone && b >= s.h.first)) && (id in y ==> y[id] == x[id])
  {
  }

  lemma PruneCounts(s: State, doomed: set<Id>)
    ensures var s' := PruneStep(s, doomed);
            s.permits - s'.permits == s.poolSize - s'.poolSize == |s.keys.Keys| - |s'.keys.Keys|
  {
    var gone := set x | x in s.keys && x in doomed && s.keys[x] >= s.h.first;
    assert gone <= s.keys.Keys && (s.keys - gone).Keys == s.keys.Keys - gone;
  }

  lemma UnusedIsEmpty(p: Params, s: State)
    requires Loads(p, s) && s.cur.packed == 0
    ensures s.cur.items == map[]
  {
    assert |s.cur.items.Keys| == 0;
  }

  /** Held and not fetched. */
  predicate Unfetched(s: State, id: Id) { id in s.keys && id !in s.h.outstanding }

  lemma PicksOldest(p: Params, s: State, id: Id)
    requires p.Valid() && Reachable(p, s) && NoReaders(s) && Unfetched(s, id)
    ensures s.keys[id] >= s.h.first + Pick(s, 0) && (Pick(s, 0) < |s.ready| || s.cur.packed != 0)
  {
    ReachableInv(p, s);
    SkippedIds(s, id);
    if Pick(s, 0) == |s.ready| {
      UnfetchedItems(s, id, |s.past|);
      if s.cur.packed == 0 { UnusedIsEmpty(p, s); }
    }
  }

  lemma {:induction false} PickFinds(s: State, i: nat)
    requires i <= |s.ready| && Pick(s, i) < |s.ready|
    ensures s.Get(s.ready[Pick(s, i)]).items != map[]
    decreases |s.ready| - i
  {
    if s.Get(s.ready[i]).items == map[] { PickFinds(s, i + 1); }
  }

  lemma FetchesSome(p: Params, s: State, id: Id)
    requires p.Valid() && Reachable(p, s) && NoReaders(s) && Unfetched(s, id)
    ensures FetchedIds(s) != {}
  {
    PicksOldest(p, s, id);
    if Pick(s, 0) < |s.ready| {
      PickFinds(s, 0);
      var items := s.Get(s.ready[Pick(s, 0)]).items;
      var x :| x in items;
    } else {
      ReachableInv(p, s);
      FetchedExactly(s, id);
      assert IdOk(s, id, s.keys[id]);
    }
  }

  /** Fetch returns all of the oldest batch that has requests, and nothing only if all that is held was fetched. */
  lemma FetchesOldest(p: Params, s: State, id: Id, other: Id)
    requires p.Valid() && Reachable(p, s) && NoReaders(s)
    ensures id in FetchedIds(s) ==> Unfetched(s, id)
    ensures id in FetchedIds(s) && Unfetched(s, other) ==>
              s.keys[id] <= s.keys[other] && (other in FetchedIds(s) <==> s.keys[other] == s.keys[id])
    ensures FetchedIds(s) == {} ==> !Unfetched(s, id)
  {
    ReachableInv(p, s);
    if Unfetched(s, id) { FetchesSome(p, s, id); }
    if id in FetchedIds(s) {
      FetchedExactly(s, id);
      SkippedIds(s, id);
      FetchedExactly(s, other);
      if Unfetched(s, other) { PicksOldest(p, s, other); }
    }
  }

  // A lone insert

  /** The requests of the batches up to now are as they were, and later batches have none. */
  ghost predicate SameItems(s: State, s': State) {
    && |s.past| <= |s'.past| && (forall b | 0 <= b <= |s.past| :: s'.Get(b).items == s.Get(b).items)
    && (forall b | |s.past| < b <= |s'.past| :: s'.Get(b).items == map[])
  }

  /** The insert has ended: refused, or with its request in the current batch. */
  ghost predicate Inserted(s: State, s': State, id: Id, sz: nat) {
    && |s.past| <= |s'.past| && s'.threads == s.threads && s'.h.outstanding == s.h.outstanding
    && (forall b | 0 <= b <= |s.past| && b < |s'.past| :: s'.Get(b).items == s.Get(b).items)
    && var before := if |s'.past| == |s.past| then s.cur.items else map[];
       if id in s.keys
       then s'.keys == s.keys && s'.cur.items == before && (s'.permits, s'.poolSize) == (s.permits, s.poolSize)
       else && s'.keys == s.keys[id := |s'.past|] && s'.cur.items == before[id := sz]
            && (s'.permits, s'.poolSize) == (s.permits + 1, s.poolSize + 1)
  }

  /** A step of a lone thread, up to its reservation. */
  ghost predicate OnTheWay(s: State, s': State, t: Thread) {
    && SameItems(s, s') && s'.keys == s.keys && s'.h.outstanding == s.h.outstanding
    && (s'.permits, s'.poolSize) == (s.permits, s.poolSize) && s'.threads - {t} == s.threads - {t} && t in s'.threads
    && |s'.past| <= |s.past| + 1
  }

  lemma TryOnTheWay(p: Params, s: State, t: Thread, id: Id, sz: nat, n: nat) returns (s': State)
    requires t in s.threads && s.threads[t] == Start(id, sz) && n >= 2
    ensures OnTheWay(s, s', t) && |s'.past| == |s.past| && s'.cur.enqueued == s.cur.enqueued
    ensures s'.threads[t] == if Fits(p, Added(s.cur.packed, sz)) then Reserved(id, sz, |s.past|)
            else Full(id, sz, |s.past|)
    ensures Finish(p, s, t, n) == Finish(p, s', t, n - 2)
  {
    var s1 := ThreadStep(p, s, t, s.threads[t]);
    assert s1 == s.(threads := s.threads[t := Locked(id, sz)]);
    s' := ThreadStep(p, s1, t, s1.threads[t]);
    assert Finish(p, s, t, n) == Finish(p, s1, t, n - 1) == Finish(p, s', t, n - 2);
    assert s1.threads - {t} == s.threads - {t};
  }

  lemma ReplaceOnTheWay(p: Params, s: State, t: Thread, id: Id, sz: nat, n: nat) returns (s': State)
    requires t in s.threads && s.threads[t] == Full(id, sz, |s.past|) && !s.cur.enqueued && n >= 1
    ensures OnTheWay(s, s', t) && |s'.past| == |s.past| + 1 && s'.cur == NEW_BATCH && s'.threads[t] == Start(id, sz)
    ensures Finish(p, s, t, n) == Finish(p, s', t, n - 1)
  {
    s' := ThreadStep(p, s, t, s.threads[t]);
  }

  lemma FromReserved(p: Params, s: State, t: Thread, id: Id, sz: nat, n: nat)
    requires t in s.threads && s.threads[t] == Reserved(id, sz, |s.past|) && n >= 2
    ensures var s' := Finish(p, s, t, n);
            && s'.threads == s.threads[t := Idle] && s'.past == s.past && s'.h.outstanding == s.h.outstanding
            && if id in s.keys
               then && s'.keys == s.keys && s'.cur.items == s.cur.items
                    && (s'.permits, s'.poolSize) == (s.permits - 1, s.poolSize)
               else && s'.keys == s.keys[id := |s.past|] && s'.cur.items == s.cur.items[id := sz]
                    && (s'.permits, s'.poolSize) == (s.permits, s.poolSize + 1)
  {
    var s1 := ThreadStep(p, s, t, s.threads[t]);
    assert s1.threads == s.threads[t := if id in s.keys then Rejected(id, sz) else Indexed(id, sz, |s.past|)];
    var s2 := ThreadStep(p, s1, t, s1.threads[t]);
    assert s2.threads == s.threads[t := Idle];
    assert Finish(p, s, t, n) == Finish(p, s1, t, n - 1) == Finish(p, s2, t, n - 2);
    FinishIdle(p, s2, t, n - 2);
  }

  lemma OnTheWayTwice(s: State, s1: State, s2: State, t: Thread)
    requires OnTheWay(s, s1, t) && OnTheWay(s1, s2, t) && |s2.past| <= |s.past| + 1
    ensures OnTheWay(s, s2, t)
  {
    forall b | 0 <= b <= |s.past| ensures s2.Get(b).items == s.Get(b).items {
      assert s1.Get(b).items == s.Get(b).items;
    }
    forall b | |s.past| < b <= |s2.past| ensures s2.Get(b).items == map[] {
      assert b <= |s1.past| ==> s1.Get(b).items == map[];
    }
  }

  /** To a reservation, in the current batch or in the next one. */
  lemma Reserves(p: Params, s: State, t: Thread, id: Id, sz: nat, n: nat) returns (s': State, left: nat)
    requires t in s.threads && s.threads[t] == Start(id, sz) && !s.cur.enqueued && n >= 5
    requires 1 <= p.maxCount && sz <= p.maxBytes && sz < TWO_32
    ensures OnTheWay(s, s', t) && s'.threads[t] == Reserved(id, sz, |s'.past|)
    ensures left >= n - 5 && Finish(p, s, t, n) == Finish(p, s', t, left)
  {
    CounterDecodes(p, 0, 0, sz);
    s' := TryOnTheWay(p, s, t, id, sz, n);
    left := n - 2;
    if s'.threads[t].Full? {
      var s2 := ReplaceOnTheWay(p, s', t, id, sz, n - 2);
      OnTheWayTwice(s, s', s2, t);
      s' := TryOnTheWay(p, s2, t, id, sz, n - 3);
      OnTheWayTwice(s, s2, s', t);
      left := n - 5;
    }
  }

  /**
   * A lone insert, of a request that is not larger than a batch: refused if the id is held, and else stored, with its
   * size, in the current batch or in the one that replaces it.
   */
  lemma LoneInsertDecided(p: Params, s: State, t: Thread, id: Id, sz: nat, n: nat)
    requires p.Valid() && Reachable(p, s) && Quiescent(s) && t in s.threads && s.permits < p.capacity
    requires n >= INSERT_STEPS
    requires 1 <= p.maxThreads && 1 <= p.maxCount && sz <= p.maxBytes && sz <= p.budget
    ensures Enabled(p, s, Submit(t, id, sz))
    ensures Inserted(s, Finish(p, Apply(p, s, Submit(t, id, sz)), t, n), id, sz)
  {
    var s0 := SubmitAlone(p, s, t, id, sz);
    SubmitEnabled(p, s, t, id, sz);
    assert s0 == Apply(p, s, Submit(t, id, sz));
    ReachableInv(p, s);
    var s1, left := Reserves(p, s0, t, id, sz, n);
    ReservedEnds(p, s, s0, s1, t, id, sz, left);
  }

  lemma SubmitEnabled(p: Params, s: State, t: Thread, id: Id, sz: nat)
    requires p.Valid() && Reachable(p, s) && Quiescent(s) && t in s.threads && s.permits < p.capacity
    requires 1 <= p.maxThreads && sz <= p.budget
    ensures Enabled(p, s, Submit(t, id, sz))
  {
    ReachableInv(p, s);
    forall x ensures x !in s.h.inflight { assert x in s.threads ==> ThreadOk(s, x, s.threads[x]); }
    assert s.h.inflight.Keys == {};
  }

  lemma IdleAgain(m: map<Thread, Pc>, m': map<Thread, Pc>, t: Thread)
    requires t in m && m[t].Idle? && m' - {t} == m - {t}
    ensures m'[t := Idle] == m
  {
    forall x | x != t ensures (x in m' <==> x in m) && (x in m ==> m'[x] == m[x]) {
      assert x in m' <==> x in m' - {t};
      assert x in m <==> x in m - {t};
      assert x in m ==> (m' - {t})[x] == (m - {t})[x];
    }
  }

  /** From the submission of s0 to the reservation of s1, and from there to the end. */
  lemma ReservedEnds(p: Params, s: State, s0: State, s1: State, t: Thread, id: Id, sz: nat, n: nat)
    requires t in s.threads && s.threads[t].Idle? && s0 == Apply(p, s, Submit(t, id, sz))
    requires OnTheWay(s0, s1, t) && s1.threads[t] == Reserved(id, sz, |s1.past|) && n >= 2
    ensures Inserted(s, Finish(p, s1, t, n), id, sz)
  {
    FromReserved(p, s1, t, id, sz, n);
    assert s0.threads - {t} == s.threads - {t};
    IdleAgain(s.threads, s1.threads, t);
    var s' := Finish(p, s1, t, n);
    assert s0.past == s.past && s0.cur == s.cur;
    forall b | 0 <= b <= |s.past| && b < |s'.past| ensures s'.Get(b).items == s.Get(b).items {
      assert s1.Get(b).items == s0.Get(b).items && s'.past[b] == s1.past[b];
    }
    assert s1.Get(|s1.past|).items == if |s1.past| == |s.past| then s.cur.items else map[];
  }

  // A lone removal

  /** The id, its request and its permit are gone. */
  ghost predicate RemovedFrom(s: State, s': State, id: Id, b: nat) {
    && s'.threads == s.threads && s'.keys == s.keys - {id} && s'.h.outstanding == s.h.outstanding - {id}
    && (s'.permits, s'.poolSize, |s'.past|) == (s.permits - 1, s.poolSize - 1, |s.past|)
    && s'.Get(b).items == s.Get(b).items - {id} && forall c | 0 <= c <= |s.past| && c != b :: s'.Get(c) == s.Get(c)
  }

  /** The removal of a fetched id, alone; that of an id that is not held changes nothing. */
  lemma LoneRemovalDecided(p: Params, s: State, t: Thread, id: Id, n: nat)
    requires p.Valid() && Reachable(p, s) && t in s.threads && s.threads[t].Idle? && n >= 3 && !Unfetched(s, id)
    ensures Enabled(p, s, Remove(t, id)) && Enabled(p, Apply(p, s, Remove(t, id)), Go(t))
    ensures var s' := Finish(p, Apply(p, s, Remove(t, id)), t, n);
            if id in s.keys then RemovedFrom(s, s', id, s.keys[id]) else s' == s
  {
    ReachableInv(p, s);
    assert id in s.keys ==> IdOk(s, id, s.keys[id]);
    if id in s.keys { RemovesIndexed(p, s, t, id, n); } else { RemovesNothing(p, s, t, id, n); }
  }

  lemma RemovesNothing(p: Params, s: State, t: Thread, id: Id, n: nat)
    requires t in s.threads && s.threads[t].Idle? && id !in s.keys && n >= 1
    ensures Finish(p, Apply(p, s, Remove(t, id)), t, n) == s
  {
    var s0 := Apply(p, s, Remove(t, id));
    var s1 := ThreadStep(p, s0, t, s0.threads[t]);
    assert s1.threads == s.threads && s1 == s;
    FinishIdle(p, s1, t, n - 1);
  }

  lemma RemoveSteps(p: Params, s: State, t: Thread, id: Id)
    requires t in s.threads && s.threads[t].Idle? && id in s.keys && s.keys[id] <= |s.past|
    ensures var s0, b := Apply(p, s, Remove(t, id)), s.keys[id];
            var s1 := ThreadStep(p, s0, t, Removing(id));
            var s2 := ThreadStep(p, s1, t, Unindexed(id, b));
            && s0.threads == s.threads[t := Removing(id)] && s1.threads == s.threads[t := Unindexed(id, b)]
            && s2.threads == s.threads[t := Notifying(id)] && s2.keys == s.keys - {id}
            && s2.h.outstanding == s.h.outstanding - {id} && (s2.permits, s2.poolSize) == (s.permits, s.poolSize)
            && (s2.past, s2.cur) == (s1.Put(b, s.Get(b).(items := s.Get(b).items - {id})).past,
                                     s1.Put(b, s.Get(b).(items := s.Get(b).items - {id})).cur)
            && (s1.past, s1.cur) == (s.past, s.cur)
  {
    var s0, b := Apply(p, s, Remove(t, id)), s.keys[id];
    var s1 := ThreadStep(p, s0, t, Removing(id));
    assert s1.threads == s.threads[t := Unindexed(id, b)];
    var s2 := ThreadStep(p, s1, t, Unindexed(id, b));
    assert s2.threads == s.threads[t := Notifying(id)];
  }

  lemma RemovesIndexed(p: Params, s: State, t: Thread, id: Id, n: nat)
    requires t in s.threads && s.threads[t].Idle? && id in s.keys && s.keys[id] <= |s.past| && n >= 3
    ensures RemovedFrom(s, Finish(p, Apply(p, s, Remove(t, id)), t, n), id, s.keys[id])
  {
    RemoveSteps(p, s, t, id);
    var s0 := Apply(p, s, Remove(t, id));
    var s1 := ThreadStep(p, s0, t, s0.threads[t]);
    var s2 := ThreadStep(p, s1, t, s1.threads[t]);
    var s3 := ThreadStep(p, s2, t, s2.threads[t]);
    assert s3.threads == s.threads;
    assert Finish(p, s0, t, n) == Finish(p, s1, t, n - 1) == Finish(p, s2, t, n - 2) == Finish(p, s3, t, n - 3);
    FinishIdle(p, s3, t, n - 3);
    assert (s3.past, s3.cur) == (s2.past, s2.cur);
  }
}
