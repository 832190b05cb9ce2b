/**
 * The lock-light protocol of the secondary's pending store, as a transition system.
 *
 * Every call on the shared id map (reqID2Bucket), on a bucket's payload map or on a bucket's size is
 * one step; a thread between two calls is described by its program counter.  The steps of any number
 * of Pool.Submit, removeRequest, Prune and tombstone collections interleave freely with each other
 * and with the sealing, rotation and dropping of buckets.
 *
 * Each submission carries a serial number.  The fields of History follow the submissions; no step
 * depends on them.  Pool.size is only read when no operation runs, so adding to it is joined with the
 * step before it.
 */
module PendingProtocol {
  import opened Wrappers
  import opened Finite

  type Id = string
  type Thread = nat
  type Serial = nat

  /** What an id maps to: a tombstone (compared by identity) or the bucket of that number. */
  datatype Entry = Tombstone(token: nat) | Bucket(no: nat)

  /** The payload map entry for id in bucket b. */
  datatype Slot = Slot(b: nat, id: Id)

  /** Who answers for the permit of a submission. */
  datatype Place = AtThread(t: Thread) | AtSlot(slot: Slot)

  datatype InsertAt =
    | Starting | Loaded                          // PendingStore.Submit
    | Locked | Absent | Stored | Counted         // bucket.tryInsert, read lock held
    | RollingBack | Uncounting                   // its rollback, read lock held
    | Rejected                                   // the permit is still to be released

  datatype DeleteAt = Taken | Deleted | Notifying

  datatype Pc =
    | Idle
    | Insert(at: InsertAt, id: Id, n: Serial, b: nat)
    | Swapping(id: Id, tomb: nat)
    | Delete(step: DeleteAt, id: Id, n: Serial, b: nat, erase: Option<nat>)
    | Erasing(id: Id, tomb: nat)
    | PruneSeen(id: Id, b: nat)
    | PruneDoomed(id: Id, b: nat)
  {
    predicate HoldsPermit() { Insert? || Delete? }

    /** The thread owns the payload in Slot(b, id). */
    predicate HoldsSlot() {
      (Insert? && (at.Stored? || at.Counted? || at.RollingBack?)) || (Delete? && step.Taken?)
    }

    /** The thread holds the read lock of bucket b. */
    predicate ReadLocks() {
      Insert? && !at.Starting? && !at.Loaded? && !at.Rejected?
    }

    /** The size of bucket b includes the thread's submission. */
    predicate InCount() {
      (Insert? && (at.Counted? || at.RollingBack? || at.Uncounting?)) || (Delete? && !step.Notifying?)
    }
  }

  datatype History = History(
    next: Serial,
    place: map<Serial, Place>,
    published: set<Serial>,
    notified: set<Serial>)

  datatype State = State(
    idMap: map<Id, Entry>,
    payload: map<Slot, Serial>,
    size: map<nat, int>,
    cur: nat,
    sealed: set<nat>,
    dropped: set<nat>,
    threads: map<Thread, Pc>,
    permits: int,
    poolSize: int,
    counted: map<nat, set<Serial>>,   // history: the submissions each size counts
    h: History)

  function Init(threads: set<Thread>): State {
    State(map[], map[], map[1 := 0], 1, {}, {}, map t | t in threads :: Idle, 0, 0,
          map[1 := {}], History(0, map[], {}, {}))
  }

  // ---------- Steps ----------

  datatype Op = Submit(id: Id) | Remove(id: Id, tomb: nat) | PruneKey(id: Id) | GcKey(id: Id)

  datatype Step =
    | Begin(t: Thread, op: Op)   // an idle thread starts an operation
    | Go(t: Thread)              // a busy thread takes its next step
    | Keep(t: Thread)            // Prune's predicate accepts the payload it loaded
    | Seal                       // bucket.seal on the current bucket
    | Rotate                     // the sealed current bucket is replaced
    | Drop(b: nat)               // garbageCollectEmptyBuckets drops a sealed bucket of size 0

  predicate Enabled(s: State, step: Step, maxSize: nat) {
    match step
    case Begin(t, op) => t in s.threads && s.threads[t].Idle? && (op.Submit? ==> s.permits < maxSize)
    case Go(t) => t in s.threads
    case Keep(t) => t in s.threads && s.threads[t].PruneSeen?
    case Seal => s.cur !in s.sealed
                 && forall t | t in s.threads && s.threads[t].ReadLocks() :: s.threads[t].b != s.cur
    case Rotate => s.cur in s.sealed
    case Drop(b) => b in s.sealed && b != s.cur && b in s.size && s.size[b] == 0
  }

  function Apply(s: State, step: Step): State
    requires step.Begin? || step.Go? || step.Keep? ==> step.t in s.threads
  {
    match step
    case Begin(t, op) => Start(s, t, op)
    case Go(t) => if s.threads[t].Insert? then InsertStep(s, t, s.threads[t]) else RemoveStep(s, t, s.threads[t])
    case Keep(t) => s.(threads := s.threads[t := Idle])
    case Seal => s.(sealed := s.sealed + {s.cur})
    case Rotate => s.(cur := s.cur + 1, size := s.size[s.cur + 1 := 0],
                      counted := s.counted[s.cur + 1 := {}])
    case Drop(b) => s.(dropped := s.dropped + {b})
  }

  function Start(s: State, t: Thread, op: Op): State {
    match op
    case Submit(id) => // semaphore.Acquire
      s.(threads := s.threads[t := Insert(Starting, id, s.h.next, 0)], permits := s.permits + 1,
         h := s.h.(next := s.h.next + 1, place := s.h.place[s.h.next := AtThread(t)]))
    case Remove(id, tomb) => s.(threads := s.threads[t := Swapping(id, tomb)])
    case PruneKey(id) => // Range
      if id in s.idMap && s.idMap[id].Bucket? then s.(threads := s.threads[t := PruneSeen(id, s.idMap[id].no)])
      else s
    case GcKey(id) => // Range, on an expired tombstone
      if id in s.idMap && s.idMap[id].Tombstone? then s.(threads := s.threads[t := Erasing(id, s.idMap[id].token)])
      else s
  }

  /** The next step of a submission. */
  function InsertStep(s: State, t: Thread, pc: Pc): State
    requires pc.Insert?
  {
    var Insert(at, id, n, b) := pc;
    match at
    case Starting => s.(threads := s.threads[t := Insert(Loaded, id, n, s.cur)])
    case Loaded => s.(threads := s.threads[t := Insert(if b in s.sealed then Starting else Locked, id, n, b)])
    case Locked => s.(threads := s.threads[t := Insert(if id in s.idMap then Rejected else Absent, id, n, b)])
    case Absent => // LoadOrStore of the payload
      if Slot(b, id) in s.payload then s.(threads := s.threads[t := Insert(Rejected, id, n, b)])
      else s.(threads := s.threads[t := Insert(Stored, id, n, b)], payload := s.payload[Slot(b, id) := n])
    case Stored => Resize(s, b, 1, SetOf(s, b) + {n}, t, Insert(Counted, id, n, b))
    case Counted => // LoadOrStore of the id
      if id in s.idMap then s.(threads := s.threads[t := Insert(RollingBack, id, n, b)])
      else Publish(s, t, pc)
    case RollingBack =>
      s.(threads := s.threads[t := Insert(Uncounting, id, n, b)], payload := s.payload - {Slot(b, id)})
    case Uncounting => Resize(s, b, -1, SetOf(s, b) - {n}, t, Insert(Rejected, id, n, b))
    case Rejected => // semaphore.Release
      s.(threads := s.threads[t := Idle], permits := s.permits - 1, h := s.h.(place := s.h.place - {n}))
  }

  /** The next step of a removal, a prune or a tombstone collection. */
  function RemoveStep(s: State, t: Thread, pc: Pc): State {
    match pc
    case Swapping(id, tomb) =>
      var s' := s.(idMap := s.idMap[id := Tombstone(tomb)]);
      if id in s.idMap && s.idMap[id].Bucket? then TakeOver(s', t, id, s.idMap[id].no, Some(tomb))
      else s'.(threads := s.threads[t := Idle])
    case Delete(step, id, n, b, erase) =>
      (match step
       case Taken => // LoadAndDelete
         if Slot(b, id) in s.payload then
           s.(threads := s.threads[t := Delete(Deleted, id, n, b, erase)], payload := s.payload - {Slot(b, id)})
         else s.(threads := s.threads[t := Idle])
       case Deleted => Resize(s, b, -1, SetOf(s, b) - {n}, t, Delete(Notifying, id, n, b, erase))
       case Notifying => // OnDelete
         s.(threads := s.threads[t := if erase.Some? then Erasing(id, erase.value) else Idle],
            permits := s.permits - 1, poolSize := s.poolSize - 1,
            h := s.h.(place := s.h.place - {n}, notified := s.h.notified + {n})))
    case Erasing(id, tomb) => // CompareAndDelete
      s.(threads := s.threads[t := Idle], idMap := EraseIf(s.idMap, id, Tombstone(tomb)))
    case PruneSeen(id, b) =>
      s.(threads := s.threads[t := if Slot(b, id) in s.payload then PruneDoomed(id, b) else Idle])
    case PruneDoomed(id, b) => // CompareAndDelete
      if id in s.idMap && s.idMap[id] == Bucket(b) then TakeOver(s.(idMap := s.idMap - {id}), t, id, b, None)
      else s.(threads := s.threads[t := Idle])
    case _ => s
  }

  function SetOf(s: State, b: nat): set<Serial> {
    if b in s.counted then s.counted[b] else {}
  }

  /** An atomic add to the size of bucket b. */
  function Resize(s: State, b: nat, d: int, c: set<Serial>, t: Thread, pc: Pc): State {
    s.(threads := s.threads[t := pc], size := s.size[b := (if b in s.size then s.size[b] else 0) + d],
       counted := s.counted[b := c])
  }

  function Publish(s: State, t: Thread, pc: Pc): State
    requires pc.Insert?
  {
    s.(threads := s.threads[t := Idle], idMap := s.idMap[pc.id := Bucket(pc.b)], poolSize := s.poolSize + 1,
       h := s.h.(place := s.h.place[pc.n := AtSlot(Slot(pc.b, pc.id))], published := s.h.published + {pc.n}))
  }

  function TakeOver(s: State, t: Thread, id: Id, b: nat, erase: Option<nat>): State {
    var n := if Slot(b, id) in s.payload then s.payload[Slot(b, id)] else 0;
    s.(threads := s.threads[t := Delete(Taken, id, n, b, erase)], h := s.h.(place := s.h.place[n := AtThread(t)]))
  }

  /** sync.Map's CompareAndDelete. */
  function EraseIf(m: map<Id, Entry>, id: Id, e: Entry): map<Id, Entry> {
    if id in m && m[id] == e then m - {id} else m
  }

  // ---------- Invariant ----------

  /** What a thread's program counter entails. */
  ghost predicate ThreadOk(s: State, t: Thread, pc: Pc) {
    && (pc.HoldsPermit() ==> pc.n in s.h.place && s.h.place[pc.n] == AtThread(t))
    && (pc.HoldsSlot() ==> Slot(pc.b, pc.id) in s.payload && s.payload[Slot(pc.b, pc.id)] == pc.n)
    && (pc.InCount() ==> pc.b in s.counted && pc.n in s.counted[pc.b])
    && (pc.ReadLocks() ==> pc.b !in s.sealed)
    && (pc.ReadLocks() || (pc.Insert? && pc.at.Loaded?) || pc.Delete? ==> 1 <= pc.b <= s.cur)
  }

  /** A permit is answered for by one thread, or by the one slot that publishes its submission. */
  ghost predicate PermitOk(s: State, n: Serial, p: Place) {
    && n < s.h.next
    && match p
       case AtThread(t) =>
         && t in s.threads && s.threads[t].HoldsPermit() && s.threads[t].n == n
         && (n in s.h.published <==> s.threads[t].Delete?)
       case AtSlot(slot) =>
         && slot.id in s.idMap && s.idMap[slot.id] == Bucket(slot.b)
         && slot in s.payload && s.payload[slot] == n
         && slot.b <= s.cur && slot.b in s.counted && n in s.counted[slot.b]
         && n in s.h.published
  }

  /** A payload is owned by its id's entry, or by exactly one thread. */
  ghost predicate SlotOk(s: State, slot: Slot, n: Serial) {
    && n in s.h.place
    && match s.h.place[n]
       case AtSlot(slot') => slot' == slot
       case AtThread(t) => t in s.threads && s.threads[t].HoldsSlot()
                           && Slot(s.threads[t].b, s.threads[t].id) == slot
  }

  /** An id that maps to a bucket finds its payload there. */
  ghost predicate IdOk(s: State, id: Id, e: Entry) {
    e.Bucket? ==>
      var slot := Slot(e.no, id);
      && 1 <= e.no <= s.cur
      && slot in s.payload && s.payload[slot] in s.h.place && s.h.place[s.payload[slot]] == AtSlot(slot)
  }

  /** The size of a bucket is the number of submissions counted in it. */
  ghost predicate BucketOk(s: State, b: nat) {
    && b in s.size && b in s.counted
    && s.size[b] == |s.counted[b]|
    && (b < s.cur ==> b in s.sealed)
    && (b in s.dropped ==> b in s.sealed && s.counted[b] == {})
  }

  /** A counted submission sits in its bucket, or its thread is about to discount it. */
  ghost predicate CountOk(s: State, b: nat, n: Serial) {
    && n in s.h.place
    && match s.h.place[n]
       case AtSlot(slot) => slot.b == b
       case AtThread(t) => t in s.threads && s.threads[t].InCount() && s.threads[t].b == b
  }

  /** The semaphore and Pool.size count the open permits and the requests held. */
  ghost predicate Accounts(h: History, permits: int, poolSize: int, maxSize: nat) {
    && (forall n | n in h.notified :: n in h.published && n !in h.place)
    && (forall n | n in h.published :: n < h.next && (n in h.notified || n in h.place))
    && permits == |h.place.Keys| <= maxSize
    && poolSize == |h.published| - |h.notified|
  }

  ghost predicate Numbered(s: State) {
    && s.cur >= 1
    && s.dropped <= s.sealed
    && (forall b | b in s.sealed :: 1 <= b <= s.cur)
  }

  ghost predicate Local(s: State) {
    && (forall t {:trigger ThreadOk(s, t, s.threads[t])} | t in s.threads :: ThreadOk(s, t, s.threads[t]))
    && (forall n {:trigger PermitOk(s, n, s.h.place[n])} | n in s.h.place :: PermitOk(s, n, s.h.place[n]))
    && (forall slot {:trigger SlotOk(s, slot, s.payload[slot])} | slot in s.payload :: SlotOk(s, slot, s.payload[slot]))
    && (forall id {:trigger IdOk(s, id, s.idMap[id])} | id in s.idMap :: IdOk(s, id, s.idMap[id]))
    && (forall b {:trigger BucketOk(s, b)} | 1 <= b <= s.cur :: BucketOk(s, b))
    && (forall b, n {:trigger CountOk(s, b, n)} | b in s.counted && n in s.counted[b] :: CountOk(s, b, n))
  }

  ghost predicate Inv(s: State, maxSize: nat) {
    Numbered(s) && Local(s) && Accounts(s.h, s.permits, s.poolSize, maxSize)
  }

  // ---------- Preservation ----------

  lemma InitInv(threads: set<Thread>, maxSize: nat)
    ensures Inv(Init(threads), maxSize)
  {
    var s := Init(threads);
    assert Local(s) by {
      forall t | t in s.threads ensures ThreadOk(s, t, s.threads[t]) { assert s.threads[t] == Idle; }
      forall b | 1 <= b <= s.cur ensures BucketOk(s, b) { assert b == 1; }
    }
  }

  ghost predicate At(s: State, t: Thread, pc: Pc) {
    && Local(s) && t in s.threads && s.threads[t] == pc
    && ThreadOk(s, t, pc)
    && (pc.HoldsPermit() ==> PermitOk(s, pc.n, s.h.place[pc.n]))
  }

  /** A program counter without any claim on shared state. */
  predicate Free(pc: Pc) { !pc.Insert? && !pc.Delete? }

  /** A step that only moves a thread's program counter. */
  lemma MoveLocal(s: State, t: Thread, pc: Pc, pc': Pc)
    requires At(s, t, pc) && ThreadOk(s, t, pc')
    requires pc.Insert? == pc'.Insert? && pc.Delete? == pc'.Delete?
    requires pc.HoldsPermit() ==> pc'.n == pc.n
    requires pc.HoldsSlot() ==> pc'.HoldsSlot() && pc'.b == pc.b && pc'.id == pc.id
    requires pc.InCount() ==> pc'.InCount() && pc'.b == pc.b
    ensures Local(s.(threads := s.threads[t := pc']))
  {
    var s' := s.(threads := s.threads[t := pc']);
    forall x | x in s'.threads ensures ThreadOk(s', x, s'.threads[x]) { assert ThreadOk(s, x, s.threads[x]); }
    forall n | n in s'.h.place ensures PermitOk(s', n, s'.h.place[n]) { assert PermitOk(s, n, s.h.place[n]); }
    forall x | x in s'.payload ensures SlotOk(s', x, s'.payload[x]) { assert SlotOk(s, x, s.payload[x]); }
    forall id | id in s'.idMap ensures IdOk(s', id, s'.idMap[id]) { assert IdOk(s, id, s.idMap[id]); }
    forall b | 1 <= b <= s'.cur ensures BucketOk(s', b) { assert BucketOk(s, b); }
    forall b, n | b in s'.counted && n in s'.counted[b] ensures CountOk(s', b, n) { assert CountOk(s, b, n); }
  }

  lemma SubmitLocal(s: State, t: Thread, id: Id)
    requires At(s, t, Idle) && s.h.next !in s.h.published
    ensures Local(s.(threads := s.threads[t := Insert(Starting, id, s.h.next, 0)], permits := s.permits + 1,
                   h := s.h.(next := s.h.next + 1, place := s.h.place[s.h.next := AtThread(t)])))
  {
    var s' := s.(threads := s.threads[t := Insert(Starting, id, s.h.next, 0)], permits := s.permits + 1,
                 h := s.h.(next := s.h.next + 1, place := s.h.place[s.h.next := AtThread(t)]));
    assert s.h.next in s.h.place ==> PermitOk(s, s.h.next, s.h.place[s.h.next]);
    forall x | x in s'.threads ensures ThreadOk(s', x, s'.threads[x]) { assert ThreadOk(s, x, s.threads[x]); }
    forall n | n in s'.h.place ensures PermitOk(s', n, s'.h.place[n]) {
      assert n in s.h.place ==> PermitOk(s, n, s.h.place[n]);
    }
    forall x | x in s'.payload ensures SlotOk(s', x, s'.payload[x]) { assert SlotOk(s, x, s.payload[x]); }
    forall id | id in s'.idMap ensures IdOk(s', id, s'.idMap[id]) { assert IdOk(s, id, s.idMap[id]); }
    forall b | 1 <= b <= s'.cur ensures BucketOk(s', b) { assert BucketOk(s, b); }
    forall b, n | b in s'.counted && n in s'.counted[b] ensures CountOk(s', b, n) { assert CountOk(s, b, n); }
  }

  /** Absent, when the payload is stored. */
  lemma StoreLocal(s: State, t: Thread, pc: Pc)
    requires At(s, t, pc) && pc.Insert? && pc.at.Absent? && Slot(pc.b, pc.id) !in s.payload
    ensures Local(s.(threads := s.threads[t := pc.(at := Stored)], payload := s.payload[Slot(pc.b, pc.id) := pc.n]))
  {
    var s' := s.(threads := s.threads[t := pc.(at := Stored)], payload := s.payload[Slot(pc.b, pc.id) := pc.n]);
    forall x | x in s'.threads ensures ThreadOk(s', x, s'.threads[x]) { assert ThreadOk(s, x, s.threads[x]); }
    forall n | n in s'.h.place ensures PermitOk(s', n, s'.h.place[n]) { assert PermitOk(s, n, s.h.place[n]); }
    forall x | x in s'.payload ensures SlotOk(s', x, s'.payload[x]) {
      assert x in s.payload ==> SlotOk(s, x, s.payload[x]);
    }
    forall id | id in s'.idMap ensures IdOk(s', id, s'.idMap[id]) { assert IdOk(s, id, s.idMap[id]); }
    forall b | 1 <= b <= s'.cur ensures BucketOk(s', b) { assert BucketOk(s, b); }
    forall b, n | b in s'.counted && n in s'.counted[b] ensures CountOk(s', b, n) { assert CountOk(s, b, n); }
  }

  /** Stored: the size of the bucket goes up. */
  lemma CountLocal(s: State, t: Thread, pc: Pc)
    requires At(s, t, pc) && pc.Insert? && pc.at.Stored?
    ensures Local(Resize(s, pc.b, 1, SetOf(s, pc.b) + {pc.n}, t, pc.(at := Counted)))
  {
    var s' := Resize(s, pc.b, 1, SetOf(s, pc.b) + {pc.n}, t, pc.(at := Counted));
    assert BucketOk(s, pc.b);
    assert pc.n in s.counted[pc.b] ==> CountOk(s, pc.b, pc.n);
    forall x | x in s'.threads ensures ThreadOk(s', x, s'.threads[x]) { assert ThreadOk(s, x, s.threads[x]); }
    forall n | n in s'.h.place ensures PermitOk(s', n, s'.h.place[n]) { assert PermitOk(s, n, s.h.place[n]); }
    forall x | x in s'.payload ensures SlotOk(s', x, s'.payload[x]) { assert SlotOk(s, x, s.payload[x]); }
    forall id | id in s'.idMap ensures IdOk(s', id, s'.idMap[id]) { assert IdOk(s, id, s.idMap[id]); }
    forall b | 1 <= b <= s'.cur ensures BucketOk(s', b) { assert BucketOk(s, b); }
    forall b, n | b in s'.counted && n in s'.counted[b] ensures CountOk(s', b, n) {
      assert b in s.counted && n in s.counted[b] ==> CountOk(s, b, n);
    }
  }

  /** Counted, when the id is published. */
  lemma PublishLocal(s: State, t: Thread, pc: Pc)
    requires At(s, t, pc) && pc.Insert? && pc.at.Counted? && pc.id !in s.idMap
    ensures Local(Publish(s, t, pc))
  {
    var s' := Publish(s, t, pc);
    forall x | x in s'.threads ensures ThreadOk(s', x, s'.threads[x]) { assert ThreadOk(s, x, s.threads[x]); }
    forall n | n in s'.h.place ensures PermitOk(s', n, s'.h.place[n]) { assert PermitOk(s, n, s.h.place[n]); }
    forall x | x in s'.payload ensures SlotOk(s', x, s'.payload[x]) { assert SlotOk(s, x, s.payload[x]); }
    forall id | id in s'.idMap ensures IdOk(s', id, s'.idMap[id]) {
      assert id in s.idMap ==> IdOk(s, id, s.idMap[id]);
    }
    forall b | 1 <= b <= s'.cur ensures BucketOk(s', b) { assert BucketOk(s, b); }
    forall b, n | b in s'.counted && n in s'.counted[b] ensures CountOk(s', b, n) { assert CountOk(s, b, n); }
  }

  /** RollingBack and Taken: the payload is deleted by the thread that owns it. */
  lemma DiscardLocal(s: State, t: Thread, pc: Pc, pc': Pc)
    requires At(s, t, pc) && pc.HoldsSlot() && pc.InCount()
    requires pc' == if pc.Insert? then pc.(at := Uncounting) else pc.(step := Deleted)
    ensures Local(s.(threads := s.threads[t := pc'], payload := s.payload - {Slot(pc.b, pc.id)}))
  {
    var s' := s.(threads := s.threads[t := pc'], payload := s.payload - {Slot(pc.b, pc.id)});
    forall x | x in s'.threads ensures ThreadOk(s', x, s'.threads[x]) { assert ThreadOk(s, x, s.threads[x]); }
    forall n | n in s'.h.place ensures PermitOk(s', n, s'.h.place[n]) { assert PermitOk(s, n, s.h.place[n]); }
    forall x | x in s'.payload ensures SlotOk(s', x, s'.payload[x]) { assert SlotOk(s, x, s.payload[x]); }
    forall id | id in s'.idMap ensures IdOk(s', id, s'.idMap[id]) { assert IdOk(s, id, s.idMap[id]); }
    forall b | 1 <= b <= s'.cur ensures BucketOk(s', b) { assert BucketOk(s, b); }
    forall b, n | b in s'.counted && n in s'.counted[b] ensures CountOk(s', b, n) { assert CountOk(s, b, n); }
  }

  /** Uncounting and Deleted: the size of the bucket goes down. */
  lemma DiscountLocal(s: State, t: Thread, pc: Pc, pc': Pc)
    requires At(s, t, pc) && pc.InCount() && !pc.HoldsSlot()
    requires pc' == if pc.Insert? then pc.(at := Rejected) else pc.(step := Notifying)
    ensures Local(Resize(s, pc.b, -1, SetOf(s, pc.b) - {pc.n}, t, pc'))
  {
    var s' := Resize(s, pc.b, -1, SetOf(s, pc.b) - {pc.n}, t, pc');
    assert BucketOk(s, pc.b);
    forall x | x in s'.threads ensures ThreadOk(s', x, s'.threads[x]) { assert ThreadOk(s, x, s.threads[x]); }
    forall n | n in s'.h.place ensures PermitOk(s', n, s'.h.place[n]) { assert PermitOk(s, n, s.h.place[n]); }
    forall x | x in s'.payload ensures SlotOk(s', x, s'.payload[x]) { assert SlotOk(s, x, s.payload[x]); }
    forall id | id in s'.idMap ensures IdOk(s', id, s'.idMap[id]) { assert IdOk(s, id, s.idMap[id]); }
    forall b | 1 <= b <= s'.cur ensures BucketOk(s', b) { assert BucketOk(s, b); }
    forall b, n | b in s'.counted && n in s'.counted[b] ensures CountOk(s', b, n) { assert CountOk(s, b, n); }
  }

  /** Rejected and Notifying: the permit is released. */
  lemma ReleaseLocal(s: State, t: Thread, pc: Pc, pc': Pc, poolSize: int, notified: set<Serial>)
    requires At(s, t, pc) && pc.HoldsPermit() && !pc.InCount() && !pc.HoldsSlot() && Free(pc')
    requires poolSize == s.poolSize - (if pc.Delete? then 1 else 0)
    requires notified == s.h.notified + (if pc.Delete? then {pc.n} else {})
    ensures Local(s.(threads := s.threads[t := pc'], permits := s.permits - 1, poolSize := poolSize,
                   h := s.h.(place := s.h.place - {pc.n}, notified := notified)))
  {
    var s' := s.(threads := s.threads[t := pc'], permits := s.permits - 1, poolSize := poolSize,
                 h := s.h.(place := s.h.place - {pc.n}, notified := notified));
    forall x | x in s'.threads ensures ThreadOk(s', x, s'.threads[x]) { assert ThreadOk(s, x, s.threads[x]); }
    forall n | n in s'.h.place ensures PermitOk(s', n, s'.h.place[n]) { assert PermitOk(s, n, s.h.place[n]); }
    forall x | x in s'.payload ensures SlotOk(s', x, s'.payload[x]) { assert SlotOk(s, x, s.payload[x]); }
    forall id | id in s'.idMap ensures IdOk(s', id, s'.idMap[id]) { assert IdOk(s, id, s.idMap[id]); }
    forall b | 1 <= b <= s'.cur ensures BucketOk(s', b) { assert BucketOk(s, b); }
    forall b, n | b in s'.counted && n in s'.counted[b] ensures CountOk(s', b, n) { assert CountOk(s, b, n); }
  }

  /** Swapping and PruneDoomed, when the id is taken over from bucket b. */
  lemma TakeOverLocal(s: State, t: Thread, pc: Pc, b: nat, idMap: map<Id, Entry>, erase: Option<nat>)
    requires At(s, t, pc) && (pc.Swapping? || pc.PruneDoomed?)
    requires pc.id in s.idMap && s.idMap[pc.id] == Bucket(b)
    requires idMap - {pc.id} == s.idMap - {pc.id} && (pc.id in idMap ==> idMap[pc.id].Tombstone?)
    ensures Local(TakeOver(s.(idMap := idMap), t, pc.id, b, erase))
    ensures TakeOver(s.(idMap := idMap), t, pc.id, b, erase).h.place.Keys == s.h.place.Keys
  {
    var s' := TakeOver(s.(idMap := idMap), t, pc.id, b, erase);
    assert IdOk(s, pc.id, s.idMap[pc.id]);
    var n := s.payload[Slot(b, pc.id)];
    assert PermitOk(s, n, s.h.place[n]);
    forall id | id != pc.id ensures (id in idMap <==> id in s.idMap) && (id in idMap ==> idMap[id] == s.idMap[id]) {
      assert id in idMap <==> id in idMap - {pc.id};
    }
    forall x | x in s'.threads ensures ThreadOk(s', x, s'.threads[x]) { assert ThreadOk(s, x, s.threads[x]); }
    forall n | n in s'.h.place ensures PermitOk(s', n, s'.h.place[n]) { assert PermitOk(s, n, s.h.place[n]); }
    forall x | x in s'.payload ensures SlotOk(s', x, s'.payload[x]) { assert SlotOk(s, x, s.payload[x]); }
    forall id | id in s'.idMap ensures IdOk(s', id, s'.idMap[id]) {
      assert id in s.idMap ==> IdOk(s, id, s.idMap[id]);
    }
    forall b | 1 <= b <= s'.cur ensures BucketOk(s', b) { assert BucketOk(s, b); }
    forall b, n | b in s'.counted && n in s'.counted[b] ensures CountOk(s', b, n) { assert CountOk(s, b, n); }
  }

  /** Swapping and Erasing, when no bucket is involved: only tombstones come and go. */
  lemma TombstoneLocal(s: State, t: Thread, pc: Pc, idMap: map<Id, Entry>)
    requires At(s, t, pc) && Free(pc)
    requires forall id | id in s.idMap && s.idMap[id].Bucket? :: id in idMap && idMap[id] == s.idMap[id]
    requires forall id | id in idMap && idMap[id].Bucket? :: id in s.idMap && idMap[id] == s.idMap[id]
    ensures Local(s.(threads := s.threads[t := Idle], idMap := idMap))
  {
    var s' := s.(threads := s.threads[t := Idle], idMap := idMap);
    forall x | x in s'.threads ensures ThreadOk(s', x, s'.threads[x]) { assert ThreadOk(s, x, s.threads[x]); }
    forall n | n in s'.h.place ensures PermitOk(s', n, s'.h.place[n]) { assert PermitOk(s, n, s.h.place[n]); }
    forall x | x in s'.payload ensures SlotOk(s', x, s'.payload[x]) { assert SlotOk(s, x, s.payload[x]); }
    forall id | id in s'.idMap ensures IdOk(s', id, s'.idMap[id]) {
      assert id in s.idMap ==> IdOk(s, id, s.idMap[id]);
    }
    forall b | 1 <= b <= s'.cur ensures BucketOk(s', b) { assert BucketOk(s, b); }
    forall b, n | b in s'.counted && n in s'.counted[b] ensures CountOk(s', b, n) { assert CountOk(s, b, n); }
  }

  lemma SealLocal(s: State)
    requires Local(s) && Enabled(s, Seal, 0)
    ensures Local(s.(sealed := s.sealed + {s.cur}))
  {
    var s' := s.(sealed := s.sealed + {s.cur});
    forall x | x in s'.threads ensures ThreadOk(s', x, s'.threads[x]) { assert ThreadOk(s, x, s.threads[x]); }
    forall n | n in s'.h.place ensures PermitOk(s', n, s'.h.place[n]) { assert PermitOk(s, n, s.h.place[n]); }
    forall x | x in s'.payload ensures SlotOk(s', x, s'.payload[x]) { assert SlotOk(s, x, s.payload[x]); }
    forall id | id in s'.idMap ensures IdOk(s', id, s'.idMap[id]) { assert IdOk(s, id, s.idMap[id]); }
    forall b | 1 <= b <= s'.cur ensures BucketOk(s', b) { assert BucketOk(s, b); }
    forall b, n | b in s'.counted && n in s'.counted[b] ensures CountOk(s', b, n) { assert CountOk(s, b, n); }
  }

  lemma RotateLocal(s: State)
    requires Local(s) && s.cur in s.sealed && s.cur + 1 !in s.dropped
    ensures Local(s.(cur := s.cur + 1, size := s.size[s.cur + 1 := 0],
                   counted := s.counted[s.cur + 1 := {}]))
  {
    var s' := s.(cur := s.cur + 1, size := s.size[s.cur + 1 := 0],
                 counted := s.counted[s.cur + 1 := {}]);
    forall x | x in s'.threads ensures ThreadOk(s', x, s'.threads[x]) { assert ThreadOk(s, x, s.threads[x]); }
    forall n | n in s'.h.place ensures PermitOk(s', n, s'.h.place[n]) { assert PermitOk(s, n, s.h.place[n]); }
    forall x | x in s'.payload ensures SlotOk(s', x, s'.payload[x]) { assert SlotOk(s, x, s.payload[x]); }
    forall id | id in s'.idMap ensures IdOk(s', id, s'.idMap[id]) { assert IdOk(s, id, s.idMap[id]); }
    forall b | 1 <= b <= s'.cur ensures BucketOk(s', b) {
      if b <= s.cur { assert BucketOk(s, b); }
    }
    forall b, n | b in s'.counted && n in s'.counted[b] ensures CountOk(s', b, n) {
      assert b in s.counted && n in s.counted[b] ==> CountOk(s, b, n);
    }
  }

  lemma DropLocal(s: State, b: nat)
    requires Local(s) && Enabled(s, Drop(b), 0)
    ensures Local(s.(dropped := s.dropped + {b}))
  {
    var s' := s.(dropped := s.dropped + {b});
    forall x | x in s'.threads ensures ThreadOk(s', x, s'.threads[x]) { assert ThreadOk(s, x, s.threads[x]); }
    forall n | n in s'.h.place ensures PermitOk(s', n, s'.h.place[n]) { assert PermitOk(s, n, s.h.place[n]); }
    forall x | x in s'.payload ensures SlotOk(s', x, s'.payload[x]) { assert SlotOk(s, x, s.payload[x]); }
    forall id | id in s'.idMap ensures IdOk(s', id, s'.idMap[id]) { assert IdOk(s, id, s.idMap[id]); }
    forall b | 1 <= b <= s'.cur ensures BucketOk(s', b) { assert BucketOk(s, b); }
    forall b, n | b in s'.counted && n in s'.counted[b] ensures CountOk(s', b, n) { assert CountOk(s, b, n); }
  }

  lemma InsertLocal(s: State, t: Thread, pc: Pc)
    requires Numbered(s) && At(s, t, pc) && pc.Insert?
    ensures Local(InsertStep(s, t, pc))
  {
    match pc.at
    case Starting => MoveLocal(s, t, pc, Insert(Loaded, pc.id, pc.n, s.cur));
    case Loaded => MoveLocal(s, t, pc, pc.(at := if pc.b in s.sealed then Starting else Locked));
    case Locked => MoveLocal(s, t, pc, pc.(at := if pc.id in s.idMap then Rejected else Absent));
    case Absent =>
      if Slot(pc.b, pc.id) in s.payload { MoveLocal(s, t, pc, pc.(at := Rejected)); } else { StoreLocal(s, t, pc); }
    case Stored => CountLocal(s, t, pc);
    case Counted =>
      if pc.id in s.idMap { MoveLocal(s, t, pc, pc.(at := RollingBack)); } else { PublishLocal(s, t, pc); }
    case RollingBack => DiscardLocal(s, t, pc, pc.(at := Uncounting));
    case Uncounting => DiscountLocal(s, t, pc, pc.(at := Rejected));
    case Rejected => ReleaseLocal(s, t, pc, Idle, s.poolSize, s.h.notified);
  }

  lemma RemoveLocal(s: State, t: Thread, pc: Pc)
    requires Numbered(s) && At(s, t, pc) && !pc.Insert?
    ensures Local(RemoveStep(s, t, pc))
  {
    match pc
    case Swapping(id, tomb) =>
      var idMap := s.idMap[id := Tombstone(tomb)];
      if id in s.idMap && s.idMap[id].Bucket? {
        TakeOverLocal(s, t, pc, s.idMap[id].no, idMap, Some(tomb));
      } else {
        TombstoneLocal(s, t, pc, idMap);
      }
    case Delete(step, id, n, b, erase) =>
      match step {
        case Taken => DiscardLocal(s, t, pc, pc.(step := Deleted));
        case Deleted => DiscountLocal(s, t, pc, pc.(step := Notifying));
        case Notifying =>
          var pc' := if erase.Some? then Erasing(id, erase.value) else Idle;
          ReleaseLocal(s, t, pc, pc', s.poolSize - 1, s.h.notified + {n});
      }
    case Erasing(id, tomb) => TombstoneLocal(s, t, pc, EraseIf(s.idMap, id, Tombstone(tomb)));
    case PruneSeen(id, b) => MoveLocal(s, t, pc, if Slot(b, id) in s.payload then PruneDoomed(id, b) else Idle);
    case PruneDoomed(id, b) =>
      if id in s.idMap && s.idMap[id] == Bucket(b) {
        TakeOverLocal(s, t, pc, b, s.idMap - {id}, None);
      } else {
        MoveLocal(s, t, pc, Idle);
      }
    case Idle =>
  }

  lemma PublishAccounts(h: History, permits: int, poolSize: int, maxSize: nat, n: Serial, p: Place)
    requires Accounts(h, permits, poolSize, maxSize) && n in h.place && n !in h.published && n < h.next
    ensures Accounts(h.(place := h.place[n := p], published := h.published + {n}), permits, poolSize + 1, maxSize)
  {
    assert h.place[n := p].Keys == h.place.Keys;
  }

  lemma AcquireAccounts(h: History, permits: int, poolSize: int, maxSize: nat, p: Place)
    requires Accounts(h, permits, poolSize, maxSize) && permits < maxSize && h.next !in h.place
    ensures Accounts(h.(next := h.next + 1, place := h.place[h.next := p]), permits + 1, poolSize, maxSize)
  {
    assert h.place[h.next := p].Keys == h.place.Keys + {h.next};
  }

  lemma ReleaseAccounts(h: History, permits: int, poolSize: int, maxSize: nat, n: Serial)
    requires Accounts(h, permits, poolSize, maxSize) && n in h.place
    ensures n !in h.published ==> Accounts(h.(place := h.place - {n}), permits - 1, poolSize, maxSize)
    ensures n in h.published ==>
              Accounts(h.(place := h.place - {n}, notified := h.notified + {n}), permits - 1, poolSize - 1, maxSize)
  {
    assert (h.place - {n}).Keys == h.place.Keys - {n};
  }

  /** The steps that touch neither the accounts nor the buckets' numbering. */
  lemma InsertElsewhere(s: State, t: Thread, pc: Pc)
    requires pc.Insert?
    ensures var s' := InsertStep(s, t, pc);
            && (s'.cur, s'.sealed, s'.dropped) == (s.cur, s.sealed, s.dropped)
            && ((pc.at.Counted? && pc.id !in s.idMap) || pc.at.Rejected?
                || (s'.h, s'.permits, s'.poolSize) == (s.h, s.permits, s.poolSize))
  {
    match pc.at
    case Starting =>
    case Loaded =>
    case Locked =>
    case Absent =>
    case Stored =>
    case Counted =>
    case RollingBack =>
    case Uncounting =>
    case Rejected =>
  }

  lemma RemoveElsewhere(s: State, t: Thread, pc: Pc)
    requires !pc.Insert? && (pc.Swapping? || pc.PruneDoomed? ==> pc.id in s.idMap ==> IdOk(s, pc.id, s.idMap[pc.id]))
    ensures var s' := RemoveStep(s, t, pc);
            && (s'.cur, s'.sealed, s'.dropped) == (s.cur, s.sealed, s.dropped)
            && ((pc.Delete? && pc.step.Notifying?)
                || (s'.h.(place := s.h.place), s'.h.place.Keys, s'.permits, s'.poolSize)
                   == (s.h, s.h.place.Keys, s.permits, s.poolSize))
  {
    if pc.Swapping? || pc.PruneDoomed? { assert RemoveStep(s, t, pc).h.place.Keys == s.h.place.Keys; }
  }

  lemma InsertInv(s: State, maxSize: nat, t: Thread, pc: Pc)
    requires Inv(s, maxSize) && At(s, t, pc) && pc.Insert?
    ensures Inv(InsertStep(s, t, pc), maxSize)
  {
    InsertLocal(s, t, pc);
    InsertElsewhere(s, t, pc);
    if pc.at.Counted? && pc.id !in s.idMap {
      PublishAccounts(s.h, s.permits, s.poolSize, maxSize, pc.n, AtSlot(Slot(pc.b, pc.id)));
    } else if pc.at.Rejected? {
      ReleaseAccounts(s.h, s.permits, s.poolSize, maxSize, pc.n);
    }
  }

  lemma RemoveInv(s: State, maxSize: nat, t: Thread, pc: Pc)
    requires Inv(s, maxSize) && At(s, t, pc) && !pc.Insert?
    ensures Inv(RemoveStep(s, t, pc), maxSize)
  {
    RemoveLocal(s, t, pc);
    assert (pc.Swapping? || pc.PruneDoomed?) && pc.id in s.idMap ==> IdOk(s, pc.id, s.idMap[pc.id]);
    RemoveElsewhere(s, t, pc);
    if pc.Delete? && pc.step.Notifying? { ReleaseAccounts(s.h, s.permits, s.poolSize, maxSize, pc.n); }
  }

  lemma SubmitInv(s: State, maxSize: nat, t: Thread, id: Id)
    requires Inv(s, maxSize) && At(s, t, Idle) && s.permits < maxSize
    ensures Inv(Start(s, t, Submit(id)), maxSize)
  {
    var s' := Start(s, t, Submit(id));
    assert Accounts(s'.h, s'.permits, s'.poolSize, maxSize) by {
      NextIsFresh(s);
      AcquireAccounts(s.h, s.permits, s.poolSize, maxSize, AtThread(t));
    }
    assert Local(s') by { SubmitLocal(s, t, id); }
  }

  lemma NextIsFresh(s: State)
    requires Local(s)
    ensures s.h.next !in s.h.place
  {
    assert s.h.next in s.h.place ==> PermitOk(s, s.h.next, s.h.place[s.h.next]);
  }

  lemma StartInv(s: State, maxSize: nat, t: Thread, op: Op)
    requires Inv(s, maxSize) && At(s, t, Idle) && (op.Submit? ==> s.permits < maxSize)
    ensures Inv(Start(s, t, op), maxSize)
  {
    match op
    case Submit(id) => SubmitInv(s, maxSize, t, id);
    case Remove(id, tomb) => MoveLocal(s, t, Idle, Swapping(id, tomb));
    case PruneKey(id) =>
      if id in s.idMap && s.idMap[id].Bucket? { MoveLocal(s, t, Idle, PruneSeen(id, s.idMap[id].no)); }
    case GcKey(id) =>
      if id in s.idMap && s.idMap[id].Tombstone? { MoveLocal(s, t, Idle, Erasing(id, s.idMap[id].token)); }
  }

  lemma SealInv(s: State, maxSize: nat)
    requires Inv(s, maxSize) && Enabled(s, Seal, maxSize)
    ensures Inv(Apply(s, Seal), maxSize)
  {
    SealLocal(s);
  }

  lemma RotateInv(s: State, maxSize: nat)
    requires Inv(s, maxSize) && Enabled(s, Rotate, maxSize)
    ensures Inv(Apply(s, Rotate), maxSize)
  {
    RotateLocal(s);
  }

  lemma DropInv(s: State, maxSize: nat, b: nat)
    requires Inv(s, maxSize) && Enabled(s, Drop(b), maxSize)
    ensures Inv(Apply(s, Drop(b)), maxSize)
  {
    DropLocal(s, b);
  }

  lemma BucketsInv(s: State, maxSize: nat, step: Step)
    requires Inv(s, maxSize) && Enabled(s, step, maxSize) && (step.Seal? || step.Rotate? || step.Drop?)
    ensures Inv(Apply(s, step), maxSize)
  {
    match step
    case Seal => SealInv(s, maxSize);
    case Rotate => RotateInv(s, maxSize);
    case Drop(b) => DropInv(s, maxSize, b);
  }

  /** Every step of every thread keeps the invariant. */
  lemma StepInv(s: State, maxSize: nat, step: Step)
    requires Inv(s, maxSize) && Enabled(s, step, maxSize)
    ensures Inv(Apply(s, step), maxSize)
  {
    if step.Seal? || step.Rotate? || step.Drop? {
      BucketsInv(s, maxSize, step);
    } else {
      var pc := s.threads[step.t];
      assert ThreadOk(s, step.t, pc);
      assert pc.HoldsPermit() ==> PermitOk(s, pc.n, s.h.place[pc.n]);
      match step {
        case Begin(t, op) => StartInv(s, maxSize, t, op);
        case Go(t) => if pc.Insert? { InsertInv(s, maxSize, t, pc); } else { RemoveInv(s, maxSize, t, pc); }
        case Keep(t) => MoveLocal(s, t, pc, Idle);
      }
    }
  }

  // ---------- Runs ----------

  /** Any finite interleaving, from the empty store. */
  ghost predicate IsRun(run: seq<State>, steps: seq<Step>, threads: set<Thread>, maxSize: nat) {
    && |run| == |steps| + 1
    && run[0] == Init(threads)
    && forall i {:trigger steps[i]} | 0 <= i < |steps| ::
         Enabled(run[i], steps[i], maxSize) && run[i + 1] == Apply(run[i], steps[i])
  }

  /** s occurs in some run. */
  ghost predicate Reachable(s: State, maxSize: nat) {
    exists run, steps, threads :: IsRun(run, steps, threads, maxSize) && s in run
  }

  lemma {:induction false} RunInv(run: seq<State>, steps: seq<Step>, threads: set<Thread>, maxSize: nat, i: nat)
    requires IsRun(run, steps, threads, maxSize) && i < |run|
    ensures Inv(run[i], maxSize)
  {
    if i == 0 {
      InitInv(threads, maxSize);
    } else {
      RunInv(run, steps, threads, maxSize, i - 1);
      StepInv(run[i - 1], maxSize, steps[i - 1]);
    }
  }

  lemma ReachableInv(s: State, maxSize: nat)
    requires Reachable(s, maxSize)
    ensures Inv(s, maxSize)
  {
    var run, steps, threads :| IsRun(run, steps, threads, maxSize) && s in run;
    var i :| 0 <= i < |run| && run[i] == s;
    RunInv(run, steps, threads, maxSize, i);
  }

  /** The threads that own the payload of a slot. */
  ghost function Holders(s: State, slot: Slot): set<Thread> {
    set t | t in s.threads && s.threads[t].HoldsSlot() && Slot(s.threads[t].b, s.threads[t].id) == slot
  }

  ghost predicate Maps(s: State, slot: Slot) {
    slot.id in s.idMap && s.idMap[slot.id] == Bucket(slot.b)
  }

  /**
   * A payload is stored exactly when it has an owner, and then exactly one: its id's entry, or one
   * thread that is inserting or removing it.  In particular an id that maps to a bucket finds its
   * payload there, and a removal that takes an id over finds the payload it must delete.
   */
  lemma OneOwner(s: State, maxSize: nat, slot: Slot)
    requires Reachable(s, maxSize)
    ensures slot in s.payload <==> Maps(s, slot) || Holders(s, slot) != {}
    ensures Maps(s, slot) ==> Holders(s, slot) == {}
    ensures |Holders(s, slot)| <= 1
  {
    ReachableInv(s, maxSize);
    assert slot in s.payload ==> SlotOk(s, slot, s.payload[slot]);
    assert slot.id in s.idMap ==> IdOk(s, slot.id, s.idMap[slot.id]);
    forall t | t in Holders(s, slot)
      ensures slot in s.payload && s.h.place[s.payload[slot]] == AtThread(t) && Holders(s, slot) == {t}
    {
      assert ThreadOk(s, t, s.threads[t]);
      forall t' | t' in Holders(s, slot) ensures t' == t { assert ThreadOk(s, t', s.threads[t']); }
    }
    if slot in s.payload && !Maps(s, slot) {
      var n := s.payload[slot];
      assert PermitOk(s, n, s.h.place[n]);
      assert s.h.place[n].t in Holders(s, slot);
    }
    if Holders(s, slot) != {} {
      var t :| t in Holders(s, slot);
      assert Holders(s, slot) == {t};
    }
  }

  /**
   * OnDelete runs at most once per insertion: a thread about to call it does so for a published
   * submission that was not reported before, and its Release is matched by a permit.
   */
  lemma OnDeleteOnce(s: State, maxSize: nat, t: Thread)
    requires Reachable(s, maxSize) && t in s.threads
    requires s.threads[t].Delete? && s.threads[t].step.Notifying?
    ensures s.threads[t].n in s.h.published && s.threads[t].n !in s.h.notified && s.permits >= 1
  {
    ReachableInv(s, maxSize);
    var pc := s.threads[t];
    assert ThreadOk(s, t, pc);
    assert PermitOk(s, pc.n, s.h.place[pc.n]);
    assert |s.h.place.Keys - {pc.n}| >= 0;
  }

  /** The ids the store holds. */
  ghost function HeldIds(s: State): set<Id> {
    set id | id in s.idMap && s.idMap[id].Bucket?
  }

  ghost predicate Quiescent(s: State) {
    forall t | t in s.threads :: s.threads[t].Idle?
  }

  ghost function SerialOf(s: State, id: Id): Serial
    requires id in s.idMap && s.idMap[id].Bucket? && Slot(s.idMap[id].no, id) in s.payload
  {
    s.payload[Slot(s.idMap[id].no, id)]
  }

  /**
   * When no operation is in flight, the permits taken, Pool.size and the number of ids held agree,
   * within capacity; and every insertion that was published is either still held or was reported to
   * OnDelete.
   */
  lemma QuiescentAccounts(s: State, maxSize: nat)
    requires Reachable(s, maxSize) && Quiescent(s)
    ensures s.permits == s.poolSize == |HeldIds(s)| <= maxSize
    ensures forall id | id in HeldIds(s) :: Slot(s.idMap[id].no, id) in s.payload
    ensures s.h.published - s.h.notified == set id | id in HeldIds(s) :: SerialOf(s, id)
  {
    ReachableInv(s, maxSize);
    forall id | id in HeldIds(s)
      ensures Slot(s.idMap[id].no, id) in s.payload && SerialOf(s, id) in s.h.place
      ensures s.h.place[SerialOf(s, id)] == AtSlot(Slot(s.idMap[id].no, id))
    {
      assert IdOk(s, id, s.idMap[id]);
    }
    var serials := map id | id in HeldIds(s) :: SerialOf(s, id);
    forall n | n in s.h.place ensures n in serials.Values && n in s.h.published {
      assert PermitOk(s, n, s.h.place[n]);
      var id := s.h.place[n].slot.id;
      assert id in serials && serials[id] == n;
    }
    assert serials.Values == s.h.place.Keys;
    assert s.h.published - s.h.notified == s.h.place.Keys;
    InjectiveSize(serials);
    assert serials.Keys == HeldIds(s);
    assert |s.h.published - s.h.notified| == |s.h.published| - |s.h.notified|;
  }

  lemma SealedIsCounted(s: State, slot: Slot)
    requires Local(s) && slot in s.payload && slot.b in s.sealed
    ensures slot.b in s.counted && s.payload[slot] in s.counted[slot.b]
  {
    var n := s.payload[slot];
    assert SlotOk(s, slot, n);
    assert PermitOk(s, n, s.h.place[n]);
    if s.h.place[n].AtThread? { assert ThreadOk(s, s.h.place[n].t, s.threads[s.h.place[n].t]); }
  }

  /** No request is lost with a bucket: one that may be dropped, or was dropped, holds none. */
  lemma DroppedBucketIsEmpty(s: State, maxSize: nat, slot: Slot)
    requires Reachable(s, maxSize)
    requires Enabled(s, Drop(slot.b), maxSize) || slot.b in s.dropped
    ensures slot !in s.payload && !Maps(s, slot)
  {
    ReachableInv(s, maxSize);
    assert BucketOk(s, slot.b);
    if slot in s.payload {
      SealedIsCounted(s, slot);
      assert false;
    }
    OneOwner(s, maxSize, slot);
  }

  // ---------- A store filled anew ----------

  /** These steps lead from s to s'. */
  ghost predicate Leads(s: State, steps: seq<Step>, s': State, maxSize: nat)
    decreases |steps|
  {
    if steps == [] then s' == s
    else Enabled(s, steps[0], maxSize) && Leads(Apply(s, steps[0]), steps[1..], s', maxSize)
  }

  lemma ReachableStep(s: State, step: Step, maxSize: nat)
    requires Reachable(s, maxSize) && Enabled(s, step, maxSize)
    ensures Reachable(Apply(s, step), maxSize)
  {
    var run, steps, threads :| IsRun(run, steps, threads, maxSize) && s in run;
    var i :| 0 <= i < |run| && run[i] == s;
    var run' := run[..i + 1] + [Apply(s, step)];
    assert IsRun(run', steps[..i] + [step], threads, maxSize);
    assert run'[i + 1] == Apply(s, step);
  }

  lemma {:induction false} ReachableLeads(s: State, steps: seq<Step>, s': State, maxSize: nat)
    requires Reachable(s, maxSize) && Leads(s, steps, s', maxSize)
    ensures Reachable(s', maxSize)
    decreases |steps|
  {
    if steps != [] {
      ReachableStep(s, steps[0], maxSize);
      ReachableLeads(Apply(s, steps[0]), steps[1..], s', maxSize);
    }
  }

  /** A submission begins, with a permit that was taken before. */
  function Begun(s: State, t: Thread, id: Id): State {
    s.(threads := s.threads[t := Insert(Starting, id, s.h.next, 0)],
       h := s.h.(next := s.h.next + 1, place := s.h.place[s.h.next := AtThread(t)]))
  }

  /** The next n steps of thread t, alone; an idle thread does nothing. */
  function Finish(s: State, t: Thread, n: nat): State
    decreases n
  {
    if n == 0 || t !in s.threads then s else Finish(Apply(s, Go(t)), t, n - 1)
  }

  /** submitToPendingStore, alone, which takes at most n steps; a refused request releases its permit. */
  function Resubmit(s: State, t: Thread, id: Id, n: nat): State { Finish(Begun(s, t, id), t, n) }

  function ResubmitAll(s: State, t: Thread, ids: seq<Id>, n: nat): State {
    if ids == [] then s else Resubmit(ResubmitAll(s, t, ids[..|ids| - 1], n), t, ids[|ids| - 1], n)
  }

  /** From Starting to the end of an accepted submission; a refusal is shorter. */
  const SUBMIT_STEPS: nat := 6

  function Shift(s: State, k: int): State { s.(permits := s.permits + k) }

  predicate Early(at: InsertAt) { at.Starting? || at.Loaded? || at.Locked? || at.Absent? }

  /** No step of a submission looks at the number of permits. */
  lemma InsertShift(s: State, t: Thread, pc: Pc, k: int)
    requires pc.Insert?
    ensures InsertStep(Shift(s, k), t, pc) == Shift(InsertStep(s, t, pc), k)
  {
    if Early(pc.at) { EarlyShift(s, t, pc, k); } else { LateShift(s, t, pc, k); }
  }

  lemma EarlyShift(s: State, t: Thread, pc: Pc, k: int)
    requires pc.Insert? && Early(pc.at)
    ensures InsertStep(Shift(s, k), t, pc) == Shift(InsertStep(s, t, pc), k)
  {
    if !pc.at.Absent? {
      match pc.at
      case Starting =>
      case Loaded =>
      case Locked =>
    } else {
      AbsentShift(s, t, pc, k);
    }
  }

  lemma AbsentShift(s: State, t: Thread, pc: Pc, k: int)
    requires pc.Insert? && pc.at.Absent?
    ensures InsertStep(Shift(s, k), t, pc) == Shift(InsertStep(s, t, pc), k)
  {
  }

  lemma LateShift(s: State, t: Thread, pc: Pc, k: int)
    requires pc.Insert? && !Early(pc.at)
    ensures InsertStep(Shift(s, k), t, pc) == Shift(InsertStep(s, t, pc), k)
  {
    if pc.at.Stored? || pc.at.Uncounting? {
      ResizeShift(s, t, pc, k);
    } else {
      match pc.at
      case Counted =>
      case RollingBack =>
      case Rejected =>
    }
  }

  lemma ResizeShift(s: State, t: Thread, pc: Pc, k: int)
    requires pc.Insert? && (pc.at.Stored? || pc.at.Uncounting?)
    ensures InsertStep(Shift(s, k), t, pc) == Shift(InsertStep(s, t, pc), k)
  {
    var d := if pc.at.Stored? then 1 else -1;
    var c := if pc.at.Stored? then SetOf(s, pc.b) + {pc.n} else SetOf(s, pc.b) - {pc.n};
    var pc' := pc.(at := if pc.at.Stored? then Counted else Rejected);
    assert InsertStep(s, t, pc) == Resize(s, pc.b, d, c, t, pc');
  }

  lemma InsertContinues(s: State, t: Thread, pc: Pc)
    requires pc.Insert?
    ensures var s' := InsertStep(s, t, pc); t in s'.threads && (s'.threads[t].Insert? || s'.threads[t].Idle?)
  {
    if Early(pc.at) { EarlyContinues(s, t, pc); } else { LateContinues(s, t, pc); }
  }

  lemma EarlyContinues(s: State, t: Thread, pc: Pc)
    requires pc.Insert? && Early(pc.at)
    ensures var s' := InsertStep(s, t, pc); t in s'.threads && s'.threads[t].Insert?
  {
    match pc.at
    case Starting =>
    case Loaded =>
    case Locked =>
    case Absent =>
  }

  lemma LateContinues(s: State, t: Thread, pc: Pc)
    requires pc.Insert? && !Early(pc.at)
    ensures var s' := InsertStep(s, t, pc); t in s'.threads && (s'.threads[t].Insert? || s'.threads[t].Idle?)
  {
    match pc.at
    case Stored =>
    case Counted =>
    case RollingBack =>
    case Uncounting =>
    case Rejected =>
  }

  lemma {:induction false} FinishShift(s: State, t: Thread, n: nat, k: int)
    requires t in s.threads && (s.threads[t].Insert? || s.threads[t].Idle?)
    ensures Finish(Shift(s, k), t, n) == Shift(Finish(s, t, n), k)
    decreases n
  {
    if n > 0 {
      var s' := Apply(s, Go(t));
      if s.threads[t].Insert? {
        InsertShift(s, t, s.threads[t], k);
        InsertContinues(s, t, s.threads[t]);
      }
      assert Apply(Shift(s, k), Go(t)) == Shift(s', k);
      FinishShift(s', t, n - 1, k);
    }
  }

  lemma ResubmitShift(s: State, t: Thread, id: Id, n: nat, k: int)
    ensures Resubmit(Shift(s, k), t, id, n) == Shift(Resubmit(s, t, id, n), k)
  {
    assert Begun(Shift(s, k), t, id) == Shift(Begun(s, t, id), k);
    FinishShift(Begun(s, t, id), t, n, k);
  }

  lemma GoReachable(s: State, t: Thread, n: nat, maxSize: nat) returns (s': State)
    requires Reachable(s, maxSize) && t in s.threads && n > 0
    ensures Reachable(s', maxSize) && s' == Apply(s, Go(t)) && Finish(s, t, n) == Finish(s', t, n - 1)
  {
    s' := Apply(s, Go(t));
    ReachableStep(s, Go(t), maxSize);
  }

  lemma Begins(s: State, t: Thread, id: Id, maxSize: nat) returns (s': State)
    requires Reachable(s, maxSize) && Quiescent(s) && t in s.threads && s.permits < maxSize
    ensures Reachable(s', maxSize) && s' == Shift(Begun(s, t, id), 1)
  {
    ReachableStep(s, Begin(t, Submit(id)), maxSize);
    s' := Apply(s, Begin(t, Submit(id)));
  }

  /** The two steps up to the read lock. */
  lemma LockSteps(s: State, t: Thread, id: Id, n: Serial)
    requires t in s.threads && s.threads[t] == Insert(Starting, id, n, 0) && s.cur !in s.sealed
    ensures var s1 := Apply(s, Go(t));
            t in s1.threads && Apply(s1, Go(t)) == s.(threads := s.threads[t := Insert(Locked, id, n, s.cur)])
  {
    var s1 := Apply(s, Go(t));
    assert s1 == s.(threads := s.threads[t := Insert(Loaded, id, n, s.cur)]);
    var s2 := Apply(s1, Go(t));
    assert s2.threads == s.threads[t := Insert(Locked, id, n, s.cur)];
  }

  lemma Locks(s: State, t: Thread, id: Id, n: nat, maxSize: nat) returns (s': State)
    requires Reachable(s, maxSize) && Quiescent(s) && t in s.threads && s.permits < maxSize && s.cur !in s.sealed
    ensures Reachable(s', maxSize) && s'.threads == s.threads[t := Insert(Locked, id, s.h.next, s.cur)]
    ensures (s'.idMap, s'.payload, s'.cur, s'.sealed, s'.permits)
            == (s.idMap, s.payload, s.cur, s.sealed, s.permits + 1)
    ensures Finish(Shift(Begun(s, t, id), 1), t, n + 2) == Finish(s', t, n)
  {
    s' := Begins(s, t, id, maxSize);
    LockSteps(s', t, id, s.h.next);
    s' := GoReachable(s', t, n + 2, maxSize);
    s' := GoReachable(s', t, n + 1, maxSize);
  }

  lemma Stores(s: State, t: Thread, id: Id, n: nat, maxSize: nat) returns (s': State)
    requires Reachable(s, maxSize) && Quiescent(s) && t in s.threads && s.permits < maxSize
    requires id !in s.idMap && s.cur !in s.sealed
    ensures Reachable(s', maxSize) && s'.threads == s.threads[t := Insert(Stored, id, s.h.next, s.cur)]
    ensures (s'.idMap, s'.cur, s'.sealed, s'.permits) == (s.idMap, s.cur, s.sealed, s.permits + 1)
    ensures Finish(Shift(Begun(s, t, id), 1), t, n + 4) == Finish(s', t, n)
  {
    OneOwner(s, maxSize, Slot(s.cur, id));
    s' := Locks(s, t, id, n + 2, maxSize);
    s' := GoReachable(s', t, n + 2, maxSize);
    s' := GoReachable(s', t, n + 1, maxSize);
  }

  /** The two steps from the stored payload to the published id. */
  lemma PublishSteps(s: State, t: Thread, pc: Pc)
    requires t in s.threads && s.threads[t] == pc && pc.Insert? && pc.at.Stored? && pc.id !in s.idMap
    ensures var s1 := Apply(s, Go(t));
            && t in s1.threads
            && var s2 := Apply(s1, Go(t));
               && s2.threads == s.threads[t := Idle] && s2.idMap == s.idMap[pc.id := Bucket(pc.b)]
               && (s2.cur, s2.sealed, s2.permits) == (s.cur, s.sealed, s.permits)
  {
    var s1 := Apply(s, Go(t));
    assert s1 == Resize(s, pc.b, 1, SetOf(s, pc.b) + {pc.n}, t, Insert(Counted, pc.id, pc.n, pc.b));
    var s2 := Apply(s1, Go(t));
    assert s2 == Publish(s1, t, s1.threads[t]);
    assert s1.threads[t := Idle] == s.threads[t := Idle];
  }

  /** Another request, put in by a thread that is alone. */
  lemma PutIn(s: State, t: Thread, id: Id, n: nat, maxSize: nat) returns (s': State)
    requires Reachable(s, maxSize) && Quiescent(s) && t in s.threads && s.permits < maxSize
    requires id !in s.idMap && s.cur !in s.sealed && n == SUBMIT_STEPS
    ensures Reachable(s', maxSize) && Quiescent(s') && s'.threads.Keys == s.threads.Keys && s'.permits == s.permits + 1
    ensures s'.idMap == s.idMap[id := Bucket(s.cur)] && s'.cur !in s'.sealed
    ensures s' == Finish(Shift(Begun(s, t, id), 1), t, n)
  {
    s' := Stores(s, t, id, n - 4, maxSize);
    PublishSteps(s', t, s'.threads[t]);
    s' := GoReachable(s', t, n - 4, maxSize);
    s' := GoReachable(s', t, n - 5, maxSize);
  }

  /** Nothing is in flight, nothing sealed, and there is no tombstone. */
  ghost predicate Refilled(s: State, ids: set<Id>, maxSize: nat) {
    Reachable(s, maxSize) && Quiescent(s) && HeldIds(s) == s.idMap.Keys == ids && s.cur !in s.sealed
  }

  lemma InitRefilled(threads: set<Thread>, maxSize: nat)
    ensures Refilled(Init(threads), {}, maxSize)
  {
    var run := [Init(threads)];
    assert IsRun(run, [], threads, maxSize);
    assert run[0] in run;
  }

  /** A permit that was taken before instead of at the start makes no difference. */
  lemma SamePermits(s: State, t: Thread, id: Id, n: nat, s': State, permits: int)
    requires s' == Finish(Shift(Begun(s, t, id), 1), t, n) && s'.permits == s.permits + 1
    ensures Resubmit(Shift(s, permits - s.permits), t, id, n) == Shift(s', permits - s'.permits)
  {
    FinishShift(Begun(s, t, id), t, n, 1);
    ResubmitShift(s, t, id, n, permits - s.permits);
    var r := Resubmit(s, t, id, n);
    assert s' == Shift(r, 1);
    assert Shift(s', permits - s'.permits) == Shift(r, permits - s.permits);
  }

  lemma RefillNext(s: State, t: Thread, ids: set<Id>, id: Id, n: nat, maxSize: nat) returns (s': State)
    requires Refilled(s, ids, maxSize) && t in s.threads && |ids| < maxSize && id !in ids && n == SUBMIT_STEPS
    ensures Refilled(s', ids + {id}, maxSize) && s'.threads.Keys == s.threads.Keys
    ensures s' == Finish(Shift(Begun(s, t, id), 1), t, n) && s'.permits == s.permits + 1
  {
    QuiescentAccounts(s, maxSize);
    s' := PutIn(s, t, id, n, maxSize);
  }

  /** With another number of permits, the steps are the same. */
  ghost predicate FilledBy(s: State, start: State, t: Thread, ids: seq<Id>, n: nat, permits: int) {
    ResubmitAll(start, t, ids, n) == Shift(s, permits - s.permits)
  }

  lemma FilledNext(s: State, start: State, t: Thread, ids: seq<Id>, n: nat, permits: int, s': State)
    requires ids != [] && FilledBy(s, start, t, ids[..|ids| - 1], n, permits)
    requires s' == Finish(Shift(Begun(s, t, ids[|ids| - 1]), 1), t, n) && s'.permits == s.permits + 1
    ensures FilledBy(s', start, t, ids, n, permits)
  {
    SamePermits(s, t, ids[|ids| - 1], n, s', permits);
  }

  lemma {:induction false} RefillBy(threads: set<Thread>, t: Thread, ids: seq<Id>, n: nat, maxSize: nat, permits: int)
    returns (s: State)
    requires t in threads && Distinct(ids) && |ids| <= maxSize && n == SUBMIT_STEPS
    ensures Refilled(s, Elements(ids), maxSize) && s.threads.Keys == threads
    ensures FilledBy(s, Init(threads).(permits := permits), t, ids, n, permits)
    decreases |ids|
  {
    if ids == [] {
      s := Init(threads);
      InitRefilled(threads, maxSize);
    } else {
      var k := |ids| - 1;
      var before := RefillBy(threads, t, ids[..k], n, maxSize, permits);
      LastElement(ids);
      s := RefillNext(before, t, Elements(ids[..k]), ids[k], n, maxSize);
      FilledNext(before, Init(threads).(permits := permits), t, ids, n, permits, s);
    }
  }

  /**
   * A new store, into which distinct requests are put one after the other, with one permit taken before for each, is
   * then in a state of the protocol, and has them all.
   */
  lemma Refill(threads: set<Thread>, t: Thread, ids: seq<Id>, n: nat, maxSize: nat)
    requires t in threads && Distinct(ids) && |ids| <= maxSize && n == SUBMIT_STEPS
    ensures Refilled(ResubmitAll(Init(threads).(permits := |ids|), t, ids, n), Elements(ids), maxSize)
  {
    var s := RefillBy(threads, t, ids, n, maxSize, |ids|);
    QuiescentAccounts(s, maxSize);
    DistinctSize(ids);
    assert Shift(s, 0) == s;
  }

  // ---------- What a restart finds ----------

  /** GetAllRequests ranges over the payloads of the buckets that were not dropped, in any order. */
  ghost predicate ListedBy(s: State, slots: seq<Slot>) {
    Distinct(slots) && forall slot :: slot in slots <==> slot in s.payload && slot.b !in s.dropped
  }

  function IdsOf(slots: seq<Slot>): seq<Id> { seq(|slots|, i requires 0 <= i < |slots| => slots[i].id) }

  lemma ListedIsHeld(s: State, maxSize: nat, slots: seq<Slot>, slot: Slot)
    requires Reachable(s, maxSize) && Quiescent(s) && ListedBy(s, slots)
    ensures slot in slots <==> Maps(s, slot)
  {
    OneOwner(s, maxSize, slot);
    if slot.b in s.dropped {
      DroppedBucketIsEmpty(s, maxSize, slot);
    }
  }

  /**
   * With no call in flight, whatever interleaving came before, the list has exactly the ids held, each of them once.
   */
  lemma ListedExactly(s: State, maxSize: nat, slots: seq<Slot>)
    requires Reachable(s, maxSize) && Quiescent(s) && ListedBy(s, slots)
    ensures Distinct(IdsOf(slots)) && Elements(IdsOf(slots)) == HeldIds(s)
    ensures s.permits == s.poolSize == |slots|
  {
    var ids := IdsOf(slots);
    forall i, j | 0 <= i < j < |ids| ensures ids[i] != ids[j] {
      ListedIsHeld(s, maxSize, slots, slots[i]);
      ListedIsHeld(s, maxSize, slots, slots[j]);
    }
    forall id ensures id in ids <==> id in HeldIds(s) {
      if id in ids {
        var i :| 0 <= i < |ids| && ids[i] == id;
        ListedIsHeld(s, maxSize, slots, slots[i]);
      }
      if id in HeldIds(s) {
        var slot := Slot(s.idMap[id].no, id);
        ListedIsHeld(s, maxSize, slots, slot);
        var i :| 0 <= i < |slots| && slots[i] == slot;
        assert ids[i] == id;
      }
    }
    DistinctSize(ids);
    QuiescentAccounts(s, maxSize);
  }

  // ---------- When a submission is refused ----------

  /** The submission is on its way to a refusal. */
  predicate Refusing(pc: Pc) { pc.Insert? && (pc.at.RollingBack? || pc.at.Uncounting? || pc.at.Rejected?) }

  /** Someone holds or has tombstoned the id, or its payload is in this bucket already. */
  predicate KnownTo(s: State, id: Id, b: nat) { id in s.idMap || Slot(b, id) in s.payload }

  /** The same submission, to the same bucket. */
  predicate SameInsert(x: Pc, y: Pc) { x.Insert? && y.Insert? && (x.n, x.id, x.b) == (y.n, y.id, y.b) }

  /** A step towards a refusal is taken for a known id only; a sealed bucket is no reason. */
  lemma RefusingStep(s: State, t: Thread, pc: Pc)
    requires pc.Insert? && !Refusing(pc)
    ensures var s' := InsertStep(s, t, pc);
            t in s'.threads && (Refusing(s'.threads[t]) ==> KnownTo(s, pc.id, pc.b) && SameInsert(s'.threads[t], pc))
  {
    match pc.at
    case Starting =>
    case Loaded =>
    case Locked =>
    case Absent =>
    case Stored =>
    case Counted =>
  }

  /** A refusal goes on for the same submission. */
  lemma RefusalGoesOn(s: State, t: Thread, pc: Pc)
    requires Refusing(pc)
    ensures var s' := InsertStep(s, t, pc);
            t in s'.threads && (s'.threads[t].Idle? || (Refusing(s'.threads[t]) && SameInsert(s'.threads[t], pc)))
  {
    match pc.at
    case RollingBack =>
    case Uncounting =>
    case Rejected =>
  }

  /** Other threads' steps and those of buckets do not move a thread. */
  lemma OthersStay(s: State, step: Step, t: Thread)
    requires (step.Begin? || step.Go? || step.Keep? ==> step.t in s.threads && step.t != t)
    ensures t in Apply(s, step).threads <==> t in s.threads
    ensures t in s.threads ==> Apply(s, step).threads[t] == s.threads[t]
  {
    if step.Go? {
      if s.threads[step.t].Insert? {
        InsertMovesOne(s, step.t, s.threads[step.t], t);
      } else {
        RemoveMovesOne(s, step.t, s.threads[step.t], t);
      }
    }
  }

  lemma InsertMovesOne(s: State, u: Thread, pc: Pc, t: Thread)
    requires pc.Insert? && u != t
    ensures t in InsertStep(s, u, pc).threads <==> t in s.threads
    ensures t in s.threads ==> InsertStep(s, u, pc).threads[t] == s.threads[t]
  {
    match pc.at
    case Starting =>
    case Loaded =>
    case Locked =>
    case Absent =>
    case Stored =>
    case Counted =>
    case RollingBack =>
    case Uncounting =>
    case Rejected =>
  }

  lemma RemoveMovesOne(s: State, u: Thread, pc: Pc, t: Thread)
    requires !pc.Insert? && u != t
    ensures t in RemoveStep(s, u, pc).threads <==> t in s.threads
    ensures t in s.threads ==> RemoveStep(s, u, pc).threads[t] == s.threads[t]
  {
    match pc
    case Idle =>
    case Swapping(id, tomb) =>
    case Delete(step, id, n, b, erase) =>
    case Erasing(id, tomb) =>
    case PruneSeen(id, b) =>
    case PruneDoomed(id, b) =>
  }

  /** No step of a removal or at the start of an operation begins a refusal. */
  lemma NoRefusalElsewhere(s: State, step: Step, t: Thread)
    requires t in s.threads && (step.Begin? || step.Keep? || (step.Go? && !s.threads[t].Insert?)) && step.t == t
    requires step.Begin? ==> s.threads[t].Idle?
    ensures t in Apply(s, step).threads && !Refusing(Apply(s, step).threads[t])
  {
    match step
    case Begin(_, op) =>
    case Keep(_) =>
    case Go(_) => RemovalRefusesNone(s, t, s.threads[t]);
  }

  lemma RemovalRefusesNone(s: State, t: Thread, pc: Pc)
    requires !pc.Insert? && t in s.threads && s.threads[t] == pc
    ensures t in RemoveStep(s, t, pc).threads && !RemoveStep(s, t, pc).threads[t].Insert?
  {
    match pc
    case Idle =>
    case Swapping(id, tomb) =>
    case Delete(step, id, n, b, erase) =>
    case Erasing(id, tomb) =>
    case PruneSeen(id, b) =>
    case PruneDoomed(id, b) =>
  }

  /** At some point of the run, thread t was inserting this submission, whose id was known there. */
  ghost predicate WasKnown(s: State, t: Thread, pc: Pc) {
    t in s.threads && SameInsert(s.threads[t], pc) && KnownTo(s, pc.id, pc.b)
  }

  lemma CauseBefore(s: State, step: Step, t: Thread, maxSize: nat)
    requires Enabled(s, step, maxSize)
    requires t in Apply(s, step).threads && Refusing(Apply(s, step).threads[t])
    ensures var pc := Apply(s, step).threads[t];
            || WasKnown(s, t, pc)
            || (t in s.threads && Refusing(s.threads[t]) && SameInsert(s.threads[t], pc))
  {
    if (step.Begin? || step.Go? || step.Keep?) && step.t == t {
      if step.Go? && s.threads[t].Insert? {
        if Refusing(s.threads[t]) {
          RefusalGoesOn(s, t, s.threads[t]);
        } else {
          RefusingStep(s, t, s.threads[t]);
        }
      } else {
        NoRefusalElsewhere(s, step, t);
      }
    } else {
      OthersStay(s, step, t);
    }
  }

  /**
   * Over every run: a submission is refused only if its id was known at some point while it was being inserted.  In
   * particular a bucket that is sealed in between is no reason.
   */
  lemma {:induction false} RefusedOnlyIfKnown(run: seq<State>, steps: seq<Step>, threads: set<Thread>, maxSize: nat,
                                              i: nat, t: Thread)
    returns (k: nat)
    requires IsRun(run, steps, threads, maxSize) && i < |run| && t in run[i].threads && Refusing(run[i].threads[t])
    ensures k < i && WasKnown(run[k], t, run[i].threads[t])
    decreases i
  {
    assert i > 0;
    var j := i - 1;
    assert Enabled(run[j], steps[j], maxSize) && run[j + 1] == Apply(run[j], steps[j]);
    CauseBefore(run[j], steps[j], t, maxSize);
    if WasKnown(run[j], t, run[i].threads[t]) {
      k := j;
    } else {
      k := RefusedOnlyIfKnown(run, steps, threads, maxSize, j, t);
    }
  }

  // ---------- How a lone submission ends ----------

  lemma {:induction false} FinishIdle(s: State, t: Thread, n: nat)
    requires t in s.threads && s.threads[t].Idle?
    ensures Finish(s, t, n) == s
    decreases n
  {
    if n > 0 { FinishIdle(s, t, n - 1); }
  }

  /** The submission has ended: refused, with its permit released, or held in the current bucket. */
  ghost predicate Refused(s: State, s': State, t: Thread) {
    && s'.threads == s.threads[t := Idle] && s'.idMap == s.idMap && s'.payload == s.payload
    && (s'.permits, s'.poolSize, s'.cur) == (s.permits - 1, s.poolSize, s.cur)
  }

  ghost predicate Accepted(s: State, s': State, t: Thread, id: Id, n: Serial) {
    && s'.threads == s.threads[t := Idle] && s'.idMap == s.idMap[id := Bucket(s.cur)]
    && s'.payload == s.payload[Slot(s.cur, id) := n]
    && (s'.permits, s'.poolSize, s'.cur) == (s.permits, s.poolSize + 1, s.cur)
  }

  ghost predicate Decided(s: State, s': State, t: Thread, id: Id, n: Serial) {
    if id in s.idMap then Refused(s, s', t) else Accepted(s, s', t, id, n)
  }

  function Moved(s: State, t: Thread, pc: Pc): State { s.(threads := s.threads[t := pc]) }

  /** Other program counters of the same thread make no difference. */
  lemma DecidedFrom(s: State, s': State, t: Thread, pc: Pc, id: Id, n: Serial)
    requires Decided(Moved(s, t, pc), s', t, id, n)
    ensures Decided(s, s', t, id, n)
  {
    assert s.threads[t := pc][t := Idle] == s.threads[t := Idle];
  }

  lemma FromRejected(s: State, t: Thread, pc: Pc, n: nat)
    requires t in s.threads && s.threads[t] == pc && pc.Insert? && pc.at.Rejected? && n >= 1
    ensures Refused(s, Finish(s, t, n), t)
  {
    FinishIdle(Apply(s, Go(t)), t, n - 1);
  }

  lemma RollbackSteps(s: State, t: Thread, pc: Pc)
    requires t in s.threads && s.threads[t] == pc && pc.Insert? && pc.at.Counted? && pc.id in s.idMap
    requires Slot(pc.b, pc.id) in s.payload
    ensures var s1 := Apply(s, Go(t));
            && t in s1.threads
            && var s2 := Apply(s1, Go(t));
               && t in s2.threads
               && var s3 := Apply(s2, Go(t));
                  && s3.threads == s.threads[t := Insert(Rejected, pc.id, pc.n, pc.b)] && s3.idMap == s.idMap
                  && s3.payload == s.payload - {Slot(pc.b, pc.id)}
                  && (s3.permits, s3.poolSize, s3.cur) == (s.permits, s.poolSize, s.cur)
  {
    var s1 := Apply(s, Go(t));
    assert s1 == Moved(s, t, Insert(RollingBack, pc.id, pc.n, pc.b));
    var s2 := Apply(s1, Go(t));
    assert s2 == Moved(s, t, Insert(Uncounting, pc.id, pc.n, pc.b)).(payload := s.payload - {Slot(pc.b, pc.id)});
    var s3 := Apply(s2, Go(t));
    assert s3.threads == s.threads[t := Insert(Rejected, pc.id, pc.n, pc.b)];
  }

  /** The id is known though the payload was stored: it is taken back. */
  lemma FromCountedKnown(s: State, t: Thread, pc: Pc, n: nat)
    requires t in s.threads && s.threads[t] == pc && pc.Insert? && pc.at.Counted? && pc.id in s.idMap && n >= 4
    requires Slot(pc.b, pc.id) in s.payload
    ensures Refused(s.(payload := s.payload - {Slot(pc.b, pc.id)}), Finish(s, t, n), t)
  {
    RollbackSteps(s, t, pc);
    var s1 := Apply(s, Go(t));
    var s2 := Apply(s1, Go(t));
    var s3 := Apply(s2, Go(t));
    assert Finish(s, t, n) == Finish(s1, t, n - 1) == Finish(s2, t, n - 2) == Finish(s3, t, n - 3);
    FromRejected(s3, t, s3.threads[t], n - 3);
    assert s3.threads[t := Idle] == s.threads[t := Idle];
  }

  lemma StoreSteps(s: State, t: Thread, pc: Pc)
    requires t in s.threads && s.threads[t] == pc && pc.Insert? && pc.at.Absent? && Slot(pc.b, pc.id) !in s.payload
    ensures var s1 := Apply(s, Go(t));
            && s1 == Moved(s, t, Insert(Stored, pc.id, pc.n, pc.b)).(payload := s.payload[Slot(pc.b, pc.id) := pc.n])
            && var s2 := Apply(s1, Go(t));
               && s2.threads == s.threads[t := Insert(Counted, pc.id, pc.n, pc.b)] && s2.idMap == s.idMap
               && s2.payload == s1.payload && (s2.permits, s2.poolSize, s2.cur) == (s.permits, s.poolSize, s.cur)
  {
    var s1 := Apply(s, Go(t));
    assert s1 == Moved(s, t, Insert(Stored, pc.id, pc.n, pc.b)).(payload := s.payload[Slot(pc.b, pc.id) := pc.n]);
    var s2 := Apply(s1, Go(t));
    assert s2.threads == s.threads[t := Insert(Counted, pc.id, pc.n, pc.b)];
  }

  lemma FromAbsent(s: State, t: Thread, pc: Pc, n: nat)
    requires t in s.threads && s.threads[t] == pc && pc.Insert? && pc.at.Absent? && pc.b == s.cur && n >= 6
    requires Slot(s.cur, pc.id) in s.payload ==> pc.id in s.idMap
    ensures Decided(s, Finish(s, t, n), t, pc.id, pc.n)
  {
    var s1 := Apply(s, Go(t));
    if Slot(s.cur, pc.id) in s.payload {
      assert s1 == Moved(s, t, Insert(Rejected, pc.id, pc.n, pc.b));
      FromRejected(s1, t, s1.threads[t], n - 1);
      DecidedFrom(s, Finish(s, t, n), t, s1.threads[t], pc.id, pc.n);
    } else {
      FromStoring(s, t, pc, n);
    }
  }

  lemma FromStoring(s: State, t: Thread, pc: Pc, n: nat)
    requires t in s.threads && s.threads[t] == pc && pc.Insert? && pc.at.Absent? && pc.b == s.cur && n >= 6
    requires Slot(s.cur, pc.id) !in s.payload
    ensures Decided(s, Finish(s, t, n), t, pc.id, pc.n)
  {
    StoreSteps(s, t, pc);
    var s1 := Apply(s, Go(t));
    var s2 := Apply(s1, Go(t));
    assert Finish(s, t, n) == Finish(s1, t, n - 1) == Finish(s2, t, n - 2);
    if pc.id in s.idMap {
      FromCountedKnown(s2, t, s2.threads[t], n - 2);
      assert s2.payload - {Slot(pc.b, pc.id)} == s.payload;
      assert s2.threads[t := Idle] == s.threads[t := Idle];
    } else {
      FromCountedNew(s2, t, s2.threads[t], n - 2);
      assert s2.threads[t := Idle] == s.threads[t := Idle];
    }
  }

  lemma FromCountedNew(s: State, t: Thread, pc: Pc, n: nat)
    requires t in s.threads && s.threads[t] == pc && pc.Insert? && pc.at.Counted? && pc.id !in s.idMap && n >= 1
    ensures var s' := Finish(s, t, n);
            && s'.threads == s.threads[t := Idle] && s'.idMap == s.idMap[pc.id := Bucket(pc.b)]
            && (s'.payload, s'.permits, s'.poolSize, s'.cur) == (s.payload, s.permits, s.poolSize + 1, s.cur)
  {
    var s1 := Apply(s, Go(t));
    assert s1 == Publish(s, t, pc);
    FinishIdle(s1, t, n - 1);
  }

  lemma FromLocked(s: State, t: Thread, pc: Pc, n: nat)
    requires t in s.threads && s.threads[t] == pc && pc.Insert? && pc.at.Locked? && pc.b == s.cur && n >= 7
    requires Slot(s.cur, pc.id) in s.payload ==> pc.id in s.idMap
    ensures Decided(s, Finish(s, t, n), t, pc.id, pc.n)
  {
    var s1 := Apply(s, Go(t));
    if pc.id in s.idMap {
      assert s1 == Moved(s, t, Insert(Rejected, pc.id, pc.n, pc.b));
      FromRejected(s1, t, s1.threads[t], n - 1);
    } else {
      assert s1 == Moved(s, t, Insert(Absent, pc.id, pc.n, pc.b));
      FromAbsent(s1, t, s1.threads[t], n - 1);
    }
    DecidedFrom(s, Finish(s, t, n), t, s1.threads[t], pc.id, pc.n);
  }

  lemma FromStarting(s: State, t: Thread, pc: Pc, n: nat)
    requires t in s.threads && s.threads[t] == pc && pc.Insert? && pc.at.Starting? && s.cur !in s.sealed && n >= 9
    requires Slot(s.cur, pc.id) in s.payload ==> pc.id in s.idMap
    ensures Decided(s, Finish(s, t, n), t, pc.id, pc.n)
  {
    var s1 := Apply(s, Go(t));
    assert s1 == Moved(s, t, Insert(Loaded, pc.id, pc.n, s.cur));
    var s2 := Apply(s1, Go(t));
    assert s2.threads == s.threads[t := Insert(Locked, pc.id, pc.n, s.cur)];
    assert s2 == Moved(s, t, Insert(Locked, pc.id, pc.n, s.cur));
    assert Finish(s, t, n) == Finish(s1, t, n - 1) == Finish(s2, t, n - 2);
    FromLocked(s2, t, s2.threads[t], n - 2);
    DecidedFrom(s, Finish(s, t, n), t, s2.threads[t], pc.id, pc.n);
  }

  /** A bucket that was sealed since it was loaded: the submission starts again, with the one that replaced it. */
  lemma FromLoaded(s: State, t: Thread, pc: Pc, n: nat)
    requires t in s.threads && s.threads[t] == pc && pc.Insert? && pc.at.Loaded? && s.cur !in s.sealed && n >= 10
    requires pc.b in s.sealed || pc.b == s.cur
    requires Slot(s.cur, pc.id) in s.payload ==> pc.id in s.idMap
    ensures Decided(s, Finish(s, t, n), t, pc.id, pc.n)
  {
    var s1 := Apply(s, Go(t));
    if pc.b in s.sealed {
      assert s1 == Moved(s, t, Insert(Starting, pc.id, pc.n, pc.b));
      FromStarting(s1, t, s1.threads[t], n - 1);
    } else {
      assert s1 == Moved(s, t, Insert(Locked, pc.id, pc.n, pc.b));
      FromLocked(s1, t, s1.threads[t], n - 1);
    }
    DecidedFrom(s, Finish(s, t, n), t, s1.threads[t], pc.id, pc.n);
  }

  /**
   * A submission that goes on alone, from wherever others have left it, has ended after ten steps at most: it is
   * refused if the id is known, and else held in the current bucket, be it another one than it had loaded.
   */
  lemma LoneSubmissionDecided(s: State, t: Thread, maxSize: nat, n: nat)
    requires Reachable(s, maxSize) && s.cur !in s.sealed && n >= 10
    requires t in s.threads && s.threads[t].Insert? && Early(s.threads[t].at)
    requires forall u | u in s.threads && u != t :: s.threads[u].Idle?
    ensures Decided(s, Finish(s, t, n), t, s.threads[t].id, s.threads[t].n)
  {
    var pc := s.threads[t];
    ReachableInv(s, maxSize);
    assert ThreadOk(s, t, pc);
    assert 1 <= pc.b <= s.cur ==> BucketOk(s, pc.b);
    OneOwner(s, maxSize, Slot(s.cur, pc.id));
    match pc.at
    case Starting => FromStarting(s, t, pc, n);
    case Loaded => FromLoaded(s, t, pc, n);
    case Locked => FromLocked(s, t, pc, n);
    case Absent => FromAbsent(s, t, pc, n);
  }

  // ---------- How a lone removal ends ----------

  /** The request has left the store, and its id is forgotten. */
  ghost predicate Gone(s: State, s': State, id: Id, b: nat) {
    && s'.threads == s.threads && s'.idMap == s.idMap - {id} && s'.payload == s.payload - {Slot(b, id)}
    && (s'.permits, s'.poolSize, s'.cur, s'.sealed) == (s.permits - 1, s.poolSize - 1, s.cur, s.sealed)
    && b in s.size && b in s'.size && s'.size[b] == s.size[b] - 1 && s'.size - {b} == s.size - {b}
  }

  /** Payload, size and notification, one after the other. */
  lemma DeleteSteps(s: State, t: Thread, pc: Pc, n: nat) returns (s3: State)
    requires t in s.threads && s.threads[t] == pc && pc.Delete? && pc.step.Taken? && Slot(pc.b, pc.id) in s.payload
    requires pc.b in s.size && n >= 3
    ensures Deleted3(s, s3, t, pc) && Finish(s, t, n) == Finish(s3, t, n - 3)
  {
    var s1 := Apply(s, Go(t));
    assert s1.threads == s.threads[t := Delete(Deleted, pc.id, pc.n, pc.b, pc.erase)];
    var s2 := Apply(s1, Go(t));
    assert s2.threads == s.threads[t := Delete(Notifying, pc.id, pc.n, pc.b, pc.erase)];
    s3 := Apply(s2, Go(t));
    assert Finish(s, t, n) == Finish(s1, t, n - 1) == Finish(s2, t, n - 2) == Finish(s3, t, n - 3);
    assert Deleted3(s, s3, t, pc);
  }

  ghost predicate Deleted3(s: State, s': State, t: Thread, pc: Pc)
    requires pc.Delete?
  {
    && s'.threads == s.threads[t := if pc.erase.Some? then Erasing(pc.id, pc.erase.value) else Idle]
    && s'.idMap == s.idMap && s'.payload == s.payload - {Slot(pc.b, pc.id)}
    && (s'.permits, s'.poolSize, s'.cur, s'.sealed) == (s.permits - 1, s.poolSize - 1, s.cur, s.sealed)
    && pc.b in s.size && s'.size == s.size[pc.b := s.size[pc.b] - 1]
  }

  lemma HeldPayload(s: State, id: Id, maxSize: nat)
    requires Reachable(s, maxSize) && id in s.idMap && s.idMap[id].Bucket?
    ensures var b := s.idMap[id].no; Slot(b, id) in s.payload && b in s.size
  {
    ReachableInv(s, maxSize);
    assert IdOk(s, id, s.idMap[id]);
    assert BucketOk(s, s.idMap[id].no);
  }

  lemma FromErasing(s: State, t: Thread, id: Id, tomb: nat, n: nat)
    requires t in s.threads && s.threads[t] == Erasing(id, tomb) && n >= 1
    ensures Finish(s, t, n) == s.(threads := s.threads[t := Idle], idMap := EraseIf(s.idMap, id, Tombstone(tomb)))
  {
    FinishIdle(Apply(s, Go(t)), t, n - 1);
  }

  lemma SwapsHeld(s: State, t: Thread, id: Id, tomb: nat)
    requires t in s.threads && id in s.idMap && s.idMap[id].Bucket? && Slot(s.idMap[id].no, id) in s.payload
    ensures var s0 := Apply(s, Begin(t, Remove(id, tomb)));
            && t in s0.threads
            && var s1, b := Apply(s0, Go(t)), s.idMap[id].no;
               && s1.threads == s.threads[t := Delete(Taken, id, s.payload[Slot(b, id)], b, Some(tomb))]
               && s1.idMap == s.idMap[id := Tombstone(tomb)]
               && (s1.payload, s1.permits, s1.poolSize, s1.cur, s1.sealed, s1.size)
                  == (s.payload, s.permits, s.poolSize, s.cur, s.sealed, s.size)
  {
    var s0 := Apply(s, Begin(t, Remove(id, tomb)));
    var s1, b := Apply(s0, Go(t)), s.idMap[id].no;
    assert s1.threads == s.threads[t := Delete(Taken, id, s.payload[Slot(b, id)], b, Some(tomb))];
  }

  lemma RemovesHeld(s: State, t: Thread, id: Id, tomb: nat, n: nat)
    requires t in s.threads && s.threads[t].Idle? && n >= 5 && id in s.idMap && s.idMap[id].Bucket?
    requires Slot(s.idMap[id].no, id) in s.payload && s.idMap[id].no in s.size
    ensures Gone(s, Finish(Apply(s, Begin(t, Remove(id, tomb))), t, n), id, s.idMap[id].no)
  {
    SwapsHeld(s, t, id, tomb);
    var s0 := Apply(s, Begin(t, Remove(id, tomb)));
    var s1 := Apply(s0, Go(t));
    assert Finish(s0, t, n) == Finish(s1, t, n - 1);
    var s4 := DeleteSteps(s1, t, s1.threads[t], n - 1);
    DeletedErasing(s, s1, s4, t, id, tomb);
    FromErasing(s4, t, id, tomb, n - 4);
  }

  lemma DeletedErasing(s: State, s1: State, s4: State, t: Thread, id: Id, tomb: nat)
    requires t in s.threads && s.threads[t].Idle? && id in s.idMap && s.idMap[id].Bucket? && s.idMap[id].no in s.size
    requires var b := s.idMap[id].no;
             && Slot(b, id) in s.payload && s1.idMap == s.idMap[id := Tombstone(tomb)]
             && s1.threads == s.threads[t := Delete(Taken, id, s.payload[Slot(b, id)], b, Some(tomb))]
             && (s1.payload, s1.permits, s1.poolSize, s1.cur, s1.sealed, s1.size)
                == (s.payload, s.permits, s.poolSize, s.cur, s.sealed, s.size)
             && Deleted3(s1, s4, t, s1.threads[t])
    ensures s4.threads == s.threads[t := Erasing(id, tomb)]
    ensures Gone(s, s4.(threads := s4.threads[t := Idle], idMap := s4.idMap - {id}), id, s.idMap[id].no)
    ensures id in s4.idMap && s4.idMap[id] == Tombstone(tomb)
  {
    assert s4.idMap - {id} == s.idMap - {id} && s4.threads[t := Idle] == s.threads;
  }

  /** A removal alone: what is held goes, with its id, and any other id gets the tombstone. */
  lemma LoneRemovalDecided(s: State, t: Thread, id: Id, tomb: nat, maxSize: nat, n: nat)
    requires Reachable(s, maxSize) && t in s.threads && s.threads[t].Idle? && n >= 5
    ensures Enabled(s, Begin(t, Remove(id, tomb)), maxSize)
    ensures var s' := Finish(Apply(s, Begin(t, Remove(id, tomb))), t, n);
            if id in s.idMap && s.idMap[id].Bucket? then Gone(s, s', id, s.idMap[id].no)
            else s' == s.(idMap := s.idMap[id := Tombstone(tomb)])
  {
    if id in s.idMap && s.idMap[id].Bucket? {
      HeldPayload(s, id, maxSize);
      RemovesHeld(s, t, id, tomb, n);
    } else {
      var s0 := Apply(s, Begin(t, Remove(id, tomb)));
      var s1 := Apply(s0, Go(t));
      assert s1.threads == s.threads;
      FinishIdle(s1, t, n - 1);
    }
  }

  /** A tombstone leaves the index only by a thread that has seen this very one, or for a newer one. */
  lemma TombstoneErasedBy(s: State, step: Step, id: Id, tomb: nat, maxSize: nat)
    requires Enabled(s, step, maxSize) && id in s.idMap && s.idMap[id] == Tombstone(tomb)
    requires id !in Apply(s, step).idMap || Apply(s, step).idMap[id] != Tombstone(tomb)
    ensures step.Go?
    ensures s.threads[step.t] == Erasing(id, tomb) || (s.threads[step.t].Swapping? && s.threads[step.t].id == id)
    ensures s.threads[step.t].Swapping? ==> id in Apply(s, step).idMap && Apply(s, step).idMap[id].Tombstone?
  {
    if step.Go? && s.threads[step.t].Insert? {
      InsertKeepsKnown(s, step.t, s.threads[step.t], id);
    } else if step.Go? {
      RemoveKeepsTombstone(s, step.t, s.threads[step.t], id, tomb);
    }
  }

  lemma RemoveKeepsTombstone(s: State, t: Thread, pc: Pc, id: Id, tomb: nat)
    requires !pc.Insert? && id in s.idMap && s.idMap[id] == Tombstone(tomb)
    ensures var m := RemoveStep(s, t, pc).idMap;
            && (id !in m || m[id] != Tombstone(tomb) ==> pc == Erasing(id, tomb) || (pc.Swapping? && pc.id == id))
            && (pc.Swapping? ==> id in m && m[id].Tombstone?)
  {
  }

  lemma InsertKeepsKnown(s: State, t: Thread, pc: Pc, id: Id)
    requires pc.Insert? && id in s.idMap
    ensures id in InsertStep(s, t, pc).idMap && InsertStep(s, t, pc).idMap[id] == s.idMap[id]
  {
    match pc.at
    case Starting =>
    case Loaded =>
    case Locked =>
    case Absent =>
    case Stored =>
    case Counted =>
    case RollingBack =>
    case Uncounting =>
    case Rejected =>
  }

  /** A prune alone, of a request that fails the test. */
  lemma LonePruneDecided(s: State, t: Thread, id: Id, maxSize: nat, n: nat)
    requires Reachable(s, maxSize) && t in s.threads && s.threads[t].Idle? && n >= 5
    ensures Enabled(s, Begin(t, PruneKey(id)), maxSize)
    ensures var s' := Finish(Apply(s, Begin(t, PruneKey(id))), t, n);
            if id in s.idMap && s.idMap[id].Bucket? then Gone(s, s', id, s.idMap[id].no) else s' == s
  {
    var s0 := Apply(s, Begin(t, PruneKey(id)));
    if id in s.idMap && s.idMap[id].Bucket? {
      HeldPayload(s, id, maxSize);
      var b := s.idMap[id].no;
      var s1 := Apply(s0, Go(t));
      assert s1.threads == s.threads[t := PruneDoomed(id, b)];
      var s2 := Apply(s1, Go(t));
      assert s2.threads == s.threads[t := Delete(Taken, id, s.payload[Slot(b, id)], b, None)];
      assert Finish(s0, t, n) == Finish(s1, t, n - 1) == Finish(s2, t, n - 2);
      var s5 := DeleteSteps(s2, t, s2.threads[t], n - 2);
      assert s5.threads == s.threads;
      FinishIdle(s5, t, n - 5);
    } else {
      FinishIdle(s0, t, n);
    }
  }

  /** A prune alone, of a request that passes the test, changes nothing. */
  lemma LonePruneKeeps(s: State, t: Thread, id: Id, maxSize: nat)
    requires Reachable(s, maxSize) && t in s.threads && s.threads[t].Idle? && id in s.idMap && s.idMap[id].Bucket?
    ensures var s0 := Apply(s, Begin(t, PruneKey(id))); Enabled(s0, Keep(t), maxSize) && Apply(s0, Keep(t)) == s
  {
    var s0 := Apply(s, Begin(t, PruneKey(id)));
    assert s0.threads[t := Idle] == s.threads;
  }

  /** A collection alone: a tombstone goes, and nothing else does. */
  lemma LoneCollectionDecided(s: State, t: Thread, id: Id, maxSize: nat, n: nat)
    requires t in s.threads && s.threads[t].Idle? && n >= 1
    ensures Enabled(s, Begin(t, GcKey(id)), maxSize)
    ensures var s' := Finish(Apply(s, Begin(t, GcKey(id))), t, n);
            s' == if id in s.idMap && s.idMap[id].Tombstone? then s.(idMap := s.idMap - {id}) else s
  {
    var s0 := Apply(s, Begin(t, GcKey(id)));
    if id in s.idMap && s.idMap[id].Tombstone? {
      FromErasing(s0, t, id, s.idMap[id].token, n);
      assert s0.threads[t := Idle] == s.threads;
    } else {
      FinishIdle(s0, t, n);
    }
  }

  lemma CountedIsStored(s: State, b: nat, n: Serial)
    requires Local(s) && Quiescent(s) && b in s.counted && n in s.counted[b]
    ensures exists id :: Slot(b, id) in s.payload
  {
    assert CountOk(s, b, n);
    assert PermitOk(s, n, s.h.place[n]);
  }

  /**
   * With no call in flight the current bucket can be sealed and replaced, by a new one that is empty and not sealed,
   * and then dropped if and only if it has no request.
   */
  lemma BucketIsReplaced(s: State, maxSize: nat)
    requires Reachable(s, maxSize) && Quiescent(s) && s.cur !in s.sealed
    ensures Enabled(s, Seal, maxSize) && Enabled(Apply(s, Seal), Rotate, maxSize)
    ensures var s' := Apply(Apply(s, Seal), Rotate);
            && s'.cur == s.cur + 1 && s'.cur !in s'.sealed && s.cur in s'.sealed && s'.size[s'.cur] == 0
            && (s'.idMap, s'.payload, s'.threads, s'.permits, s'.poolSize)
               == (s.idMap, s.payload, s.threads, s.permits, s.poolSize)
            && (Enabled(s', Drop(s.cur), maxSize) <==> forall id :: Slot(s.cur, id) !in s.payload)
  {
    ReachableInv(s, maxSize);
    assert BucketOk(s, s.cur);
    ReachableStep(s, Seal, maxSize);
    var s1 := Apply(s, Seal);
    ReachableStep(s1, Rotate, maxSize);
    var s' := Apply(s1, Rotate);
    if Enabled(s', Drop(s.cur), maxSize) {
      forall id ensures Slot(s.cur, id) !in s.payload { DroppedBucketIsEmpty(s', maxSize, Slot(s.cur, id)); }
    }
    if s.counted[s.cur] != {} {
      var n :| n in s.counted[s.cur];
      CountedIsStored(s, s.cur, n);
    }
  }
}
