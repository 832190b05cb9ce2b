/**
 * The handshake between those who wait for batches (PopOrWait), those who bring them (Put from a
 * stream, PutForce on request) and the timers, for all interleavings.  A step is what happens between
 * taking the lock and giving it up, or one action of a goroutine that does not hold the lock.
 */
module PrefetchHandshake {
  import opened Wrappers
  import opened BatchIds
  import opened BatchCaching
  import opened PrefetchIndex

  type Thread = nat

  /** A waiting PopOrWait: whether it has requested its batch, and how many of its monitors are armed. */
  datatype Popper = Popper(id: BatchId, requested: bool, armed: nat)

  /**
   * `poppers` wait in PopOrWait and `putters` in Put, each for the batch given.  A broadcast has reached
   * those `awake`, and a batch that was fetched for those `robbed` went elsewhere.  `sends` are requests that
   * monitors are about to send, `channel` those sent, `fetching` those being fetched, and `broadcasting` counts the
   * monitors that have sent and not broadcast yet.  `expiring` are timers that fired and wait for the lock, and
   * `popped` is what PopOrWait returned.
   */
  datatype State = State(max: nat, cache: Batches, forced: Batches,
                         lastPutSeqRequest: nat, lastPutSeq: nat, maxPoppedCallSeq: nat,
                         poppers: map<Thread, Popper>, putters: map<Thread, Batch>,
                         awake: set<Thread>, awakePuts: set<Thread>, robbed: set<Thread>,
                         sends: multiset<BatchId>, channel: multiset<BatchId>, fetching: multiset<BatchId>,
                         broadcasting: nat, expiring: multiset<BatchId>, popped: map<Thread, Batch>)

  // ---------- Steps ----------

  function Broadcast(s: State): State { s.(awake := s.poppers.Keys, awakePuts := s.putters.Keys) }

  /** A batch that was fetched for those who wait for it goes elsewhere. */
  function Robbed(s: State, id: BatchId): set<Thread> { s.robbed + (set t | t in s.poppers && s.poppers[t].id == id) }

  /** removeUnsafe, for a batch that is there. */
  function Removed(s: State, id: BatchId): State {
    if id in s.cache then Broadcast(s.(cache := s.cache - {id}))
    else Broadcast(s.(forced := s.forced - {id}, robbed := Robbed(s, id)))
  }

  ghost predicate Present(s: State, id: BatchId) { id in s.cache || id in s.forced }

  /** One round of PopOrWait. */
  ghost function PopRound(s: State, t: Thread, p: Popper): State {
    var b := Lookup(s.cache, s.forced, p.id);
    if b.Some? then
      var s' := Removed(s, p.id);
      s'.(poppers := s'.poppers - {t}, popped := s'.popped[t := b.value])
    else
      var request := !p.requested && (p.id.num < s.lastPutSeqRequest || p.id.num == s.lastPutSeq);
      var requested := p.requested || request;
      s.(poppers := s.poppers[t := Popper(p.id, requested, if requested then p.armed else p.armed + 1)],
         awake := s.awake - {t}, channel := if request then s.channel + multiset{p.id} else s.channel)
  }

  ghost function Announced(s: State, id: BatchId): State {
    if s.maxPoppedCallSeq < id.num then Broadcast(s.(maxPoppedCallSeq := id.num)) else s
  }

  /** The loop of Put, which leaves `kept` of the cache when it evicts. */
  ghost function PutRound(s: State, t: Thread, b: Batch, kept: Batches): State {
    if Total(s.cache) + b.size > s.max && s.maxPoppedCallSeq < b.id.num 
    then s.(putters := s.putters[t := b], awakePuts := s.awakePuts - {t})
    else if b.id in kept then
      var s' := s.(cache := kept, putters := s.putters - {t});
      if kept == s.cache then s' else Broadcast(s')
    else Broadcast(s.(cache := kept[b.id := b], lastPutSeq := b.id.num, putters := s.putters - {t}))
  }

  ghost predicate CanKeep(s: State, b: Batch, kept: Batches) {
    if Total(s.cache) + b.size <= s.max || s.maxPoppedCallSeq < b.id.num then kept == s.cache
    else Evicted(s.cache, kept, b.size, s.max) && Total(kept) + b.size <= s.max
  }

  ghost function PutForced(s: State, b: Batch): State {
    if b.size > s.max then s.(robbed := Robbed(s, b.id))
    else if b.id in s.forced then s
    else Broadcast(s.(forced := s.forced[b.id := b]))
  }

  datatype Step =
    | PopStart(t: Thread, id: BatchId)
    | PopWake(t: Thread)
    | PutStart(t: Thread, batch: Batch, kept: Batches)
    | PutWake(t: Thread, kept: Batches)
    | MonitorFires(t: Thread)
    | MonitorSends(id: BatchId)
    | MonitorBroadcasts
    | Take(id: BatchId)
    | Deliver(batch: Batch)
    | TimerFires(id: BatchId)
    | Expire(id: BatchId)

  ghost predicate Enabled(s: State, step: Step) {
    match step
    case PopStart(t, id) => t !in s.poppers && t !in s.popped && t !in s.robbed
    case PopWake(t) => t in s.poppers && t in s.awake
    case PutStart(t, b, kept) => t !in s.putters && (b.size > s.max || b.id in s.cache || CanKeep(s, b, kept))
    case PutWake(t, kept) => t in s.putters && t in s.awakePuts && CanKeep(s, s.putters[t], kept)
    case MonitorFires(t) => t in s.poppers && s.poppers[t].armed > 0
    case MonitorSends(id) => id in s.sends
    case MonitorBroadcasts => s.broadcasting > 0
    case Take(id) => id in s.channel
    case Deliver(b) => b.id in s.fetching
    case TimerFires(id) => id in s.cache
    case Expire(id) => id in s.expiring
  }

  ghost function Next(s: State, step: Step): State
    requires Enabled(s, step)
  {
    match step
    case PopStart(t, id) => PopRound(Announced(s, id), t, Popper(id, false, 0))
    case PopWake(t) => PopRound(s, t, s.poppers[t])
    case PutStart(t, b, kept) =>
      if b.size > s.max || b.id in s.cache then s else PutRound(s.(lastPutSeqRequest := b.id.num), t, b, kept)
    case PutWake(t, kept) => PutRound(s, t, s.putters[t], kept)
    case MonitorFires(t) =>
      var p := s.poppers[t];
      s.(poppers := s.poppers[t := p.(armed := p.armed - 1, requested := true)], sends := s.sends + multiset{p.id})
    case MonitorSends(id) =>
      s.(sends := s.sends - multiset{id}, channel := s.channel + multiset{id}, broadcasting := s.broadcasting + 1)
    case MonitorBroadcasts => Broadcast(s.(broadcasting := s.broadcasting - 1))
    case Take(id) => s.(channel := s.channel - multiset{id}, fetching := s.fetching + multiset{id})
    case Deliver(b) => PutForced(s.(fetching := s.fetching - multiset{b.id}), b)
    case TimerFires(id) => s.(expiring := s.expiring + multiset{id})
    case Expire(id) =>
      var s' := s.(expiring := s.expiring - multiset{id});
      if Present(s, id) then Removed(s', id) else s'
  }

  // ---------- Invariant ----------

  /** A request for the batch is on its way. */
  ghost predicate Outstanding(s: State, id: BatchId) {
    id in s.sends || id in s.channel || id in s.fetching
  }

  /**
   * The demand is known, and the batch was requested or will be: a request is on its way, or answered, unless the
   * answer went elsewhere.
   */
  ghost predicate Asked(s: State, t: Thread) {
    t in s.poppers ==>
      var p := s.poppers[t];
      && p.id.num <= s.maxPoppedCallSeq && (p.requested || p.armed > 0)
      && (p.requested ==> t in s.robbed || Outstanding(s, p.id) || p.id in s.forced)
  }

  /** A wait of PopOrWait that no broadcast has ended: its batch is in neither cache. */
  ghost predicate PopperOk(s: State, t: Thread) {
    Asked(s, t) && (t in s.poppers && t !in s.awake ==> !Present(s, s.poppers[t].id))
  }

  ghost predicate Small(s: State, t: Thread) { t in s.putters ==> s.putters[t].size <= s.max }

  /** A wait of Put that no broadcast has ended: there is no room, and the consumer is behind. */
  ghost predicate PutterOk(s: State, t: Thread) {
    && Small(s, t)
    && (t in s.putters && t !in s.awakePuts ==>
          s.maxPoppedCallSeq < s.putters[t].id.num && Total(s.cache) + s.putters[t].size > s.max)
  }

  ghost predicate Keyed(s: State) { KeyedById(s.cache) && KeyedById(s.forced) }

  /** What holds apart from signals. */
  ghost predicate Base(s: State) {
    && Keyed(s)
    && (forall t {:trigger Asked(s, t)} :: Asked(s, t))
    && (forall t {:trigger Small(s, t)} :: Small(s, t))
  }

  ghost predicate Inv(s: State) {
    && Keyed(s)
    && (forall t {:trigger PopperOk(s, t)} :: PopperOk(s, t))
    && (forall t {:trigger PutterOk(s, t)} :: PutterOk(s, t))
  }

  ghost predicate Initial(s: State) {
    && s.cache == map[] && s.forced == map[] && s.poppers == map[] && s.putters == map[] && s.robbed == {}
    && s.popped == map[]
  }

  lemma InvBase(s: State)
    requires Inv(s)
    ensures Base(s)
  {
    forall t ensures Asked(s, t) { assert PopperOk(s, t); }
    forall t ensures Small(s, t) { assert PutterOk(s, t); }
  }

  /** A broadcast ends every wait. */
  lemma BroadcastInv(s: State)
    requires Base(s)
    ensures Inv(Broadcast(s))
  {
    var s' := Broadcast(s);
    forall t ensures PopperOk(s', t) { assert Asked(s, t); }
    forall t ensures PutterOk(s', t) { assert Small(s, t); }
  }

  lemma RemovedInv(s: State, id: BatchId)
    requires Base(s)
    ensures Inv(Removed(s, id))
  {
    var s' := if id in s.cache then s.(cache := s.cache - {id})
              else s.(forced := s.forced - {id}, robbed := Robbed(s, id));
    forall t ensures Asked(s', t) { assert Asked(s, t); }
    forall t ensures Small(s', t) { assert Small(s, t); }
    BroadcastInv(s');
  }

  lemma ReturnInv(s: State, t: Thread, b: Batch)
    requires Inv(s)
    ensures Inv(s.(poppers := s.poppers - {t}, popped := s.popped[t := b]))
  {
    var s' := s.(poppers := s.poppers - {t}, popped := s.popped[t := b]);
    forall u ensures PopperOk(s', u) { assert PopperOk(s, u); }
    forall u ensures PutterOk(s', u) { assert PutterOk(s, u); }
  }

  lemma PopFound(s: State, t: Thread, p: Popper)
    requires Base(s) && Present(s, p.id)
    ensures Inv(PopRound(s, t, p))
  {
    RemovedInv(s, p.id);
    ReturnInv(Removed(s, p.id), t, Lookup(s.cache, s.forced, p.id).value);
  }

  lemma PopParks(s: State, t: Thread, p: Popper)
    requires Inv(s) && !Present(s, p.id) && p.id.num <= s.maxPoppedCallSeq
    requires p.requested ==> t in s.robbed || Outstanding(s, p.id)
    ensures Inv(PopRound(s, t, p))
  {
    var s' := PopRound(s, t, p);
    forall u ensures PopperOk(s', u) { assert PopperOk(s, u); }
    forall u ensures PutterOk(s', u) { assert PutterOk(s, u); }
  }

  lemma PopRoundInv(s: State, t: Thread, p: Popper)
    requires Inv(s) && p.id.num <= s.maxPoppedCallSeq
    requires p.requested ==> t in s.robbed || Outstanding(s, p.id) || p.id in s.forced
    ensures Inv(PopRound(s, t, p))
  {
    InvBase(s);
    if Present(s, p.id) {
      PopFound(s, t, p);
    } else {
      PopParks(s, t, p);
    }
  }

  lemma AnnouncedInv(s: State, id: BatchId)
    requires Inv(s)
    ensures Inv(Announced(s, id))
  {
    if s.maxPoppedCallSeq < id.num {
      var s' := s.(maxPoppedCallSeq := id.num);
      forall t ensures Asked(s', t) { assert PopperOk(s, t); }
      forall t ensures Small(s', t) { assert PutterOk(s, t); }
      BroadcastInv(s');
    }
  }

  lemma PutParksInv(s: State, t: Thread, b: Batch)
    requires Inv(s) && b.size <= s.max && Total(s.cache) + b.size > s.max && s.maxPoppedCallSeq < b.id.num
    ensures Inv(s.(putters := s.putters[t := b], awakePuts := s.awakePuts - {t}))
  {
    var s' := s.(putters := s.putters[t := b], awakePuts := s.awakePuts - {t});
    forall u ensures PopperOk(s', u) { assert PopperOk(s, u); }
    forall u ensures PutterOk(s', u) { assert PutterOk(s, u); }
  }

  /** Put returns without a change of the cache. */
  lemma PutReturnsInv(s: State, t: Thread)
    requires Inv(s)
    ensures Inv(s.(putters := s.putters - {t}))
  {
    var s' := s.(putters := s.putters - {t});
    forall u ensures PopperOk(s', u) { assert PopperOk(s, u); }
    forall u ensures PutterOk(s', u) { assert PutterOk(s, u); }
  }

  lemma PutStoresInv(s: State, t: Thread, cache: Batches, last: nat)
    requires Inv(s) && KeyedById(cache)
    ensures Inv(Broadcast(s.(cache := cache, lastPutSeq := last, putters := s.putters - {t})))
  {
    var s' := s.(cache := cache, lastPutSeq := last, putters := s.putters - {t});
    forall u ensures Asked(s', u) { assert PopperOk(s, u); }
    forall u ensures Small(s', u) { assert PutterOk(s, u); }
    BroadcastInv(s');
  }

  lemma PutRoundInv(s: State, t: Thread, b: Batch, kept: Batches)
    requires Inv(s) && b.size <= s.max && CanKeep(s, b, kept)
    ensures Inv(PutRound(s, t, b, kept))
  {
    assert KeyedById(kept);
    if Total(s.cache) + b.size > s.max && s.maxPoppedCallSeq < b.id.num {
      PutParksInv(s, t, b);
    } else if b.id !in kept {
      PutStoresInv(s, t, kept[b.id := b], b.id.num);
    } else if kept == s.cache {
      PutReturnsInv(s, t);
    } else {
      PutStoresInv(s, t, kept, s.lastPutSeq);
    }
  }

  /** Requests that move on, and changes of one popper. */
  lemma QuietInv(s: State, s': State)
    requires Inv(s) && s' == s.(poppers := s'.poppers, robbed := s'.robbed, lastPutSeqRequest := s'.lastPutSeqRequest,
                                sends := s'.sends, channel := s'.channel, fetching := s'.fetching,
                                broadcasting := s'.broadcasting, expiring := s'.expiring)
    requires forall t | t in s'.poppers :: t in s.poppers && s'.poppers[t].id == s.poppers[t].id && Asked(s', t)
    ensures Inv(s')
  {
    forall t ensures PopperOk(s', t) { assert PopperOk(s, t); }
    forall t ensures PutterOk(s', t) { assert PutterOk(s, t); }
  }

  lemma DeliverInv(s: State, b: Batch)
    requires Inv(s) && b.id in s.fetching
    ensures Inv(PutForced(s.(fetching := s.fetching - multiset{b.id}), b))
  {
    var s1 := s.(fetching := s.fetching - multiset{b.id});
    if b.size > s.max {
      var s' := s1.(robbed := Robbed(s1, b.id));
      forall t ensures Asked(s', t) { assert PopperOk(s, t); }
      QuietInv(s, s');
    } else if b.id in s.forced {
      forall t ensures Asked(s1, t) { assert PopperOk(s, t); }
      QuietInv(s, s1);
    } else {
      var s' := s1.(forced := s.forced[b.id := b]);
      forall t ensures Asked(s', t) { assert PopperOk(s, t); }
      forall t ensures Small(s', t) { assert PutterOk(s, t); }
      BroadcastInv(s');
    }
  }

  lemma QuietStepInv(s: State, step: Step)
    requires Inv(s) && Enabled(s, step)
    requires step.MonitorFires? || step.MonitorSends? || step.Take? || step.TimerFires?
    ensures Inv(Next(s, step))
  {
    var s' := Next(s, step);
    forall t ensures Asked(s', t) { assert PopperOk(s, t); }
    QuietInv(s, s');
  }

  /** Every step keeps the invariant. */
  lemma StepInv(s: State, step: Step)
    requires Inv(s) && Enabled(s, step)
    ensures Inv(Next(s, step))
  {
    match step
    case PopStart(t, id) =>
      AnnouncedInv(s, id);
      PopRoundInv(Announced(s, id), t, Popper(id, false, 0));
    case PopWake(t) =>
      assert PopperOk(s, t);
      PopRoundInv(s, t, s.poppers[t]);
    case PutStart(t, b, kept) =>
      var s1 := s.(lastPutSeqRequest := b.id.num);
      forall u ensures Asked(s1, u) { assert PopperOk(s, u); }
      QuietInv(s, s1);
      if b.size <= s.max && b.id !in s.cache {
        PutRoundInv(s1, t, b, kept);
      }
    case PutWake(t, kept) =>
      assert PutterOk(s, t);
      PutRoundInv(s, t, s.putters[t], kept);
    case Deliver(b) => DeliverInv(s, b);
    case Expire(id) =>
      var s1 := s.(expiring := s.expiring - multiset{id});
      forall u ensures Asked(s1, u) { assert PopperOk(s, u); }
      QuietInv(s, s1);
      if Present(s, id) {
        InvBase(s1);
        RemovedInv(s1, id);
      }
    case MonitorBroadcasts =>
      var s1 := s.(broadcasting := s.broadcasting - 1);
      forall u ensures Asked(s1, u) { assert PopperOk(s, u); }
      QuietInv(s, s1);
      InvBase(s1);
      BroadcastInv(s1);
    case _ => QuietStepInv(s, step);
  }

  // ---------- Runs ----------

  /** The steps can be taken one after the other, and lead from s to the result. */
  ghost predicate Leads(s: State, steps: seq<Step>, end: State)
    decreases |steps|
  {
    if steps == [] then s == end else Enabled(s, steps[0]) && Leads(Next(s, steps[0]), steps[1..], end)
  }

  lemma {:induction false} RunInv(s: State, steps: seq<Step>, end: State)
    requires Inv(s) && Leads(s, steps, end)
    ensures Inv(end)
    decreases |steps|
  {
    if steps != [] {
      StepInv(s, steps[0]);
      RunInv(Next(s, steps[0]), steps[1..], end);
    }
  }

  lemma InitialInv(s: State)
    requires Initial(s)
    ensures Inv(s)
  {
  }

  /**
   * In every reachable state, a PopOrWait that no broadcast has reached waits for a batch that is in
   * neither cache and that it has requested or an armed monitor will request; and a Put that no
   * broadcast has reached has no room and is ahead of the consumer.
   */
  lemma NoLostWakeUp(s: State, steps: seq<Step>, end: State, t: Thread)
    requires Initial(s) && Leads(s, steps, end)
    ensures t in end.poppers && t !in end.awake ==>
              !Present(end, end.poppers[t].id) && (end.poppers[t].requested || end.poppers[t].armed > 0)
    ensures t in end.putters && t !in end.awakePuts ==>
              end.maxPoppedCallSeq < end.putters[t].id.num && Total(end.cache) + end.putters[t].size > end.max
  {
    InitialInv(s);
    RunInv(s, steps, end);
    assert PopperOk(end, t) && PutterOk(end, t);
  }

  lemma PopRoundReturns(s: State, t: Thread, p: Popper)
    requires Keyed(s)
    ensures var s' := PopRound(s, t, p);
            if t in s'.poppers then s'.poppers[t].id == p.id
            else t in s'.popped && s'.popped[t].id == p.id && Lookup(s.cache, s.forced, p.id) == Some(s'.popped[t])
  {
  }

  /** A PopOrWait that returns, in its first round or a later one, returns the batch it asked for. */
  lemma ReturnsRequested(s: State, step: Step)
    requires Inv(s) && Enabled(s, step) && (step.PopStart? || step.PopWake?)
    ensures var s', id := Next(s, step), if step.PopStart? then step.id else s.poppers[step.t].id;
            if step.t in s'.poppers then s'.poppers[step.t].id == id
            else && step.t in s'.popped && s'.popped[step.t].id == id
                 && Lookup(s.cache, s.forced, id) == Some(s'.popped[step.t])
  {
    match step
    case PopStart(t, id) => PopRoundReturns(Announced(s, id), t, Popper(id, false, 0));
    case PopWake(t) => PopRoundReturns(s, t, s.poppers[t]);
  }

  // ---------- Waits that do not end ----------

  ghost predicate Waiting(s: State, t: Thread, id: BatchId) { t in s.poppers && s.poppers[t].id == id }

  /** The batch is in neither cache, and no Put is under way for it. */
  ghost predicate Missing(s: State, id: BatchId) {
    !Present(s, id) && forall t | t in s.putters :: s.putters[t].id != id
  }

  /** The batch is still missing, and those who wait for it go on waiting. */
  ghost predicate StillMissing(s: State, s': State, id: BatchId) {
    Missing(s', id) && s'.max == s.max && forall t | Waiting(s, t, id) :: Waiting(s', t, id)
  }

  lemma RemovedMissing(s: State, x: BatchId, id: BatchId)
    requires Missing(s, id) && x != id
    ensures StillMissing(s, Removed(s, x), id)
  {
  }

  lemma PopRoundMissing(s: State, t: Thread, p: Popper, id: BatchId)
    requires Missing(s, id) && (t in s.poppers ==> s.poppers[t].id == p.id)
    ensures StillMissing(s, PopRound(s, t, p), id)
  {
    if Present(s, p.id) {
      RemovedMissing(s, p.id, id);
    }
  }

  lemma PutRoundMissing(s: State, t: Thread, b: Batch, kept: Batches, id: BatchId)
    requires Missing(s, id) && b.id != id && CanKeep(s, b, kept)
    ensures StillMissing(s, PutRound(s, t, b, kept), id)
  {
    if Total(s.cache) + b.size > s.max && s.maxPoppedCallSeq < b.id.num {
      PutParksMissing(s, t, b, id);
    } else {
      PutEndsMissing(s, t, b, kept, id);
    }
  }

  lemma PutParksMissing(s: State, t: Thread, b: Batch, id: BatchId)
    requires Missing(s, id) && b.id != id
    ensures StillMissing(s, s.(putters := s.putters[t := b], awakePuts := s.awakePuts - {t}), id)
  {
  }

  lemma PutEndsMissing(s: State, t: Thread, b: Batch, kept: Batches, id: BatchId)
    requires Missing(s, id) && b.id != id && CanKeep(s, b, kept)
    requires Total(s.cache) + b.size <= s.max || s.maxPoppedCallSeq >= b.id.num
    ensures StillMissing(s, PutRound(s, t, b, kept), id)
  {
    assert id !in kept;
    var s' := PutRound(s, t, b, kept);
    assert s'.putters == s.putters - {t} && s'.forced == s.forced && s'.poppers == s.poppers && s'.max == s.max;
    assert s'.cache == if b.id in kept then kept else kept[b.id := b];
  }

  lemma PutForcedMissing(s: State, b: Batch, id: BatchId)
    requires Missing(s, id) && (b.id == id ==> b.size > s.max)
    ensures StillMissing(s, PutForced(s, b), id)
  {
  }

  /** A missing batch comes only with a Put or a fetch of it that fits in the cache. */
  lemma MissingStays(s: State, step: Step, id: BatchId)
    requires Missing(s, id) && Enabled(s, step)
    requires (step.PutStart? || step.Deliver?) && step.batch.id == id ==> step.batch.size > s.max
    ensures StillMissing(s, Next(s, step), id)
  {
    match step
    case PopStart(t, x) => PopRoundMissing(Announced(s, x), t, Popper(x, false, 0), id);
    case PopWake(t) => PopRoundMissing(s, t, s.poppers[t], id);
    case PutStart(t, b, kept) =>
      if b.size <= s.max && b.id !in s.cache {
        PutRoundMissing(s.(lastPutSeqRequest := b.id.num), t, b, kept, id);
      }
    case PutWake(t, kept) => PutRoundMissing(s, t, s.putters[t], kept, id);
    case Deliver(b) => PutForcedMissing(s.(fetching := s.fetching - multiset{b.id}), b, id);
    case Expire(x) => ExpireMissing(s, x, id);
    case MonitorFires(t) => MonitorMissing(s, t, id);
    case MonitorSends(x) =>
    case MonitorBroadcasts =>
    case Take(x) =>
    case TimerFires(x) =>
  }

  lemma ExpireMissing(s: State, x: BatchId, id: BatchId)
    requires Missing(s, id) && Enabled(s, Expire(x))
    ensures StillMissing(s, Next(s, Expire(x)), id)
  {
    if Present(s, x) {
      RemovedMissing(s.(expiring := s.expiring - multiset{x}), x, id);
    }
  }

  lemma MonitorMissing(s: State, t: Thread, id: BatchId)
    requires Missing(s, id) && Enabled(s, MonitorFires(t))
    ensures StillMissing(s, Next(s, MonitorFires(t)), id)
  {
  }

  /** No request for the batch is on its way, and none will be made by those who wait for it. */
  ghost predicate Unasked(s: State, id: BatchId) {
    && !Outstanding(s, id)
    && forall t | Waiting(s, t, id) :: s.poppers[t].requested && s.poppers[t].armed == 0
  }

  /** No new request, and no new or changed wait, for the batch. */
  lemma UnaskedFrame(s: State, s': State, id: BatchId)
    requires Unasked(s, id) && (Outstanding(s', id) ==> Outstanding(s, id))
    requires forall t | Waiting(s', t, id) :: Waiting(s, t, id) && s'.poppers[t] == s.poppers[t]
    ensures Unasked(s', id)
  {
  }

  lemma PopRoundUnasked(s: State, t: Thread, p: Popper, id: BatchId)
    requires Unasked(s, id) && (p.id == id ==> p.requested && p.armed == 0)
    ensures Unasked(PopRound(s, t, p), id)
  {
    var s' := PopRound(s, t, p);
    if !Present(s, p.id) && p.id != id {
      UnaskedFrame(s, s', id);
    }
  }

  lemma MonitorUnasked(s: State, t: Thread, id: BatchId)
    requires Unasked(s, id) && Enabled(s, MonitorFires(t))
    ensures Unasked(Next(s, MonitorFires(t)), id)
  {
    assert !Waiting(s, t, id);
    UnaskedFrame(s, Next(s, MonitorFires(t)), id);
  }

  /** The same requests and the same waits. */
  ghost predicate SameRequests(s: State, s': State) {
    s'.poppers == s.poppers && s'.sends == s.sends && s'.channel == s.channel && s'.fetching == s.fetching
  }

  lemma PutRoundRequests(s: State, t: Thread, b: Batch, kept: Batches)
    ensures SameRequests(s, PutRound(s, t, b, kept))
  {
  }

  lemma PutForcedRequests(s: State, b: Batch)
    ensures SameRequests(s, PutForced(s, b))
  {
  }

  lemma PutUnasked(s: State, step: Step, id: BatchId)
    requires Unasked(s, id) && Enabled(s, step) && (step.PutStart? || step.PutWake?)
    ensures Unasked(Next(s, step), id)
  {
    if step.PutStart? {
      PutRoundRequests(s.(lastPutSeqRequest := step.batch.id.num), step.t, step.batch, step.kept);
    } else {
      PutRoundRequests(s, step.t, s.putters[step.t], step.kept);
    }
    assert SameRequests(s, Next(s, step));
    UnaskedFrame(s, Next(s, step), id);
  }

  lemma DeliverUnasked(s: State, b: Batch, id: BatchId)
    requires Unasked(s, id) && Enabled(s, Deliver(b))
    ensures Unasked(Next(s, Deliver(b)), id)
  {
    PutForcedRequests(s.(fetching := s.fetching - multiset{b.id}), b);
    UnaskedFrame(s, Next(s, Deliver(b)), id);
  }

  lemma MoveUnasked(s: State, step: Step, id: BatchId)
    requires Unasked(s, id) && Enabled(s, step)
    requires step.MonitorSends? || step.MonitorBroadcasts? || step.Take? || step.TimerFires?
    ensures Unasked(Next(s, step), id)
  {
    UnaskedFrame(s, Next(s, step), id);
  }

  lemma RemovedRequests(s: State, x: BatchId)
    ensures SameRequests(s, Removed(s, x))
  {
  }

  lemma ExpireUnasked(s: State, x: BatchId, id: BatchId)
    requires Unasked(s, id) && Enabled(s, Expire(x))
    ensures Unasked(Next(s, Expire(x)), id)
  {
    RemovedRequests(s.(expiring := s.expiring - multiset{x}), x);
    assert SameRequests(s, Next(s, Expire(x)));
    UnaskedFrame(s, Next(s, Expire(x)), id);
  }

  lemma UnaskedStays(s: State, step: Step, id: BatchId)
    requires Unasked(s, id) && Enabled(s, step) && !(step.PopStart? && step.id == id)
    ensures Unasked(Next(s, step), id)
  {
    match step
    case PopStart(t, x) =>
      UnaskedFrame(s, Announced(s, x), id);
      PopRoundUnasked(Announced(s, x), t, Popper(x, false, 0), id);
    case PopWake(t) =>
      assert s.poppers[t].id == id ==> Waiting(s, t, id);
      PopRoundUnasked(s, t, s.poppers[t], id);
    case PutStart(t, b, kept) => PutUnasked(s, step, id);
    case PutWake(t, kept) => PutUnasked(s, step, id);
    case MonitorFires(t) => MonitorUnasked(s, t, id);
    case Deliver(b) => DeliverUnasked(s, b, id);
    case Expire(x) => ExpireUnasked(s, x, id);
    case MonitorSends(x) => MoveUnasked(s, step, id);
    case MonitorBroadcasts => MoveUnasked(s, step, id);
    case Take(x) => MoveUnasked(s, step, id);
    case TimerFires(x) => MoveUnasked(s, step, id);
  }

  /** Nothing that is under way will bring this batch. */
  ghost predicate Forsaken(s: State, id: BatchId) { Missing(s, id) && Unasked(s, id) }

  /** The batch is larger than the cache: Put and PutForce refuse it. */
  ghost predicate Oversized(s: State, b: Batch) { Missing(s, b.id) && b.size > s.max }

  /** No new call for the batch. */
  predicate Internal(step: Step, id: BatchId) {
    && !(step.PopStart? && step.id == id)
    && !(step.PutStart? && step.batch.id == id)
  }

  /** A wait for a forsaken batch does not end without a new call for it. */
  lemma {:induction false} ForsakenForever(s: State, steps: seq<Step>, end: State, id: BatchId, t: Thread)
    requires Forsaken(s, id) && Leads(s, steps, end) && forall i | 0 <= i < |steps| :: Internal(steps[i], id)
    requires Waiting(s, t, id)
    ensures Forsaken(end, id) && Waiting(end, t, id)
    decreases |steps|
  {
    if steps != [] {
      assert Internal(steps[0], id);
      MissingStays(s, steps[0], id);
      UnaskedStays(s, steps[0], id);
      ForsakenForever(Next(s, steps[0]), steps[1..], end, id, t);
    }
  }

  /** What is put or fetched under the id of b is b. */
  predicate Bears(step: Step, b: Batch) {
    (step.PutStart? || step.Deliver?) && step.batch.id == b.id ==> step.batch == b
  }

  /** A wait for a batch larger than the cache does not end at all, whatever is put, fetched or asked for. */
  lemma {:induction false} OversizedForever(s: State, steps: seq<Step>, end: State, b: Batch, t: Thread)
    requires Oversized(s, b) && Leads(s, steps, end) && forall i | 0 <= i < |steps| :: Bears(steps[i], b)
    requires Waiting(s, t, b.id)
    ensures Oversized(end, b) && Waiting(end, t, b.id)
    decreases |steps|
  {
    if steps != [] {
      assert Bears(steps[0], b);
      MissingStays(s, steps[0], b.id);
      OversizedForever(Next(s, steps[0]), steps[1..], end, b, t);
    }
  }

  /** Whether the popper t has lost its batch, in s' and not in s. */
  ghost predicate LosesBatch(s: State, s': State, t: Thread) {
    t in s.poppers && t !in s.robbed && t in s'.poppers && t in s'.robbed
  }

  lemma RemovedRobs(s: State, x: BatchId, t: Thread)
    requires LosesBatch(s, Removed(s, x), t)
    ensures x == s.poppers[t].id && x !in s.cache
  {
  }

  lemma PopRoundRobs(s: State, u: Thread, p: Popper, t: Thread)
    requires LosesBatch(s, PopRound(s, u, p), t)
    ensures u != t && p.id == s.poppers[t].id && p.id !in s.cache && p.id in s.forced
  {
    if Present(s, p.id) {
      RemovedRobs(s, p.id, t);
    }
  }

  lemma PutRoundRobsNone(s: State, u: Thread, b: Batch, kept: Batches, t: Thread)
    ensures !LosesBatch(s, PutRound(s, u, b, kept), t)
  {
  }

  /**
   * The fetched batch comes and is too large, or it is there and a late timer removes it, or another call returns
   * with it.
   */
  ghost predicate TakesAway(s: State, step: Step, t: Thread, id: BatchId) {
    || (step.Deliver? && step.batch.id == id && step.batch.size > s.max)
    || (step.Expire? && step.id == id && id !in s.cache && id in s.forced)
    || (step.PopWake? && step.t != t && Waiting(s, step.t, id) && id !in s.cache && id in s.forced)
    || (step.PopStart? && step.t != t && step.id == id && id !in s.cache && id in s.forced)
  }

  /** Only these can take a batch away from one who waits for it. */
  lemma RobbedOnlyBy(s: State, step: Step, t: Thread)
    requires Enabled(s, step) && LosesBatch(s, Next(s, step), t)
    ensures TakesAway(s, step, t, s.poppers[t].id)
  {
    match step
    case PopStart(u, x) => PopRoundRobs(Announced(s, x), u, Popper(x, false, 0), t);
    case PopWake(u) => PopRoundRobs(s, u, s.poppers[u], t);
    case PutStart(u, b, kept) => PutRoundRobsNone(s.(lastPutSeqRequest := b.id.num), u, b, kept, t);
    case PutWake(u, kept) => PutRoundRobsNone(s, u, s.putters[u], kept, t);
    case Expire(x) => RemovedRobs(s.(expiring := s.expiring - multiset{x}), x, t);
    case _ =>
  }

  lemma UnrobbedIsNotForsaken(s: State, t: Thread)
    requires Inv(s) && t in s.poppers && t !in s.robbed
    ensures !Forsaken(s, s.poppers[t].id)
  {
    assert PopperOk(s, t) && Waiting(s, t, s.poppers[t].id);
  }

  // Over runs

  /** A call waits, or it has returned, and it does not come back. */
  ghost predicate OneCall(s: State, t: Thread) { !(t in s.poppers && t in s.popped) }

  /** A waiting call goes on waiting for its batch, or returns; one that has returned does not come back. */
  ghost predicate CallGoesOn(s: State, s': State, t: Thread) {
    && (t in s.poppers && t !in s.popped ==>
          if t in s'.poppers then t !in s'.popped && s'.poppers[t].id == s.poppers[t].id else t in s'.popped)
    && (t in s.popped && t !in s.poppers ==> t in s'.popped && t !in s'.poppers)
    && (t !in s.popped && t !in s.poppers ==> OneCall(s', t))
  }

  lemma PopRoundGoesOn(s: State, u: Thread, p: Popper, t: Thread)
    requires u in s.poppers ==> p.id == s.poppers[u].id
    requires u !in s.popped
    ensures CallGoesOn(s, PopRound(s, u, p), t)
  {
  }

  /** Steps of those who do not pop: calls of PopOrWait go on, and what was fetched for them stays. */
  ghost predicate Elsewhere(s: State, s': State) {
    && s'.poppers.Keys == s.poppers.Keys && s'.popped == s.popped
    && (forall t | t in s.poppers :: s'.poppers[t].id == s.poppers[t].id)
    && (forall t | t in s'.robbed && t !in s.robbed :: t in s.poppers)
  }

  lemma PutElsewhere(s: State, u: Thread, b: Batch, kept: Batches)
    ensures Elsewhere(s, PutRound(s, u, b, kept)) && PutRound(s, u, b, kept).forced == s.forced
  {
    var s' := PutRound(s, u, b, kept);
    assert (s'.poppers, s'.popped, s'.robbed, s'.forced) == (s.poppers, s.popped, s.robbed, s.forced);
  }

  lemma DeliverElsewhere(s: State, b: Batch)
    ensures Elsewhere(s, PutForced(s, b)) && PutForced(s, b).forced.Keys <= s.forced.Keys + {b.id}
  {
    var s' := PutForced(s, b);
    assert (s'.poppers, s'.popped) == (s.poppers, s.popped) && s'.robbed <= s.robbed + s.poppers.Keys;
  }

  lemma RemovedElsewhere(s: State, x: BatchId)
    ensures Elsewhere(s, Removed(s, x)) && Removed(s, x).forced.Keys <= s.forced.Keys
  {
  }

  lemma StepElsewhere(s: State, step: Step)
    requires Enabled(s, step) && !step.PopStart? && !step.PopWake?
    ensures Elsewhere(s, Next(s, step))
    ensures Next(s, step).forced.Keys <= s.forced.Keys + if step.Deliver? then {step.batch.id} else {}
  {
    match step
    case PutStart(u, b, kept) => PutElsewhere(s.(lastPutSeqRequest := b.id.num), u, b, kept);
    case PutWake(u, kept) => PutElsewhere(s, u, s.putters[u], kept);
    case Deliver(b) => DeliverElsewhere(s.(fetching := s.fetching - multiset{b.id}), b);
    case Expire(x) => RemovedElsewhere(s.(expiring := s.expiring - multiset{x}), x);
    case MonitorFires(u) =>
    case MonitorSends(x) =>
    case MonitorBroadcasts =>
    case Take(x) =>
    case TimerFires(x) =>
  }

  lemma PopRoundRobbed(s: State, u: Thread, p: Popper)
    ensures var s' := PopRound(s, u, p);
            s'.forced.Keys <= s.forced.Keys && forall t | t in s'.robbed && t !in s.robbed :: t in s.poppers
  {
    if Present(s, p.id) {
      RemovedElsewhere(s, p.id);
    }
  }

  /** Who loses a batch has waited for it, and only a delivery adds to what PutForce has stored. */
  lemma StepRobbed(s: State, step: Step)
    requires Enabled(s, step)
    ensures forall t | t in Next(s, step).robbed && t !in s.robbed :: t in s.poppers
    ensures Next(s, step).forced.Keys <= s.forced.Keys + if step.Deliver? then {step.batch.id} else {}
  {
    if step.PopStart? {
      PopRoundRobbed(Announced(s, step.id), step.t, Popper(step.id, false, 0));
    } else if step.PopWake? {
      PopRoundRobbed(s, step.t, s.poppers[step.t]);
    } else {
      StepElsewhere(s, step);
    }
  }

  lemma StepGoesOn(s: State, step: Step, t: Thread)
    requires Enabled(s, step) && (step.PopWake? ==> OneCall(s, step.t))
    ensures CallGoesOn(s, Next(s, step), t)
  {
    if step.PopStart? {
      PopRoundGoesOn(Announced(s, step.id), step.t, Popper(step.id, false, 0), t);
    } else if step.PopWake? {
      PopRoundGoesOn(s, step.t, s.poppers[step.t], t);
    } else {
      StepElsewhere(s, step);
    }
  }

  ghost predicate OneCalls(s: State) { forall t {:trigger OneCall(s, t)} :: OneCall(s, t) }

  lemma OneCallsStay(s: State, step: Step)
    requires OneCalls(s) && Enabled(s, step)
    ensures OneCalls(Next(s, step))
    ensures forall t {:trigger CallGoesOn(s, Next(s, step), t)} :: CallGoesOn(s, Next(s, step), t)
  {
    forall t ensures OneCall(Next(s, step), t) && CallGoesOn(s, Next(s, step), t) {
      assert OneCall(s, t) && (step.PopWake? ==> OneCall(s, step.t));
      StepGoesOn(s, step, t);
    }
  }

  lemma {:induction false} GoneForGood(s: State, steps: seq<Step>, end: State, t: Thread)
    requires OneCalls(s) && Leads(s, steps, end) && t in s.popped && t !in s.poppers
    ensures t !in end.poppers
    decreases |steps|
  {
    if steps != [] {
      OneCallsStay(s, steps[0]);
      assert CallGoesOn(s, Next(s, steps[0]), t);
      GoneForGood(Next(s, steps[0]), steps[1..], end, t);
    }
  }

  /** Who waits at both ends of a run has waited all along, for the same batch. */
  lemma {:induction false} SameWait(s: State, steps: seq<Step>, end: State, t: Thread)
    requires OneCalls(s) && Leads(s, steps, end) && t in s.poppers && t in end.poppers
    ensures end.poppers[t].id == s.poppers[t].id && (steps != [] ==> t in Next(s, steps[0]).poppers)
    decreases |steps|
  {
    if steps != [] {
      var s' := Next(s, steps[0]);
      OneCallsStay(s, steps[0]);
      assert OneCall(s, t) && CallGoesOn(s, s', t);
      if t in s'.poppers {
        SameWait(s', steps[1..], end, t);
      } else {
        GoneForGood(s', steps[1..], end, t);
      }
    }
  }

  lemma LeadsFrom(s: State, steps: seq<Step>, i: nat, mid: State)
    requires 1 <= i <= |steps| && Enabled(s, steps[0]) && Leads(Next(s, steps[0]), steps[1..][..i - 1], mid)
    ensures Leads(s, steps[..i], mid) && steps[i..] == steps[1..][i - 1..]
  {
    assert steps[..i][0] == steps[0] && steps[..i][1..] == steps[1..][..i - 1];
  }

  /** The steps up to the one at which t loses its batch, and those from there on. */
  lemma {:induction false} RobbedAt(s: State, steps: seq<Step>, end: State, t: Thread) returns (i: nat, mid: State)
    requires OneCalls(s) && Leads(s, steps, end) && t !in s.robbed && t in end.robbed
    ensures i < |steps| && Leads(s, steps[..i], mid) && Leads(mid, steps[i..], end) && OneCalls(mid)
    ensures Enabled(mid, steps[i]) && t !in mid.robbed && t in Next(mid, steps[i]).robbed
    decreases |steps|
  {
    var s' := Next(s, steps[0]);
    if t in s'.robbed {
      i, mid := 0, s;
      assert steps[0..] == steps;
    } else {
      OneCallsStay(s, steps[0]);
      var k;
      k, mid := RobbedAt(s', steps[1..], end, t);
      i := k + 1;
      LeadsFrom(s, steps, i, mid);
    }
  }

  /** What PutForce has stored was fetched. */
  lemma {:induction false} FetchedBefore(s: State, steps: seq<Step>, end: State, id: BatchId) returns (j: nat)
    requires Leads(s, steps, end) && id !in s.forced && id in end.forced
    ensures j < |steps| && steps[j].Deliver? && steps[j].batch.id == id
    decreases |steps|
  {
    StepRobbed(s, steps[0]);
    if id in Next(s, steps[0]).forced {
      j := 0;
    } else {
      var k := FetchedBefore(Next(s, steps[0]), steps[1..], end, id);
      j := k + 1;
    }
  }

  /**
   * Over every run from an unused index: if the batch that someone waits for is forsaken, then at some point of the
   * wait it was taken away, after it had been fetched.
   */
  lemma ForsakenOnlyBy(s: State, steps: seq<Step>, end: State, t: Thread, id: BatchId) returns (i: nat, mid: State)
    requires Initial(s) && Leads(s, steps, end) && Waiting(end, t, id) && Forsaken(end, id)
    ensures i < |steps| && Leads(s, steps[..i], mid) && Waiting(mid, t, id) && TakesAway(mid, steps[i], t, id)
    ensures exists j :: 0 <= j <= i && steps[j].Deliver? && steps[j].batch.id == id
  {
    InitialInv(s);
    RunInv(s, steps, end);
    if t !in end.robbed {
      UnrobbedIsNotForsaken(end, t);
      assert false;
    }
    i, mid := RobbedAt(s, steps, end, t);
    StepRobbed(mid, steps[i]);
    SameWait(mid, steps[i..], end, t);
    RobbedOnlyBy(mid, steps[i], t);
    if !steps[i].Deliver? {
      var j := FetchedBefore(s, steps[..i], mid, id);
      assert steps[j] == steps[..i][j];
    }
  }

  // ---------- How the wait ends ----------

  ghost predicate Returned(s: State, t: Thread, id: BatchId) {
    t !in s.poppers && t in s.popped && s.popped[t].id == id
  }

  /** A step of what is under way: no new call, and a fetch for the id of b brings b. */
  predicate UnderWay(step: Step, b: Batch) { !step.PopStart? && !step.PutStart? && Bears(step, b) }

  /** Steps of what is under way that end the wait. */
  ghost predicate Ends(s: State, steps: seq<Step>, end: State, t: Thread, b: Batch) {
    Leads(s, steps, end) && Returned(end, t, b.id) && forall i | 0 <= i < |steps| :: UnderWay(steps[i], b)
  }

  lemma EndsAfter(s: State, step: Step, steps: seq<Step>, end: State, t: Thread, b: Batch)
    requires Enabled(s, step) && Ends(Next(s, step), steps, end, t, b) && UnderWay(step, b)
    ensures Ends(s, [step] + steps, end, t, b)
  {
    assert ([step] + steps)[1..] == steps;
  }

  lemma FromPresent(s: State, t: Thread, b: Batch) returns (steps: seq<Step>, end: State)
    requires Inv(s) && Waiting(s, t, b.id) && Present(s, b.id)
    ensures Ends(s, steps, end, t, b) && |steps| <= 1
  {
    assert PopperOk(s, t);
    end := Next(s, PopWake(t));
    assert Ends(end, [], end, t, b);
    EndsAfter(s, PopWake(t), [], end, t, b);
    steps := [PopWake(t)] + [];
  }

  lemma FromFetching(s: State, t: Thread, b: Batch) returns (steps: seq<Step>, end: State)
    requires Inv(s) && Waiting(s, t, b.id) && b.id in s.fetching && b.size <= s.max
    ensures Ends(s, steps, end, t, b) && |steps| <= 2
  {
    StepInv(s, Deliver(b));
    steps, end := FromPresent(Next(s, Deliver(b)), t, b);
    EndsAfter(s, Deliver(b), steps, end, t, b);
    steps := [Deliver(b)] + steps;
  }

  lemma FromChannel(s: State, t: Thread, b: Batch) returns (steps: seq<Step>, end: State)
    requires Inv(s) && Waiting(s, t, b.id) && b.id in s.channel && b.size <= s.max
    ensures Ends(s, steps, end, t, b) && |steps| <= 3
  {
    StepInv(s, Take(b.id));
    steps, end := FromFetching(Next(s, Take(b.id)), t, b);
    EndsAfter(s, Take(b.id), steps, end, t, b);
    steps := [Take(b.id)] + steps;
  }

  lemma FromSends(s: State, t: Thread, b: Batch) returns (steps: seq<Step>, end: State)
    requires Inv(s) && Waiting(s, t, b.id) && b.id in s.sends && b.size <= s.max
    ensures Ends(s, steps, end, t, b) && |steps| <= 4
  {
    StepInv(s, MonitorSends(b.id));
    steps, end := FromChannel(Next(s, MonitorSends(b.id)), t, b);
    EndsAfter(s, MonitorSends(b.id), steps, end, t, b);
    steps := [MonitorSends(b.id)] + steps;
  }

  lemma FromArmed(s: State, t: Thread, b: Batch, u: Thread) returns (steps: seq<Step>, end: State)
    requires Inv(s) && Waiting(s, t, b.id) && Waiting(s, u, b.id) && s.poppers[u].armed > 0 && b.size <= s.max
    ensures Ends(s, steps, end, t, b) && |steps| <= 5
  {
    StepInv(s, MonitorFires(u));
    steps, end := FromSends(Next(s, MonitorFires(u)), t, b);
    EndsAfter(s, MonitorFires(u), steps, end, t, b);
    steps := [MonitorFires(u)] + steps;
  }

  /**
   * An armed monitor, when its turn comes: the request for the batch is sent and taken up, once, and all who wait are
   * woken; nothing else changes.
   */
  lemma MonitorRequests(s: State, t: Thread)
    requires t in s.poppers && s.poppers[t].armed > 0
    ensures var p := s.poppers[t];
            var s1 := Next(s, MonitorFires(t));
            && Enabled(s1, MonitorSends(p.id))
            && var s2 := Next(s1, MonitorSends(p.id));
               && Enabled(s2, MonitorBroadcasts)
               && var s3 := Next(s2, MonitorBroadcasts);
                  && Enabled(s3, Take(p.id))
                  && Next(s3, Take(p.id))
                     == s.(poppers := s.poppers[t := Popper(p.id, true, p.armed - 1)], awake := s.poppers.Keys,
                           awakePuts := s.putters.Keys, fetching := s.fetching + multiset{p.id})
  {
    var id := s.poppers[t].id;
    assert s.sends + multiset{id} - multiset{id} == s.sends;
    assert s.channel + multiset{id} - multiset{id} == s.channel;
    assert Next(s, MonitorFires(t)).poppers.Keys == s.poppers.Keys;
  }

  lemma {:induction false} LowestOf(m: Batches) returns (x: BatchId)
    requires m != map[]
    ensures x in m && forall y | y in m :: x.num <= y.num
    decreases |m.Keys|
  {
    var z :| z in m;
    x := z;
    var rest := m - {z};
    assert rest.Keys == m.Keys - {z};
    if rest != map[] {
      var y := LowestOf(rest);
      if y.num < x.num {
        x := y;
      }
    }
    forall w | w in m ensures x.num <= w.num { assert w == z || w in rest; }
  }

  /** Eviction always finds room. */
  lemma {:induction false} RoomFor(before: Batches, now: Batches, size: nat, max: nat) returns (kept: Batches)
    requires size <= max && Evicted(before, now, size, max)
    ensures Evicted(before, kept, size, max) && Total(kept) + size <= max
    decreases |now.Keys|
  {
    if Total(now) + size <= max {
      kept := now;
    } else {
      NotEmpty(now, size, max);
      var x := LowestOf(now);
      EvictOne(before, now, x, size, max);
      assert (now - {x}).Keys == now.Keys - {x};
      kept := RoomFor(before, now - {x}, size, max);
    }
  }

  lemma PutWakeStores(s: State, u: Thread, kept: Batches, t: Thread, id: BatchId)
    requires Enabled(s, PutWake(u, kept)) && s.putters[u].id == id && id.num <= s.maxPoppedCallSeq && Waiting(s, t, id)
    ensures var s' := Next(s, PutWake(u, kept)); Present(s', id) && Waiting(s', t, id)
  {
  }

  lemma KeptFor(s: State, b: Batch) returns (kept: Batches)
    requires b.size <= s.max
    ensures CanKeep(s, b, kept)
  {
    if Total(s.cache) + b.size <= s.max || s.maxPoppedCallSeq < b.id.num {
      kept := s.cache;
    } else {
      kept := RoomFor(s.cache, s.cache, b.size, s.max);
    }
  }

  /** A Put for a batch that is waited for is not held back, even by a full cache. */
  lemma FromPutter(s: State, t: Thread, b: Batch, u: Thread) returns (steps: seq<Step>, end: State)
    requires Inv(s) && Waiting(s, t, b.id) && u in s.putters && s.putters[u].id == b.id
    ensures Ends(s, steps, end, t, b) && |steps| <= 2
  {
    assert PopperOk(s, t) && PutterOk(s, u);
    var kept := KeptFor(s, s.putters[u]);
    PutWakeStores(s, u, kept, t, b.id);
    StepInv(s, PutWake(u, kept));
    steps, end := FromPresent(Next(s, PutWake(u, kept)), t, b);
    EndsAfter(s, PutWake(u, kept), steps, end, t, b);
    steps := [PutWake(u, kept)] + steps;
  }

  /**
   * Unless its batch is forsaken or larger than the cache, a PopOrWait can return after at most five steps of what is
   * under way, whatever else waits, full cache included; b is what a fetch of that batch brings.
   */
  lemma WaitCanEnd(s: State, t: Thread, b: Batch) returns (steps: seq<Step>, end: State)
    requires Inv(s) && Waiting(s, t, b.id) && !Forsaken(s, b.id) && !Oversized(s, b)
    ensures Ends(s, steps, end, t, b) && |steps| <= 5
  {
    if Present(s, b.id) {
      steps, end := FromPresent(s, t, b);
    } else if u :| u in s.putters && s.putters[u].id == b.id {
      steps, end := FromPutter(s, t, b, u);
    } else if b.id in s.fetching {
      steps, end := FromFetching(s, t, b);
    } else if b.id in s.channel {
      steps, end := FromChannel(s, t, b);
    } else if b.id in s.sends {
      steps, end := FromSends(s, t, b);
    } else if u :| Waiting(s, u, b.id) && s.poppers[u].armed > 0 {
      steps, end := FromArmed(s, t, b, u);
    } else {
      forall u | Waiting(s, u, b.id) ensures s.poppers[u].requested && s.poppers[u].armed == 0 {
        assert PopperOk(s, u);
      }
      assert false;
    }
  }

  /** Exactly which waits can end: those whose batch is neither forsaken nor larger than the cache. */
  lemma WaitEndsExactly(s: State, t: Thread, b: Batch)
    requires Inv(s) && Waiting(s, t, b.id)
    ensures (exists steps, end :: Ends(s, steps, end, t, b)) <==> !Forsaken(s, b.id) && !Oversized(s, b)
  {
    forall steps, end | Ends(s, steps, end, t, b) ensures !Forsaken(s, b.id) && !Oversized(s, b) {
      forall i | 0 <= i < |steps| ensures Internal(steps[i], b.id) && Bears(steps[i], b) {
        assert UnderWay(steps[i], b);
      }
      if Forsaken(s, b.id) {
        ForsakenForever(s, steps, end, b.id, t);
        assert false;
      }
      if Oversized(s, b) {
        OversizedForever(s, steps, end, b, t);
        assert false;
      }
    }
    if !Forsaken(s, b.id) && !Oversized(s, b) {
      var steps, end := WaitCanEnd(s, t, b);
    }
  }

  // ---------- A wait that does not end ----------

  /** An index that has not been used, with room for one batch of this size. */
  function Unused(size: nat): State {
    State(size, map[], map[], 0, 0, 0, map[], map[], {}, {}, {}, multiset{}, multiset{}, multiset{}, 0, multiset{},
          map[])
  }

  lemma {:induction false} LeadsAfter(s: State, steps: seq<Step>, mid: State, step: Step)
    requires Leads(s, steps, mid) && Enabled(mid, step)
    ensures Leads(s, steps + [step], Next(mid, step))
    decreases |steps|
  {
    var all := steps + [step];
    if steps == [] {
      assert all[1..] == [];
    } else {
      assert all[0] == steps[0] && all[1..] == steps[1..] + [step];
      LeadsAfter(Next(s, steps[0]), steps[1..], mid, step);
    }
  }

  lemma TotalOne(b: Batch, m: Batches)
    requires m == map[]
    ensures Total(m[b.id := b]) == b.size && Total(m) == 0
  {
    assert Sizes(m) == map[];
    TotalInsert(m, b);
  }

  /** Two batches in sequence, each of which fills the cache. */
  ghost predicate FillCache(x: Batch, y: Batch) { 0 < x.id.num < y.id.num && x.size == y.size > 0 }

  /** x is put, and its timer fires but does not get the lock yet. */
  lemma PutAndTimer(x: Batch) returns (steps: seq<Step>, end: State)
    requires x.size > 0 && x.id.num > 0
    ensures Leads(Unused(x.size), steps, end)
    ensures end == Unused(x.size).(cache := map[x.id := x], lastPutSeqRequest := x.id.num, lastPutSeq := x.id.num,
                                   expiring := multiset{x.id})
  {
    var s0 := Unused(x.size);
    TotalOne(x, s0.cache);
    var put := PutStart(0, x, s0.cache);
    LeadsAfter(s0, [], s0, put);
    LeadsAfter(s0, [] + [put], Next(s0, put), TimerFires(x.id));
    steps, end := [] + [put] + [TimerFires(x.id)], Next(Next(s0, put), TimerFires(x.id));
  }

  /** Then someone waits for y. */
  lemma Demanded(x: Batch, y: Batch) returns (steps: seq<Step>, end: State)
    requires FillCache(x, y)
    ensures Leads(Unused(x.size), steps, end)
    ensures end.max == x.size && end.cache == map[x.id := x] && end.forced == map[] && end.putters == map[]
    ensures end.popped == map[]
    ensures end.poppers == map[0 := Popper(y.id, false, 1)] && end.robbed == {}
    ensures end.sends == end.channel == end.fetching == multiset{} && end.expiring == multiset{x.id}
    ensures end.maxPoppedCallSeq == y.id.num
  {
    var s1;
    steps, s1 := PutAndTimer(x);
    LeadsAfter(Unused(x.size), steps, s1, PopStart(0, y.id));
    steps := steps + [PopStart(0, y.id)];
    end := Next(s1, PopStart(0, y.id));
  }

  /** And y displaces x. */
  lemma Displaced(x: Batch, y: Batch) returns (steps: seq<Step>, end: State)
    requires FillCache(x, y)
    ensures Leads(Unused(x.size), steps, end)
    ensures end.max == x.size && end.cache == map[y.id := y] && end.forced == map[] && end.putters == map[]
    ensures end.popped == map[]
    ensures end.poppers == map[0 := Popper(y.id, false, 1)] && end.awake == {0}
    ensures end.robbed == {} && end.sends == end.channel == end.fetching == multiset{} && end.expiring == multiset{x.id}
    ensures end.lastPutSeqRequest == end.lastPutSeq == end.maxPoppedCallSeq == y.id.num
  {
    var s1;
    steps, s1 := Demanded(x, y);
    TotalOne(x, map[]);
    assert LastNeeded(s1.cache, map[], x.id, y.size, s1.max);
    LeadsAfter(Unused(x.size), steps, s1, PutStart(1, y, map[]));
    steps := steps + [PutStart(1, y, map[])];
    end := Next(s1, PutStart(1, y, map[]));
  }

  /** Then y is popped. */
  lemma Drained(x: Batch, y: Batch) returns (steps: seq<Step>, end: State)
    requires FillCache(x, y)
    ensures Leads(Unused(x.size), steps, end)
    ensures end.max == x.size && end.cache == map[] && end.forced == map[] && end.putters == map[]
    ensures end.poppers == map[]
    ensures end.popped.Keys == {0} && end.robbed == {} && end.expiring == multiset{x.id}
    ensures end.sends == end.channel == end.fetching == multiset{}
    ensures end.lastPutSeqRequest == end.lastPutSeq == end.maxPoppedCallSeq == y.id.num
  {
    var s1;
    steps, s1 := Displaced(x, y);
    LeadsAfter(Unused(x.size), steps, s1, PopWake(0));
    steps := steps + [PopWake(0)];
    end := Next(s1, PopWake(0));
    assert end.cache == map[] && end.poppers == map[];
  }

  /** And someone waits for x and requests it. */
  lemma Requested(x: Batch, y: Batch) returns (steps: seq<Step>, end: State)
    requires FillCache(x, y)
    ensures Leads(Unused(x.size), steps, end)
    ensures end.max == x.size && end.cache == map[] && end.forced == map[] && end.putters == map[]
    ensures end.poppers == map[1 := Popper(x.id, true, 0)]
    ensures end.sends == end.fetching == multiset{} && end.channel == multiset{x.id} && end.expiring == multiset{x.id}
  {
    var s1;
    steps, s1 := Drained(x, y);
    LeadsAfter(Unused(x.size), steps, s1, PopStart(1, x.id));
    steps := steps + [PopStart(1, x.id)];
    end := Next(s1, PopStart(1, x.id));
  }

  /** And x is fetched. */
  lemma Fetched(x: Batch, y: Batch) returns (steps: seq<Step>, end: State)
    requires FillCache(x, y)
    ensures Leads(Unused(x.size), steps, end)
    ensures end.max == x.size && end.cache == map[] && end.forced == map[x.id := x] && end.putters == map[]
    ensures end.poppers == map[1 := Popper(x.id, true, 0)] && end.awake == {1}
    ensures end.sends == end.channel == end.fetching == multiset{} && end.expiring == multiset{x.id}
  {
    var s1;
    steps, s1 := Requested(x, y);
    LeadsAfter(Unused(x.size), steps, s1, Take(x.id));
    steps := steps + [Take(x.id)];
    var s2 := Next(s1, Take(x.id));
    LeadsAfter(Unused(x.size), steps, s2, Deliver(x));
    steps := steps + [Deliver(x)];
    end := Next(s2, Deliver(x));
  }

  /**
   * A timer that fired before its batch was evicted can remove a batch of the same id that was fetched since: the
   * one who waits for it has requested it already, and waits forever.
   */
  lemma StaleTimerForsakes(x: Batch, y: Batch) returns (steps: seq<Step>, end: State)
    requires FillCache(x, y)
    ensures Initial(Unused(x.size)) && Leads(Unused(x.size), steps, end)
    ensures Waiting(end, 1, x.id) && 1 !in end.awake && Forsaken(end, x.id) && x.size <= end.max
  {
    var s1;
    steps, s1 := Fetched(x, y);
    LeadsAfter(Unused(x.size), steps, s1, Expire(x.id));
    steps := steps + [Expire(x.id)];
    var s2 := Next(s1, Expire(x.id));
    LeadsAfter(Unused(x.size), steps, s2, PopWake(1));
    steps := steps + [PopWake(1)];
    end := Next(s2, PopWake(1));
  }

  /** A first call for a batch larger than the cache waits, is not forsaken, and yet never returns. */
  lemma OversizedWaits(max: nat, b: Batch) returns (end: State)
    requires b.size > max
    ensures Initial(Unused(max)) && Leads(Unused(max), [PopStart(0, b.id)], end)
    ensures Waiting(end, 0, b.id) && Oversized(end, b) && !Forsaken(end, b.id)
  {
    var s := Unused(max);
    LeadsAfter(s, [], s, PopStart(0, b.id));
    assert [] + [PopStart(0, b.id)] == [PopStart(0, b.id)];
    end := Next(s, PopStart(0, b.id));
    assert Waiting(end, 0, b.id);
  }
}
