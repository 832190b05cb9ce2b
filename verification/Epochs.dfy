/**
 * The two-strike censorship timer of the pending store, on values.
 *
 * A store holds a current bucket and a list of sealed ones.  An epoch change seals a non-empty current
 * bucket, forgets empty sealed buckets, gives a first strike to buckets sealed too long ago, and a
 * second strike to at most one bucket struck too long ago.
 */
module Epochs {
  import opened Wrappers

  type Id = string

  /** `sealedAt` is lastTimestamp and `struckAt` is firstStrikeTimestamp; None is Go's zero time. */
  datatype Bucket = Bucket(no: nat, ids: set<Id>, sealedAt: Option<int>, struckAt: Option<int>)

  function NewBucket(no: nat): Bucket { Bucket(no, {}, None, None) }

  datatype Config = Config(epoch: int, firstStrike: int, secondStrike: int)

  datatype Store = Store(past: seq<Bucket>, cur: Bucket, lastTick: int, lastEpoch: int)

  // ---------- changeEpochs ----------

  function Rotate(s: Store, now: int): Store {
    if s.cur.ids == {} then s
    else s.(past := s.past + [s.cur.(sealedAt := Some(now))], cur := NewBucket(s.cur.no + 1))
  }

  function DropEmpty(past: seq<Bucket>): seq<Bucket> {
    if past == [] then []
    else if past[|past| - 1].ids == {} then DropEmpty(past[..|past| - 1])
    else DropEmpty(past[..|past| - 1]) + [past[|past| - 1]]
  }

  predicate FirstStrikeDue(c: Config, b: Bucket, now: int) {
    b.struckAt.None? && b.sealedAt.Some? && now - b.sealedAt.value > c.firstStrike
  }

  function StrikeFirst(c: Config, past: seq<Bucket>, now: int): seq<Bucket> {
    seq(|past|, i requires 0 <= i < |past| =>
      if FirstStrikeDue(c, past[i], now) then past[i].(struckAt := Some(now)) else past[i])
  }

  predicate SecondStrikeDue(c: Config, b: Bucket, now: int) {
    b.struckAt.Some? && now - b.struckAt.value > c.secondStrike
  }

  /** The first bucket, from position i, that is due for its second strike. */
  function SecondStruck(c: Config, past: seq<Bucket>, now: int, i: nat): (k: nat)
    requires i <= |past|
    ensures i <= k <= |past|
    ensures k < |past| ==> SecondStrikeDue(c, past[k], now)
    ensures forall j | i <= j < k :: !SecondStrikeDue(c, past[j], now)
    decreases |past| - i
  {
    if i == |past| || SecondStrikeDue(c, past[i], now) then i else SecondStruck(c, past, now, i + 1)
  }

  /** checkSecondStrike: one bucket has its timestamps reset, if any is due. */
  function StrikeSecond(c: Config, past: seq<Bucket>, now: int): (seq<Bucket>, bool) {
    var k := SecondStruck(c, past, now, 0);
    if k == |past| then (past, false)
    else (past[k := past[k].(sealedAt := Some(now), struckAt := None)], true)
  }

  predicate EpochDue(c: Config, s: Store, now: int) { now - s.lastEpoch > c.epoch }

  /** The number of the bucket over which the second-strike callback of an epoch change runs, or 0. */
  function Cause(c: Config, s: Store, now: int): nat {
    var past := StrikeFirst(c, DropEmpty(Rotate(s, now).past), now);
    var k := SecondStruck(c, past, now, 0);
    if k == |past| then 0 else past[k].no
  }

  /** An epoch change; the second result says whether SecondStrikeCallback is called. */
  function Change(c: Config, s: Store, now: int): (Store, bool) {
    var r := Rotate(s, now);
    var (past, struck) := StrikeSecond(c, StrikeFirst(c, DropEmpty(r.past), now), now);
    (r.(past := past), struck)
  }

  /** One tick of the clock. */
  function Tick(c: Config, s: Store, now: int): (Store, bool) {
    if EpochDue(c, s, now) then Change(c, s.(lastTick := now, lastEpoch := now), now) else (s.(lastTick := now), false)
  }

  // ---------- Runs ----------

  datatype Event = Ticks(now: int) | Adds(id: Id, at: int) | Removes(id: Id) | Resets

  /**
   * A store with the time of the latest event, the times at which the second-strike callback ran with the bucket
   * that each was about, and the time at which each id was last added.
   */
  datatype State = State(store: Store, clock: int, callbacks: seq<int>, causes: seq<nat>, since: map<Id, int>)

  ghost predicate Holds(s: Store, id: Id) {
    id in s.cur.ids || exists k :: 0 <= k < |s.past| && id in s.past[k].ids
  }

  /** Time does not go back, and consecutive ticks are at most d apart. */
  ghost predicate Enabled(s: State, d: int, e: Event) {
    match e
    case Ticks(now) => s.clock <= now <= s.store.lastTick + d
    case Adds(id, at) => s.clock <= at && !Holds(s.store, id)
    case Removes(id) => true
    case Resets => true
  }

  function Apply(c: Config, s: State, e: Event): State {
    match e
    case Ticks(now) =>
      var (store, struck) := Tick(c, s.store, now);
      if struck then State(store, now, s.callbacks + [now], s.causes + [Cause(c, s.store, now)], s.since)
      else s.(store := store, clock := now)
    case Adds(id, at) => s.(store := With(s.store, id), clock := at, since := s.since[id := at])
    case Removes(id) => s.(store := Without(s.store, id))
    case Resets => s.(store := Reset(s.store))
  }

  function With(s: Store, id: Id): Store { s.(cur := s.cur.(ids := s.cur.ids + {id})) }

  function Without(s: Store, id: Id): Store {
    s.(cur := s.cur.(ids := s.cur.ids - {id}),
       past := seq(|s.past|, i requires 0 <= i < |s.past| => s.past[i].(ids := s.past[i].ids - {id})))
  }

  /** ResetTimestamps: every sealed bucket starts anew at the last tick. */
  function Reset(s: Store): Store {
    s.(past := seq(|s.past|, i requires 0 <= i < |s.past| =>
                     s.past[i].(sealedAt := Some(s.lastTick), struckAt := None)))
  }

  /** A run of a store that is not stopped, from its start; a reset stops it only until the reset is done. */
  ghost predicate IsRun(c: Config, d: int, run: seq<State>, events: seq<Event>) {
    && |run| == |events| + 1
    && run[0] == State(Store([], NewBucket(1), run[0].clock, run[0].clock), run[0].clock, [], [], map[])
    && forall i {:trigger events[i]} | 0 <= i < |events| ::
         Enabled(run[i], d, events[i]) && run[i + 1] == Apply(c, run[i], events[i])
  }

  // ---------- How long a request can be ignored ----------

  ghost predicate Sane(c: Config, d: int) {
    c.epoch >= 0 && c.firstStrike >= 0 && c.secondStrike >= 0 && d >= 1
  }

  ghost predicate SealedBy(b: Bucket, now: int) { b.sealedAt.Some? && b.sealedAt.value <= now }

  ghost predicate Timely(c: Config, s: State) {
    && s.store.lastEpoch <= s.store.lastTick <= s.clock
    && s.store.lastTick <= s.store.lastEpoch + c.epoch
    && s.store.cur.sealedAt.None? && s.store.cur.struckAt.None?
    && forall k | 0 <= k < |s.store.past| :: SealedBy(s.store.past[k], s.store.lastTick)
  }

  /** Bucket b, which holds id, was sealed and struck early enough for a request added at time t. */
  ghost predicate OnSchedule(c: Config, d: int, s: Store, b: Bucket, t: int) {
    match (b.sealedAt, b.struckAt)
    case (Some(at), None) => at <= t + c.epoch + d && s.lastEpoch <= at + c.firstStrike
    case (_, Some(at)) => at <= t + c.firstStrike + 2 * (c.epoch + d) && s.lastEpoch <= at + c.secondStrike
    case (None, None) => false
  }

  /** Where a request added at time t may be, as long as no callback has run for it. */
  ghost predicate Awaits(c: Config, d: int, s: Store, id: Id, t: int) {
    || (id in s.cur.ids && s.lastEpoch <= t)
    || exists k :: 0 <= k < |s.past| && id in s.past[k].ids && OnSchedule(c, d, s, s.past[k], t)
  }

  ghost function Deadline(c: Config, d: int, t: int): int {
    t + c.firstStrike + c.secondStrike + 3 * (c.epoch + d)
  }

  ghost predicate CalledBack(c: Config, d: int, callbacks: seq<int>, t: int) {
    exists i :: 0 <= i < |callbacks| && t <= callbacks[i] <= Deadline(c, d, t)
  }

  /** Forgetting empty buckets never drops one that holds a request. */
  lemma {:induction false} DropEmptyKeeps(past: seq<Bucket>, k: nat) returns (j: nat)
    requires k < |past| && past[k].ids != {}
    ensures j < |DropEmpty(past)| && DropEmpty(past)[j] == past[k]
  {
    var n := |past| - 1;
    if k == n {
      j := |DropEmpty(past)| - 1;
    } else {
      j := DropEmptyKeeps(past[..n], k);
    }
  }

  lemma {:induction false} DropEmptyFrom(past: seq<Bucket>, b: Bucket)
    requires b in DropEmpty(past)
    ensures b in past && b.ids != {}
  {
    var n := |past| - 1;
    if past[n].ids == {} || b != past[n] { DropEmptyFrom(past[..n], b); }
  }

  lemma TimelyStep(c: Config, d: int, s: State, e: Event)
    requires Sane(c, d) && Timely(c, s) && Enabled(s, d, e)
    ensures Timely(c, Apply(c, s, e))
  {
    if e.Ticks? && EpochDue(c, s.store, e.now) {
      var r := Rotate(s.store, e.now);
      var kept := DropEmpty(r.past);
      forall k | 0 <= k < |kept| ensures SealedBy(kept[k], e.now) { DropEmptyFrom(r.past, kept[k]); }
      var struck := StrikeFirst(c, kept, e.now);
      assert forall k | 0 <= k < |struck| :: SealedBy(struck[k], e.now);
    }
  }

  /** An epoch change strikes a non-empty sealed bucket when it is due and otherwise leaves it as it was. */
  lemma TickBucket(c: Config, s: Store, past: seq<Bucket>, now: int, k: nat) returns (j: nat)
    requires Sane(c, 1) && EpochDue(c, s, now) && past == Rotate(s, now).past && k < |past| && past[k].ids != {}
    ensures var (s', struck) := Tick(c, s, now);
            || (struck && SecondStrikeDue(c, past[k], now))
            || (!SecondStrikeDue(c, past[k], now) && j < |s'.past|
                && s'.past[j] == if FirstStrikeDue(c, past[k], now) then past[k].(struckAt := Some(now)) else past[k])
  {
    j := DropEmptyKeeps(past, k);
    var first := StrikeFirst(c, DropEmpty(past), now);
    assert first[j] == if FirstStrikeDue(c, past[k], now) then past[k].(struckAt := Some(now)) else past[k];
    assert SecondStrikeDue(c, first[j], now) <==> SecondStrikeDue(c, past[k], now);
  }

  lemma AwaitsTick(c: Config, d: int, s: State, now: int, id: Id, t: int)
    requires Sane(c, d) && Timely(c, s) && Enabled(s, d, Ticks(now)) && t <= s.clock
    requires Awaits(c, d, s.store, id, t)
    ensures var (s', struck) := Tick(c, s.store, now);
            Awaits(c, d, s', id, t) || (struck && t <= now <= Deadline(c, d, t))
  {
    if EpochDue(c, s.store, now) {
      var past := Rotate(s.store, now).past;
      var k: nat;
      if id in s.store.cur.ids && s.store.lastEpoch <= t {
        k := |s.store.past|;
      } else {
        k :| 0 <= k < |s.store.past| && id in s.store.past[k].ids && OnSchedule(c, d, s.store, s.store.past[k], t);
      }
      var j := TickBucket(c, s.store, past, now, k);
      var (s', struck) := Tick(c, s.store, now);
      if !SecondStrikeDue(c, past[k], now) { assert OnSchedule(c, d, s', s'.past[j], t); }
    } else {
      assert Tick(c, s.store, now).0.past == s.store.past;
    }
  }

  lemma AwaitsStep(c: Config, d: int, s: State, e: Event, id: Id, t: int)
    requires Sane(c, d) && Timely(c, s) && Enabled(s, d, e) && t <= s.clock && e != Removes(id) && !e.Resets?
    requires Awaits(c, d, s.store, id, t)
    ensures Awaits(c, d, Apply(c, s, e).store, id, t) || CalledBack(c, d, Apply(c, s, e).callbacks, t)
  {
    var s' := Apply(c, s, e);
    match e
    case Ticks(now) =>
      AwaitsTick(c, d, s, now, id, t);
      if Tick(c, s.store, now).1 { assert s'.callbacks[|s'.callbacks| - 1] == now; }
    case Adds(other, at) =>
      assert s'.store.past == s.store.past;
    case Removes(other) =>
      if !(id in s.store.cur.ids && s.store.lastEpoch <= t) {
        var k :| 0 <= k < |s.store.past| && id in s.store.past[k].ids && OnSchedule(c, d, s.store, s.store.past[k], t);
        assert id in s'.store.past[k].ids && OnSchedule(c, d, s'.store, s'.store.past[k], t);
      }
  }

  lemma CalledBackStep(c: Config, d: int, s: State, e: Event, t: int)
    requires CalledBack(c, d, s.callbacks, t)
    ensures CalledBack(c, d, Apply(c, s, e).callbacks, t)
  {
    var m :| 0 <= m < |s.callbacks| && t <= s.callbacks[m] <= Deadline(c, d, t);
    assert Apply(c, s, e).callbacks[m] == s.callbacks[m];
  }

  lemma {:induction false} RunTimely(c: Config, d: int, run: seq<State>, events: seq<Event>, j: nat)
    requires Sane(c, d) && IsRun(c, d, run, events) && j < |run|
    ensures Timely(c, run[j])
  {
    if j > 0 {
      RunTimely(c, d, run, events, j - 1);
      TimelyStep(c, d, run[j - 1], events[j - 1]);
    }
  }

  /** The wait for a callback begins, at time t: the request is added, or it is held when the clocks are reset. */
  ghost predicate Begins(run: seq<State>, events: seq<Event>, i: nat, id: Id, t: int)
    requires i < |events| < |run|
  {
    events[i] == Adds(id, t) || (events[i] == Resets && Holds(run[i].store, id) && t == run[i].store.lastTick)
  }

  lemma AwaitsReset(c: Config, d: int, s: State, id: Id)
    requires Sane(c, d) && Timely(c, s) && Holds(s.store, id)
    ensures Awaits(c, d, Reset(s.store), id, s.store.lastTick)
  {
    if id !in s.store.cur.ids {
      var k :| 0 <= k < |s.store.past| && id in s.store.past[k].ids;
      var s' := Reset(s.store);
      assert id in s'.past[k].ids && OnSchedule(c, d, s', s'.past[k], s.store.lastTick);
    }
  }

  lemma {:induction false} RunAwaits(c: Config, d: int, run: seq<State>, events: seq<Event>, i: nat, id: Id, t: int,
                                     j: nat)
    requires Sane(c, d) && IsRun(c, d, run, events) && i < |events| && i < j < |run| && Begins(run, events, i, id, t)
    requires forall k | i < k < |events| :: events[k] != Removes(id) && events[k] != Resets
    ensures t <= run[j].clock
    ensures Awaits(c, d, run[j].store, id, t) || CalledBack(c, d, run[j].callbacks, t)
  {
    if j == i + 1 {
      RunTimely(c, d, run, events, i);
      if events[i] == Resets {
        AwaitsReset(c, d, run[i], id);
      }
    } else {
      RunAwaits(c, d, run, events, i, id, t, j - 1);
      RunTimely(c, d, run, events, j - 1);
      if Awaits(c, d, run[j - 1].store, id, t) {
        AwaitsStep(c, d, run[j - 1], events[j - 1], id, t);
      } else {
        CalledBackStep(c, d, run[j - 1], events[j - 1], t);
      }
    }
  }

  /**
   * A request that is added, or is held at a reset, and is neither removed nor reset afterwards is answered: once
   * ticks reach its deadline, a second-strike callback has run at some time between then and the deadline, although
   * an epoch change strikes at most one bucket.
   */
  lemma IgnoredRequestStrikes(c: Config, d: int, run: seq<State>, events: seq<Event>, i: nat, id: Id, t: int)
    requires Sane(c, d) && IsRun(c, d, run, events) && i < |events| && Begins(run, events, i, id, t)
    requires forall k | i < k < |events| :: events[k] != Removes(id) && events[k] != Resets
    requires run[|events|].store.lastTick >= Deadline(c, d, t)
    ensures CalledBack(c, d, run[|events|].callbacks, t)
  {
    RunAwaits(c, d, run, events, i, id, t, |events|);
    RunTimely(c, d, run, events, |events|);
  }

  // ---------- No false alarm ----------

  /** The requests of a bucket were added before it was sealed, which was long before its first strike. */
  ghost predicate Aged(c: Config, s: State, b: Bucket) {
    && (forall id | id in b.ids ::
          id in s.since && s.since[id] <= (if b.sealedAt.Some? then b.sealedAt.value else s.clock))
    && (b.struckAt.Some? ==> b.sealedAt.Some? && b.struckAt.value - b.sealedAt.value > c.firstStrike)
  }

  ghost predicate AllAged(c: Config, s: State) {
    Aged(c, s, s.store.cur) && forall k | 0 <= k < |s.store.past| :: Aged(c, s, s.store.past[k])
  }

  /**
   * A second-strike callback at this time over bucket `no`: it holds a request that was held for longer than both
   * thresholds, and its clocks have been started again.
   */
  ghost predicate Called(c: Config, s: State, s': State, no: nat, now: int) {
    exists k, id :: Restarted(s'.store, k, no, now, id) && Overdue(c, s, now, id)
  }

  ghost predicate Restarted(s: Store, k: int, no: nat, now: int, id: Id) {
    0 <= k < |s.past| && id in s.past[k].ids && s.past[k] == Bucket(no, s.past[k].ids, Some(now), None)
  }

  ghost predicate Overdue(c: Config, s: State, now: int, id: Id) {
    id in s.since && now - s.since[id] > c.firstStrike + c.secondStrike
  }

  /** The sealed buckets of an epoch change, before the second strike, are aged and hold a request each. */
  lemma AgedFirst(c: Config, s: State, s': State, now: int)
    requires Sane(c, 1) && AllAged(c, s) && s.clock <= now && s'.since == s.since && s'.clock == now
    requires s.store.cur.sealedAt.None? && s.store.cur.struckAt.None?
    ensures var first := StrikeFirst(c, DropEmpty(Rotate(s.store, now).past), now);
            forall b | b in first :: Aged(c, s', b) && b.ids != {}
  {
    var r := Rotate(s.store, now);
    var kept := DropEmpty(r.past);
    forall k | 0 <= k < |kept| ensures Aged(c, s', kept[k]) && kept[k].ids != {} { DropEmptyFrom(r.past, kept[k]); }
    var first := StrikeFirst(c, kept, now);
    forall b | b in first ensures Aged(c, s', b) && b.ids != {} {
      var k :| 0 <= k < |first| && first[k] == b;
      assert Aged(c, s', kept[k]);
    }
  }

  /** The buckets after an epoch change are those before it, aged, and a struck one holds a request. */
  lemma AgedTick(c: Config, s: State, now: int)
    requires Sane(c, 1) && AllAged(c, s) && s.clock <= now && EpochDue(c, s.store, now)
    requires s.store.cur.sealedAt.None? && s.store.cur.struckAt.None?
    ensures AllAged(c, Apply(c, s, Ticks(now)))
    ensures Tick(c, s.store, now).1 ==> Called(c, s, Apply(c, s, Ticks(now)), Cause(c, s.store, now), now)
  {
    var s' := Apply(c, s, Ticks(now));
    AgedFirst(c, s, s', now);
    assert Rotate(s.store.(lastTick := now, lastEpoch := now), now).past == Rotate(s.store, now).past;
    var first := StrikeFirst(c, DropEmpty(Rotate(s.store, now).past), now);
    var k := SecondStruck(c, first, now, 0);
    if k < |first| {
      var id :| id in first[k].ids;
      assert Aged(c, s', first[k]);
      assert Restarted(s'.store, k, first[k].no, now, id) && Overdue(c, s, now, id);
    }
  }

  lemma AgedStep(c: Config, d: int, s: State, e: Event)
    requires Sane(c, d) && AllAged(c, s) && Timely(c, s) && Enabled(s, d, e)
    ensures AllAged(c, Apply(c, s, e))
  {
    var s' := Apply(c, s, e);
    match e
    case Ticks(now) => if EpochDue(c, s.store, now) { AgedTick(c, s, now); }
    case Adds(id, at) =>
      forall k | 0 <= k < |s'.store.past| ensures Aged(c, s', s'.store.past[k]) {
        assert Aged(c, s, s.store.past[k]);
        assert id !in s.store.past[k].ids;
      }
    case Removes(id) =>
      forall k | 0 <= k < |s'.store.past| ensures Aged(c, s', s'.store.past[k]) { assert Aged(c, s, s.store.past[k]); }
    case Resets =>
      forall k | 0 <= k < |s'.store.past| ensures Aged(c, s', s'.store.past[k]) { assert Aged(c, s, s.store.past[k]); }
  }

  lemma {:induction false} RunAged(c: Config, d: int, run: seq<State>, events: seq<Event>, j: nat)
    requires Sane(c, d) && IsRun(c, d, run, events) && j < |run|
    ensures AllAged(c, run[j])
  {
    if j > 0 {
      RunAged(c, d, run, events, j - 1);
      RunTimely(c, d, run, events, j - 1);
      AgedStep(c, d, run[j - 1], events[j - 1]);
    }
  }

  /**
   * A second-strike callback runs only over a bucket with a request that was held for longer than both thresholds, and
   * starts that bucket's clocks again.
   */
  lemma StrikesOnlyIgnoredRequests(c: Config, d: int, run: seq<State>, events: seq<Event>, j: nat)
    requires Sane(c, d) && IsRun(c, d, run, events) && j < |events| && events[j].Ticks?
    requires run[j + 1].callbacks != run[j].callbacks
    ensures var now, no := events[j].now, Cause(c, run[j].store, events[j].now);
            && run[j + 1].callbacks == run[j].callbacks + [now] && run[j + 1].causes == run[j].causes + [no]
            && Called(c, run[j], run[j + 1], no, now)
  {
    RunAged(c, d, run, events, j);
    RunTimely(c, d, run, events, j);
    AgedTick(c, run[j], events[j].now);
  }

  // ---------- How far callbacks are apart ----------

  /** Buckets are numbered in the order in which they are made. */
  ghost predicate Numbered(past: seq<Bucket>, next: nat) {
    && (forall i, j | 0 <= i < j < |past| :: past[i].no < past[j].no)
    && (forall i | 0 <= i < |past| :: 0 < past[i].no < next)
  }

  lemma {:induction false} DropEmptyNumbered(past: seq<Bucket>, next: nat)
    requires Numbered(past, next)
    ensures Numbered(DropEmpty(past), next)
    decreases |past|
  {
    if past != [] {
      var n := |past| - 1;
      DropEmptyNumbered(past[..n], past[n].no);
    }
  }

  /** A sealed bucket's clock was started after every callback about it. */
  ghost predicate StartedAfter(s: State, b: Bucket) {
    && b.sealedAt.Some?
    && forall m | 0 <= m < |s.causes| && m < |s.callbacks| && s.causes[m] == b.no :: s.callbacks[m] <= b.sealedAt.value
  }

  /** Callbacks about one bucket need both thresholds in between. */
  ghost predicate Apart(c: Config, s: State) {
    forall i, j | 0 <= i < j < |s.callbacks| && j < |s.causes| && s.causes[i] == s.causes[j] ::
      s.callbacks[j] - s.callbacks[i] > c.firstStrike + c.secondStrike
  }

  ghost predicate Spaced(c: Config, s: State) {
    && Numbered(s.store.past, s.store.cur.no) && 0 < s.store.cur.no && |s.causes| == |s.callbacks|
    && (forall m | 0 <= m < |s.causes| :: s.causes[m] < s.store.cur.no && s.callbacks[m] <= s.clock)
    && (forall k | 0 <= k < |s.store.past| :: StartedAfter(s, s.store.past[k]))
    && Apart(c, s)
  }

  /** The sealed buckets of an epoch change, before the second strike. */
  lemma SpacedRotate(c: Config, s: State, now: int)
    requires Spaced(c, s) && AllAged(c, s) && s.clock <= now && s.store.cur.sealedAt.None? && s.store.cur.struckAt.None?
    ensures var r := Rotate(s.store, now);
            var first := StrikeFirst(c, DropEmpty(r.past), now);
            && Numbered(first, r.cur.no) && s.store.cur.no <= r.cur.no
            && forall k | 0 <= k < |first| ::
                 StartedAfter(s, first[k]) && (first[k].struckAt.Some? ==>
                   first[k].struckAt.value - first[k].sealedAt.value > c.firstStrike)
  {
    var r := Rotate(s.store, now);
    var kept := DropEmpty(r.past);
    assert Numbered(r.past, r.cur.no);
    DropEmptyNumbered(r.past, r.cur.no);
    forall k | 0 <= k < |kept|
      ensures StartedAfter(s, kept[k])
      ensures kept[k].struckAt.Some? ==> kept[k].struckAt.value - kept[k].sealedAt.value > c.firstStrike
    {
      DropEmptyFrom(r.past, kept[k]);
    }
  }

  lemma SpacedTick(c: Config, s: State, now: int)
    requires Sane(c, 1) && Spaced(c, s) && AllAged(c, s) && s.clock <= now && EpochDue(c, s.store, now)
    requires s.store.cur.sealedAt.None? && s.store.cur.struckAt.None?
    ensures Spaced(c, Apply(c, s, Ticks(now)))
  {
    var s' := Apply(c, s, Ticks(now));
    SpacedRotate(c, s, now);
    var first := StrikeFirst(c, DropEmpty(Rotate(s.store, now).past), now);
    var k := SecondStruck(c, first, now, 0);
    forall i | 0 <= i < |s'.store.past| ensures StartedAfter(s', s'.store.past[i]) { assert StartedAfter(s, first[i]); }
    assert k < |first| ==> StartedAfter(s, first[k]);
  }

  lemma SpacedStep(c: Config, d: int, s: State, e: Event)
    requires Sane(c, d) && Spaced(c, s) && AllAged(c, s) && Timely(c, s) && Enabled(s, d, e)
    ensures Spaced(c, Apply(c, s, e))
  {
    var s' := Apply(c, s, e);
    match e
    case Ticks(now) =>
      if EpochDue(c, s.store, now) {
        SpacedTick(c, s, now);
      } else {
        forall k | 0 <= k < |s'.store.past| ensures StartedAfter(s', s'.store.past[k]) {
          assert StartedAfter(s, s.store.past[k]);
        }
      }
    case Adds(id, at) =>
      forall k | 0 <= k < |s'.store.past| ensures StartedAfter(s', s'.store.past[k]) {
        assert StartedAfter(s, s.store.past[k]);
      }
    case Removes(id) =>
      forall k | 0 <= k < |s'.store.past| ensures StartedAfter(s', s'.store.past[k]) {
        assert StartedAfter(s, s.store.past[k]);
      }
    case Resets =>
      forall k | 0 <= k < |s'.store.past| ensures StartedAfter(s', s'.store.past[k]) {
        assert StartedAfter(s, s.store.past[k]) && SealedBy(s.store.past[k], s.store.lastTick);
      }
  }

  lemma {:induction false} RunSpaced(c: Config, d: int, run: seq<State>, events: seq<Event>, j: nat)
    requires Sane(c, d) && IsRun(c, d, run, events) && j < |run|
    ensures Spaced(c, run[j])
  {
    if j > 0 {
      var k := j - 1;
      RunSpaced(c, d, run, events, k);
      RunAged(c, d, run, events, k);
      RunTimely(c, d, run, events, k);
      assert Enabled(run[k], d, events[k]) && run[k + 1] == Apply(c, run[k], events[k]);
      SpacedStep(c, d, run[k], events[k]);
    }
  }

  /** Over every run, two callbacks about the same bucket are more than both thresholds apart. */
  lemma StrikesApart(c: Config, d: int, run: seq<State>, events: seq<Event>, n: nat, i: nat, j: nat)
    requires Sane(c, d) && IsRun(c, d, run, events) && n < |run| && i < j < |run[n].callbacks|
    ensures |run[n].causes| == |run[n].callbacks|
    ensures run[n].causes[i] == run[n].causes[j] ==>
              run[n].callbacks[j] - run[n].callbacks[i] > c.firstStrike + c.secondStrike
  {
    RunSpaced(c, d, run, events, n);
  }

  // After a reset

  /** Every clock was started at time u or later, and the next tick is not before it. */
  ghost predicate Since(s: State, u: int) {
    u <= s.store.lastTick && forall k | 0 <= k < |s.store.past| :: StartedAt(s.store.past[k], u)
  }

  ghost predicate StartedAt(b: Bucket, u: int) { b.sealedAt.Some? && u <= b.sealedAt.value }

  lemma SinceTick(c: Config, s: State, now: int, u: int)
    requires Sane(c, 1) && Since(s, u) && AllAged(c, s) && s.store.lastTick <= now && EpochDue(c, s.store, now)
    requires s.store.cur.sealedAt.None? && s.store.cur.struckAt.None?
    ensures Since(Apply(c, s, Ticks(now)), u)
    ensures Tick(c, s.store, now).1 ==> now > u + c.firstStrike + c.secondStrike
  {
    var r := Rotate(s.store, now);
    var kept := DropEmpty(r.past);
    forall k | 0 <= k < |kept|
      ensures StartedAt(kept[k], u)
      ensures kept[k].struckAt.Some? ==> kept[k].struckAt.value - kept[k].sealedAt.value > c.firstStrike
    {
      DropEmptyFrom(r.past, kept[k]);
    }
    var first := StrikeFirst(c, kept, now);
    forall k | 0 <= k < |first|
      ensures StartedAt(first[k], u)
      ensures first[k].struckAt.Some? ==> first[k].struckAt.value - first[k].sealedAt.value > c.firstStrike
    {
      assert StartedAt(kept[k], u);
    }
  }

  lemma SinceStep(c: Config, d: int, s: State, e: Event, u: int)
    requires Sane(c, d) && Since(s, u) && AllAged(c, s) && Timely(c, s) && Enabled(s, d, e)
    ensures Since(Apply(c, s, e), u)
  {
    match e
    case Ticks(now) => if EpochDue(c, s.store, now) { SinceTick(c, s, now, u); }
    case Adds(id, at) =>
    case Removes(id) =>
    case Resets =>
  }

  lemma {:induction false} RunSince(c: Config, d: int, run: seq<State>, events: seq<Event>, i: nat, j: nat)
    requires Sane(c, d) && IsRun(c, d, run, events) && i < j < |run| && events[i] == Resets
    ensures Since(run[j], run[i].store.lastTick)
  {
    if j > i + 1 {
      var k := j - 1;
      RunSince(c, d, run, events, i, k);
      RunAged(c, d, run, events, k);
      RunTimely(c, d, run, events, k);
      assert Enabled(run[k], d, events[k]) && run[k + 1] == Apply(c, run[k], events[k]);
      SinceStep(c, d, run[k], events[k], run[i].store.lastTick);
    }
  }

  /** A reset grants both thresholds anew: no callback runs before they have passed since the last tick before it. */
  lemma ResetGrantsTime(c: Config, d: int, run: seq<State>, events: seq<Event>, i: nat, j: nat)
    requires Sane(c, d) && IsRun(c, d, run, events) && i < j < |events| && events[i] == Resets && events[j].Ticks?
    requires run[j + 1].callbacks != run[j].callbacks
    ensures events[j].now > run[i].store.lastTick + c.firstStrike + c.secondStrike
  {
    RunSince(c, d, run, events, i, j);
    RunAged(c, d, run, events, j);
    RunTimely(c, d, run, events, j);
    SinceTick(c, run[j], events[j].now, run[i].store.lastTick);
  }

  // A tick, bucket by bucket

  lemma {:induction false} DropEmptySplit(past: seq<Bucket>, k: nat)
    requires k < |past| && past[k].ids != {}
    ensures var j := |DropEmpty(past[..k])|;
            j < |DropEmpty(past)| && DropEmpty(past)[..j] == DropEmpty(past[..k]) && DropEmpty(past)[j] == past[k]
    decreases |past|
  {
    var n := |past| - 1;
    if k < n {
      DropEmptySplit(past[..n], k);
      assert past[..n][..k] == past[..k];
    }
  }

  /** The second strike of bucket b is overdue at this time. */
  predicate Late(c: Config, b: Bucket, now: int) {
    b.ids != {} && b.struckAt.Some? && now - b.struckAt.value > c.secondStrike
  }

  /**
   * What a tick makes of a bucket that is not empty; `first` says that no earlier bucket's second strike is overdue.
   */
  function Ticked(c: Config, b: Bucket, now: int, first: bool): Bucket {
    if b.struckAt.Some? then
      if now - b.struckAt.value > c.secondStrike && first then Bucket(b.no, b.ids, Some(now), None) else b
    else if b.sealedAt.Some? && now - b.sealedAt.value > c.firstStrike then Bucket(b.no, b.ids, b.sealedAt, Some(now))
    else b
  }

  ghost predicate NoneLate(c: Config, past: seq<Bucket>, now: int) {
    forall m | 0 <= m < |past| :: !Late(c, past[m], now)
  }

  lemma NoneLateExactly(c: Config, past: seq<Bucket>, now: int)
    requires Sane(c, 1)
    ensures var struck := StrikeFirst(c, DropEmpty(past), now);
            NoneLate(c, past, now) <==> forall m | 0 <= m < |struck| :: !SecondStrikeDue(c, struck[m], now)
  {
    var kept := DropEmpty(past);
    var struck := StrikeFirst(c, kept, now);
    forall m | 0 <= m < |struck| && SecondStrikeDue(c, struck[m], now) ensures !NoneLate(c, past, now) {
      DropEmptyFrom(past, kept[m]);
      var i :| 0 <= i < |past| && past[i] == kept[m];
      assert Late(c, past[i], now);
    }
    forall i | 0 <= i < |past| && Late(c, past[i], now)
      ensures exists m :: 0 <= m < |struck| && SecondStrikeDue(c, struck[m], now)
    {
      var m := DropEmptyKeeps(past, i);
      assert SecondStrikeDue(c, struck[m], now);
    }
  }

  /** The sealed buckets once a current bucket with requests is sealed too. */
  function AllSealed(s: Store, now: int): seq<Bucket> {
    if s.cur.ids == {} then s.past else s.past + [Bucket(s.cur.no, s.cur.ids, Some(now), s.cur.struckAt)]
  }

  /**
   * A tick in full: within the epoch it changes nothing, and after it every bucket with requests is as Ticked says,
   * in the same order, and a callback runs if and only if some second strike is overdue.
   */
  lemma TickExactly(c: Config, s: Store, now: int, k: nat) returns (j: nat)
    requires Sane(c, 1) && k < |AllSealed(s, now)| && AllSealed(s, now)[k].ids != {}
    ensures now - s.lastEpoch <= c.epoch ==> Tick(c, s, now) == (s.(lastTick := now), false)
    ensures j == |DropEmpty(AllSealed(s, now)[..k])|
    ensures now - s.lastEpoch > c.epoch ==>
              var (s', called) := Tick(c, s, now);
              var all := AllSealed(s, now);
              && j < |s'.past| && s'.past[j] == Ticked(c, all[k], now, NoneLate(c, all[..k], now))
              && (called <==> !NoneLate(c, all, now))
              && s'.lastTick == s'.lastEpoch == now
              && s'.cur == if s.cur.ids == {} then s.cur else Bucket(s.cur.no + 1, {}, None, None)
  {
    var all := AllSealed(s, now);
    j := |DropEmpty(all[..k])|;
    if EpochDue(c, s, now) {
      assert Rotate(s.(lastTick := now, lastEpoch := now), now).past == all;
      var kept := DropEmpty(all);
      var struck := StrikeFirst(c, kept, now);
      DropEmptySplit(all, k);
      assert struck[..j] == StrikeFirst(c, DropEmpty(all[..k]), now);
      NoneLateExactly(c, all[..k], now);
      NoneLateExactly(c, all, now);
      StruckAt(c, struck, now, j);
    }
  }

  /** The bucket at j is the one that is struck if and only if it is due and no earlier one is. */
  lemma StruckAt(c: Config, past: seq<Bucket>, now: int, j: nat)
    requires j < |past|
    ensures (forall m | 0 <= m < |past[..j]| :: !SecondStrikeDue(c, past[..j][m], now))
            <==> SecondStruck(c, past, now, 0) >= j
  {
    var k := SecondStruck(c, past, now, 0);
    if k < j { assert past[..j][k] == past[k]; }
  }

  lemma {:induction false} KeptFrom(past: seq<Bucket>, j: nat) returns (k: nat)
    requires j < |DropEmpty(past)|
    ensures k < |past| && past[k].ids != {} && j == |DropEmpty(past[..k])|
    decreases |past|
  {
    var n := |past| - 1;
    if past[n].ids != {} && j == |DropEmpty(past[..n])| {
      k := n;
    } else {
      k := KeptFrom(past[..n], j);
      assert past[..n][..k] == past[..k];
    }
  }

  /** Every bucket after an epoch change was there before it, with requests, and is as TickExactly says. */
  lemma TickedFrom(c: Config, s: Store, now: int, j: nat) returns (k: nat)
    requires Sane(c, 1) && now - s.lastEpoch > c.epoch && j < |Tick(c, s, now).0.past|
    ensures var all := AllSealed(s, now);
            && k < |all| && all[k].ids != {}
            && Tick(c, s, now).0.past[j] == Ticked(c, all[k], now, NoneLate(c, all[..k], now))
  {
    assert Rotate(s.(lastTick := now, lastEpoch := now), now).past == AllSealed(s, now);
    k := KeptFrom(AllSealed(s, now), j);
    var j' := TickExactly(c, s, now, k);
  }

  // A single request

  /** Only the bucket of this number has requests, and callbacks are about it. */
  ghost predicate OnlyIn(s: State, no: nat) {
    && (s.store.cur.ids != {} ==> s.store.cur.no == no)
    && (forall k | 0 <= k < |s.store.past| && s.store.past[k].ids != {} :: s.store.past[k].no == no)
    && (forall m | 0 <= m < |s.causes| :: s.causes[m] == no)
  }

  lemma OnlyInStep(c: Config, s: State, e: Event, no: nat)
    requires OnlyIn(s, no) && !e.Adds?
    ensures OnlyIn(Apply(c, s, e), no)
  {
    if e.Ticks? && EpochDue(c, s.store, e.now) {
      var r := Rotate(s.store, e.now);
      var kept := DropEmpty(r.past);
      forall k | 0 <= k < |kept| ensures kept[k].no == no { DropEmptyFrom(r.past, kept[k]); }
      var first := StrikeFirst(c, kept, e.now);
      assert forall k | 0 <= k < |first| :: first[k].no == no;
    }
  }

  ghost predicate Nothing(s: State) {
    && s.store.cur.ids == {} && s.causes == []
    && forall k | 0 <= k < |s.store.past| :: s.store.past[k].ids == {}
  }

  lemma NothingStep(c: Config, s: State, e: Event)
    requires Nothing(s)
    ensures !e.Adds? ==> Nothing(Apply(c, s, e))
    ensures e.Adds? ==> OnlyIn(Apply(c, s, e), s.store.cur.no)
  {
    if e.Ticks? && EpochDue(c, s.store, e.now) {
      var r := Rotate(s.store, e.now);
      var kept := DropEmpty(r.past);
      if kept != [] {
        DropEmptyFrom(r.past, kept[0]);
        assert false;
      }
    }
  }

  lemma {:induction false} RunOnlyIn(c: Config, d: int, run: seq<State>, events: seq<Event>, a: nat, n: nat)
    requires IsRun(c, d, run, events) && n < |run| && forall i | 0 <= i < |events| && events[i].Adds? :: i == a
    ensures Nothing(run[n]) || exists no :: OnlyIn(run[n], no)
  {
    if n > 0 {
      var k := n - 1;
      RunOnlyIn(c, d, run, events, a, k);
      assert Enabled(run[k], d, events[k]) && run[k + 1] == Apply(c, run[k], events[k]);
      if k <= a {
        RunNothing(c, d, run, events, a, k);
        NothingStep(c, run[k], events[k]);
      } else if Nothing(run[k]) {
        NothingStep(c, run[k], events[k]);
      } else {
        var no :| OnlyIn(run[k], no);
        OnlyInStep(c, run[k], events[k], no);
      }
    }
  }

  lemma {:induction false} RunNothing(c: Config, d: int, run: seq<State>, events: seq<Event>, a: nat, n: nat)
    requires IsRun(c, d, run, events) && n < |run| && n <= a
    requires forall i | 0 <= i < |events| && events[i].Adds? :: i == a
    ensures Nothing(run[n])
  {
    if n > 0 {
      var k := n - 1;
      RunNothing(c, d, run, events, a, k);
      assert Enabled(run[k], d, events[k]) && run[k + 1] == Apply(c, run[k], events[k]);
      NothingStep(c, run[k], events[k]);
    }
  }

  /** In a run in which one request is added, any two callbacks are more than both thresholds apart. */
  lemma OneRequestStrikesApart(c: Config, d: int, run: seq<State>, events: seq<Event>, a: nat, n: nat, i: nat, j: nat)
    requires Sane(c, d) && IsRun(c, d, run, events) && n < |run| && i < j < |run[n].callbacks|
    requires forall i | 0 <= i < |events| && events[i].Adds? :: i == a
    ensures run[n].callbacks[j] - run[n].callbacks[i] > c.firstStrike + c.secondStrike
  {
    StrikesApart(c, d, run, events, n, i, j);
    RunOnlyIn(c, d, run, events, a, n);
    if exists no :: OnlyIn(run[n], no) {
      var no :| OnlyIn(run[n], no);
    }
  }
}
