/**
 * The whole life of a request pool: in each phase any number of calls interleave on the store of the
 * role, and between two phases a restart, which has the pool to itself, moves the requests to a new
 * store of the other role.
 */
module PoolLifetime {
  import opened Finite
  import P = PendingProtocol
  import B = BatchProtocol

  type Id = string
  type Thread = nat

  /** A phase goes from the store as a restart fills it to the store as the next restart finds it. */
  datatype Phase =
    | Secondary(p0: P.State, p1: P.State)
    | Primary(b0: B.State, b1: B.State)

  /** Any interleaving, after which no call is in flight. */
  ghost predicate PhaseOk(p: B.Params, ph: Phase) {
    match ph
    case Secondary(p0, p1) => P.Quiescent(p1) && exists steps :: P.Leads(p0, steps, p1, p.capacity)
    case Primary(b0, b1) => B.Quiescent(b1) && exists steps :: B.Leads(p, b0, steps, b1)
  }

  // ---------- Restarts ----------

  /**
   * moveToPendingStore: what Pool.size exceeds the length of the list by is released, Pool.size starts again from zero,
   * and the requests listed are put in a new store without taking permits.
   */
  ghost function MoveToPending(s: B.State, slots: seq<B.Slot>, threads: set<Thread>, t: Thread, n: nat): P.State {
    var dropped := s.poolSize - |slots|;
    var permits := if dropped > 0 then s.permits - dropped else s.permits;
    P.ResubmitAll(P.Init(threads).(permits := permits), t, B.IdsOf(slots), n)
  }

  /**
   * moveToBatchStore: the requests listed are put in a new store without taking permits; unless one is refused,
   * Pool.size is set to their number.
   */
  ghost function MoveToBatches(p: B.Params, size: Id -> nat, s: P.State, slots: seq<P.Slot>,
                               threads: set<Thread>, t: Thread, n: nat): B.State
  {
    var start := B.Init(threads).(permits := s.permits, poolSize := s.poolSize);
    var (r, ok) := B.ResubmitAll(p, start, t, P.IdsOf(slots), size, n);
    if ok then r.(poolSize := |slots|) else r
  }

  /** The restart is run by thread t, and finds these requests. */
  ghost predicate Batched(p: B.Params, size: Id -> nat, s: P.State, slots: seq<P.Slot>, threads: set<Thread>, t: Thread,
                          s': B.State)
  {
    P.ListedBy(s, slots) && t in threads && s' == MoveToBatches(p, size, s, slots, threads, t, B.INSERT_STEPS)
  }

  ghost predicate Unbatched(s: B.State, slots: seq<B.Slot>, threads: set<Thread>, t: Thread, s': P.State) {
    B.ListedBy(s, slots) && t in threads && s' == MoveToPending(s, slots, threads, t, P.SUBMIT_STEPS)
  }

  /** The next phase starts with the other role's new store, as a restart fills it. */
  ghost predicate Restarts(p: B.Params, size: Id -> nat, ph: Phase, ph': Phase) {
    match ph
    case Secondary(p0, p1) =>
      ph'.Primary? && exists slots, threads, t :: Batched(p, size, p1, slots, threads, t, ph'.b0)
    case Primary(b0, b1) =>
      ph'.Secondary? && exists slots, threads, t :: Unbatched(b1, slots, threads, t, ph'.p0)
  }

  ghost predicate Lifetime(p: B.Params, size: Id -> nat, phases: seq<Phase>) {
    && phases != [] && phases[0].Secondary? && (exists threads :: phases[0].p0 == P.Init(threads))
    && (forall i | 0 <= i < |phases| :: PhaseOk(p, phases[i]))
    && (forall i | 0 <= i < |phases| - 1 :: Restarts(p, size, phases[i], phases[i + 1]))
  }

  // ---------- Accounts ----------

  ghost function HeldAtStart(ph: Phase): set<Id> {
    match ph case Secondary(p0, p1) => P.HeldIds(p0) case Primary(b0, b1) => b0.keys.Keys
  }

  ghost function HeldAtEnd(ph: Phase): set<Id> {
    match ph case Secondary(p0, p1) => P.HeldIds(p1) case Primary(b0, b1) => b1.keys.Keys
  }

  /** The requests that a restart gives up: those that were fetched and not removed. */
  ghost function GivenUp(ph: Phase): set<Id> {
    match ph case Secondary(p0, p1) => {} case Primary(b0, b1) => b1.h.outstanding
  }

  ghost function PermitsAtStart(ph: Phase): int {
    match ph case Secondary(p0, p1) => p0.permits case Primary(b0, b1) => b0.permits
  }

  ghost function SizeAtStart(ph: Phase): int {
    match ph case Secondary(p0, p1) => p0.poolSize case Primary(b0, b1) => b0.poolSize
  }

  ghost function PermitsAtEnd(ph: Phase): int {
    match ph case Secondary(p0, p1) => p1.permits case Primary(b0, b1) => b1.permits
  }

  ghost function SizeAtEnd(ph: Phase): int {
    match ph case Secondary(p0, p1) => p1.poolSize case Primary(b0, b1) => b1.poolSize
  }

  /** The phase starts in a state of the protocol in which no call is in flight. */
  ghost predicate StartsWell(p: B.Params, ph: Phase) {
    match ph
    case Secondary(p0, p1) => P.Reachable(p0, p.capacity) && P.Quiescent(p0)
    case Primary(b0, b1) => B.Reachable(p, b0) && B.Quiescent(b0)
  }

  ghost predicate EndsWell(p: B.Params, ph: Phase) {
    match ph
    case Secondary(p0, p1) => P.Reachable(p1, p.capacity) && P.Quiescent(p1)
    case Primary(b0, b1) => B.Reachable(p, b1) && B.Quiescent(b1)
  }

  lemma StartAccounts(p: B.Params, ph: Phase)
    requires p.Valid() && StartsWell(p, ph)
    ensures PermitsAtStart(ph) == SizeAtStart(ph) == |HeldAtStart(ph)| <= p.capacity
  {
    match ph
    case Secondary(p0, p1) => P.QuiescentAccounts(p0, p.capacity);
    case Primary(b0, b1) => B.QuiescentAccounts(p, b0);
  }

  lemma EndAccounts(p: B.Params, ph: Phase)
    requires p.Valid() && StartsWell(p, ph) && PhaseOk(p, ph)
    ensures EndsWell(p, ph) && PermitsAtEnd(ph) == SizeAtEnd(ph) == |HeldAtEnd(ph)| <= p.capacity
  {
    match ph
    case Secondary(p0, p1) =>
      var steps :| P.Leads(p0, steps, p1, p.capacity);
      P.ReachableLeads(p0, steps, p1, p.capacity);
      P.QuiescentAccounts(p1, p.capacity);
    case Primary(b0, b1) =>
      var steps :| B.Leads(p, b0, steps, b1);
      B.ReachableLeads(p, b0, steps, b1);
      B.QuiescentAccounts(p, b1);
  }

  /** Batches of one request are allowed, and no request is larger than a batch. */
  ghost predicate Sound(p: B.Params, size: Id -> nat) {
    p.Valid() && 1 <= p.maxThreads && 1 <= p.maxCount && forall id :: size(id) <= p.maxBytes && size(id) <= p.budget
  }

  lemma ToPending(p: B.Params, s: B.State, slots: seq<B.Slot>, threads: set<Thread>, t: Thread, n: nat)
    requires p.Valid() && B.Reachable(p, s) && B.Quiescent(s) && B.ListedBy(s, slots)
    requires t in threads && n == P.SUBMIT_STEPS
    ensures P.Refilled(MoveToPending(s, slots, threads, t, n), s.keys.Keys - s.h.outstanding, p.capacity)
  {
    B.ListedExactly(p, s, slots);
    P.Refill(threads, t, B.IdsOf(slots), n, p.capacity);
  }

  lemma ToBatches(p: B.Params, size: Id -> nat, s: P.State, slots: seq<P.Slot>, threads: set<Thread>, t: Thread, n: nat)
    requires Sound(p, size) && P.Reachable(s, p.capacity) && P.Quiescent(s) && P.ListedBy(s, slots)
    requires t in threads && n == B.INSERT_STEPS
    ensures B.Refilled(p, MoveToBatches(p, size, s, slots, threads, t, n), P.HeldIds(s))
  {
    P.ListedExactly(s, p.capacity, slots);
    P.QuiescentAccounts(s, p.capacity);
    B.Refill(p, threads, t, P.IdsOf(slots), size, n, s.poolSize);
  }

  /** What a restart makes of the end of a phase. */
  lemma RestartAccounts(p: B.Params, size: Id -> nat, ph: Phase, ph': Phase)
    requires Sound(p, size) && EndsWell(p, ph) && Restarts(p, size, ph, ph')
    ensures StartsWell(p, ph') && HeldAtStart(ph') == HeldAtEnd(ph) - GivenUp(ph) && GivenUp(ph) <= HeldAtEnd(ph)
  {
    match ph
    case Secondary(p0, p1) =>
      var slots, threads, t :| Batched(p, size, p1, slots, threads, t, ph'.b0);
      ToBatches(p, size, p1, slots, threads, t, B.INSERT_STEPS);
    case Primary(b0, b1) =>
      var slots, threads, t :| Unbatched(b1, slots, threads, t, ph'.p0);
      ToPending(p, b1, slots, threads, t, P.SUBMIT_STEPS);
      B.ReachableInv(p, b1);
  }

  /** Every phase starts in a state of its protocol. */
  lemma {:induction false} EveryPhaseStartsWell(p: B.Params, size: Id -> nat, phases: seq<Phase>, i: nat)
    requires Sound(p, size) && Lifetime(p, size, phases) && i < |phases|
    ensures StartsWell(p, phases[i])
  {
    if i == 0 {
      var threads :| phases[0].p0 == P.Init(threads);
      P.InitRefilled(threads, p.capacity);
    } else {
      EveryPhaseStartsWell(p, size, phases, i - 1);
      EndAccounts(p, phases[i - 1]);
      assert Restarts(p, size, phases[i - 1], phases[i - 1 + 1]);
      RestartAccounts(p, size, phases[i - 1], phases[i]);
    }
  }

  /**
   * Over every life of the pool, with any interleaving in each phase and any number of role changes, permits, size
   * and requests held agree when a phase starts and when it ends.  By what a role change lists, counts and releases,
   * it moves exactly the requests that were not fetched, and gives back exactly the permits of the others.
   */
  lemma LifetimeAccounts(p: B.Params, size: Id -> nat, phases: seq<Phase>, i: nat)
    requires Sound(p, size) && Lifetime(p, size, phases) && i < |phases|
    ensures PermitsAtStart(phases[i]) == SizeAtStart(phases[i]) == |HeldAtStart(phases[i])| <= p.capacity
    ensures PermitsAtEnd(phases[i]) == SizeAtEnd(phases[i]) == |HeldAtEnd(phases[i])| <= p.capacity
    ensures i + 1 < |phases| ==> HeldAtStart(phases[i + 1]) == HeldAtEnd(phases[i]) - GivenUp(phases[i])
    ensures i + 1 < |phases| ==> PermitsAtStart(phases[i + 1]) == PermitsAtEnd(phases[i]) - |GivenUp(phases[i])|
  {
    EveryPhaseStartsWell(p, size, phases, i);
    StartAccounts(p, phases[i]);
    EndAccounts(p, phases[i]);
    if i + 1 < |phases| {
      RestartAccounts(p, size, phases[i], phases[i + 1]);
      StartAccounts(p, phases[i + 1]);
      var held, lost := HeldAtEnd(phases[i]), GivenUp(phases[i]);
      assert |held - lost| == |held| - |lost|;
    }
  }

  /** A restart can always follow: the new store takes all that is moved to it. */
  lemma NextPhase(p: B.Params, size: Id -> nat, last: Phase, threads: set<Thread>, t: Thread) returns (next: Phase)
    requires Sound(p, size) && EndsWell(p, last) && t in threads
    ensures PhaseOk(p, next) && Restarts(p, size, last, next)
  {
    match last
    case Secondary(p0, p1) =>
      var slots := Enumerate(set slot | slot in p1.payload && slot.b !in p1.dropped);
      assert P.ListedBy(p1, slots) by { forall slot ensures slot in slots <==> slot in Elements(slots) {} }
      var s := MoveToBatches(p, size, p1, slots, threads, t, B.INSERT_STEPS);
      ToBatches(p, size, p1, slots, threads, t, B.INSERT_STEPS);
      assert Batched(p, size, p1, slots, threads, t, s) && B.Leads(p, s, [], s);
      next := Primary(s, s);
    case Primary(b0, b1) =>
      var slots := Enumerate(B.Listables(b1));
      assert B.ListedBy(b1, slots) by { forall slot ensures slot in slots <==> slot in Elements(slots) {} }
      var s := MoveToPending(b1, slots, threads, t, P.SUBMIT_STEPS);
      ToPending(p, b1, slots, threads, t, P.SUBMIT_STEPS);
      assert Unbatched(b1, slots, threads, t, s) && P.Leads(s, [], s, p.capacity);
      next := Secondary(s, s);
  }

  lemma CanRestart(p: B.Params, size: Id -> nat, phases: seq<Phase>, threads: set<Thread>, t: Thread)
    returns (next: Phase)
    requires Sound(p, size) && Lifetime(p, size, phases) && t in threads
    ensures Lifetime(p, size, phases + [next])
  {
    var n := |phases| - 1;
    EveryPhaseStartsWell(p, size, phases, n);
    EndAccounts(p, phases[n]);
    next := NextPhase(p, size, phases[n], threads, t);
    var all := phases + [next];
    forall i | 0 <= i < |all| ensures PhaseOk(p, all[i]) { assert i < |phases| ==> PhaseOk(p, phases[i]); }
    forall i | 0 <= i < |all| - 1 ensures Restarts(p, size, all[i], all[i + 1]) {
      assert i < n ==> Restarts(p, size, phases[i], phases[i + 1]);
    }
  }
}
