/**
 * The GCRA limiter: one word of state advanced by compare-and-swap, on wrapping int64 arithmetic.
 */
module RateLimit {

  const MAX64 := 0x7fff_ffff_ffff_ffff

  predicate Fits64(x: int) { -0x8000_0000_0000_0000 <= x <= 0x7fff_ffff_ffff_ffff }

  /** The int64 value of an integer result. */
  function Wrap64(x: int): (r: int)
    ensures Fits64(r)
    ensures Fits64(x) ==> r == x
  {
    (x + 0x8000_0000_0000_0000) % 0x1_0000_0000_0000_0000 - 0x8000_0000_0000_0000
  }

  /** Go's division, which truncates toward zero. */
  function TruncDiv(a: int, b: int): int
    requires b > 0
  {
    if a >= 0 then a / b else -((-a) / b)
  }

  function Max(a: int, b: int): int { if a >= b then a else b }

  function Min(a: int, b: int): int { if a <= b then a else b }

  // ---------- newWithClock ----------

  /** The burst offset; the division test guards the multiplication. */
  function BurstOffset(interval: int, burst: int): int {
    var b := if burst < 1 then 1 else burst;
    var offset := Wrap64(interval * b);
    if TruncDiv(offset, b) != interval then MAX64 else offset
  }

  /** Wrapping never makes a non-negative product larger. */
  lemma WrapShrinks(p: nat)
    ensures Wrap64(p) <= p && (Wrap64(p) == p <==> p <= MAX64)
  {
  }

  /** The division test detects overflow exactly: the offset is the product if and only if that fits. */
  lemma OverflowTestExact(interval: int, burst: int)
    requires 1 <= interval && 1 <= burst
    ensures TruncDiv(Wrap64(interval * burst), burst) == interval <==> interval * burst <= MAX64
    ensures BurstOffset(interval, burst) == if interval * burst <= MAX64 then interval * burst else MAX64
  {
    var p := interval * burst;
    assert p >= 1 by { MulPositive(interval, burst); }
    WrapShrinks(p);
    var w := Wrap64(p);
    if p <= MAX64 {
      DivOfProduct(interval, burst);
    } else if w >= 0 {
      if w / burst == interval {
        DivBound(w, burst);
        assert false;
      }
    } else {
      assert TruncDiv(w, burst) <= 0;
    }
  }

  /** A burst below one counts as one: the offset is then one interval, with no room for bunching. */
  lemma LowBurstIsOne(interval: int, burst: int)
    requires 1 <= interval <= MAX64 && burst < 1
    ensures BurstOffset(interval, burst) == interval
  {
    OverflowTestExact(interval, 1);
  }

  lemma MulPositive(a: int, b: int)
    requires a >= 1 && b >= 1
    ensures a * b >= 1
  {
  }

  lemma DivOfProduct(a: int, b: int)
    requires a >= 0 && b >= 1
    ensures a * b >= 0 && a * b / b == a
  {
    assert a * b >= 0;
    var q, r := a * b / b, a * b % b;
    assert a * b == q * b + r;
    assert (a - q) * b == r;
    SmallMultiple(a - q, b);
  }

  lemma SmallMultiple(d: int, b: int)
    requires b >= 1
    ensures 0 <= d * b < b <==> d == 0
  {
    assert d >= 1 ==> (d - 1) * b >= 0;
    assert d <= -1 ==> (-d - 1) * b >= 0;
  }

  lemma DivBound(w: int, b: int)
    requires w >= 0 && b >= 1
    ensures (w / b) * b <= w
  {
  }

  // ---------- Allow under concurrent callers ----------

  type Thread = nat

  /** A caller that has sampled the clock, and one that has also loaded the word. */
  datatype Pc = Idle | Sampled(now: int) | Loaded(now: int, seen: int)

  datatype Config = Config(interval: int, offset: int)

  /** `admitted` lists the samples of the admissions in the order of their swaps, `tats` the words they stored. */
  datatype State = State(tat: int, threads: map<Thread, Pc>, admitted: seq<int>, tats: seq<int>)

  datatype Step = Call(t: Thread, now: int) | Load(t: Thread) | Swap(t: Thread)

  function NewTat(c: Config, tat: int, now: int): int { Wrap64(Max(tat, now) + c.interval) }

  predicate OverBudget(c: Config, tat: int, now: int) { now < Wrap64(NewTat(c, tat, now) - c.offset) }

  /** Clock samples are any values up to `latest`: they may be stale and out of order. */
  predicate Enabled(s: State, step: Step, latest: int) {
    && step.t in s.threads
    && match step
       case Call(t, now) => s.threads[t].Idle? && 0 <= now <= latest
       case Load(t) => s.threads[t].Sampled?
       case Swap(t) => s.threads[t].Loaded?
  }

  function Apply(c: Config, s: State, step: Step): State
    requires step.t in s.threads && (step.Load? ==> s.threads[step.t].Sampled?)
    requires step.Swap? ==> s.threads[step.t].Loaded?
  {
    match step
    case Call(t, now) => s.(threads := s.threads[t := Sampled(now)])
    case Load(t) => s.(threads := s.threads[t := Loaded(s.threads[t].now, s.tat)])
    case Swap(t) =>
      var Loaded(now, seen) := s.threads[t];
      if OverBudget(c, seen, now) then s.(threads := s.threads[t := Idle])
      else if s.tat != seen then s.(threads := s.threads[t := Sampled(now)])
      else
        var tat := NewTat(c, seen, now);
        State(tat, s.threads[t := Idle], s.admitted + [now], s.tats + [tat])
  }

  ghost predicate IsRun(c: Config, latest: int, run: seq<State>, steps: seq<Step>) {
    && |run| == |steps| + 1
    && run[0].tat == 0 && run[0].admitted == [] && run[0].tats == []
    && (forall t | t in run[0].threads :: run[0].threads[t] == Idle)
    && forall i {:trigger steps[i]} | 0 <= i < |steps| ::
         Enabled(run[i], steps[i], latest) && run[i + 1] == Apply(c, run[i], steps[i])
  }

  /** The parameters for which the arithmetic of Allow stays inside int64. */
  ghost predicate Sane(c: Config, latest: int) {
    1 <= c.interval <= c.offset && 0 <= latest && latest + c.offset + c.interval <= MAX64
  }

  ghost predicate Inv(c: Config, latest: int, s: State) {
    && 0 <= s.tat <= latest + c.offset
    && (forall t | t in s.threads && !s.threads[t].Idle? :: 0 <= s.threads[t].now <= latest)
    && (forall t | t in s.threads && s.threads[t].Loaded? :: 0 <= s.threads[t].seen <= latest + c.offset)
    && |s.tats| == |s.admitted|
    && s.tat == (if s.tats == [] then 0 else s.tats[|s.tats| - 1])
    && (forall k | 0 <= k < |s.tats| :: s.admitted[k] + c.interval <= s.tats[k] <= s.admitted[k] + c.offset)
    && (forall k | 0 < k < |s.tats| :: s.tats[k - 1] + c.interval <= s.tats[k])
  }

  /** Within the bound on the clock, the additions and subtractions of Allow do not wrap. */
  lemma NoOverflow(c: Config, latest: int, tat: int, now: int)
    requires Sane(c, latest) && 0 <= tat <= latest + c.offset && 0 <= now <= latest
    ensures NewTat(c, tat, now) == Max(tat, now) + c.interval
    ensures OverBudget(c, tat, now) <==> now < Max(tat, now) + c.interval - c.offset
  {
  }

  lemma StepInv(c: Config, latest: int, s: State, step: Step)
    requires Sane(c, latest) && Inv(c, latest, s) && Enabled(s, step, latest)
    ensures Inv(c, latest, Apply(c, s, step))
  {
    if step.Swap? { NoOverflow(c, latest, s.threads[step.t].seen, s.threads[step.t].now); }
  }

  lemma {:induction false} RunInv(c: Config, latest: int, run: seq<State>, steps: seq<Step>, i: nat)
    requires Sane(c, latest) && IsRun(c, latest, run, steps) && i < |run|
    ensures Inv(c, latest, run[i])
  {
    if i > 0 {
      RunInv(c, latest, run, steps, i - 1);
      StepInv(c, latest, run[i - 1], steps[i - 1]);
    }
  }

  lemma {:induction false} TatsAdvance(c: Config, latest: int, s: State, i: nat, j: nat)
    requires Inv(c, latest, s) && i <= j < |s.tats|
    ensures s.tats[i] + (j - i) * c.interval <= s.tats[j]
  {
    if i < j {
      TatsAdvance(c, latest, s, i, j - 1);
      assert (j - i) * c.interval == (j - 1 - i) * c.interval + c.interval;
    }
  }

  /**
   * The rate bound: in any run of any number of callers, with stale clock samples and lost swaps, k
   * consecutive admissions take at least k intervals, less the burst.
   */
  lemma RateBound(c: Config, latest: int, run: seq<State>, steps: seq<Step>, n: nat, i: nat, j: nat)
    requires Sane(c, latest) && IsRun(c, latest, run, steps) && n < |run| && i <= j < |run[n].admitted|
    ensures (j - i + 1) * c.interval <= run[n].admitted[j] - run[n].admitted[i] + c.offset
  {
    var s := run[n];
    RunInv(c, latest, run, steps, n);
    TatsAdvance(c, latest, s, i, j);
    assert (j - i + 1) * c.interval == (j - i) * c.interval + c.interval;
  }

  /** The bound in terms of the configured rate and burst. */
  lemma RateBoundOfBurst(interval: int, burst: int, latest: int, run: seq<State>, steps: seq<Step>, n: nat, i: nat,
                         j: nat)
    requires 1 <= interval && 1 <= burst && interval * burst <= MAX64
    requires var c := Config(interval, BurstOffset(interval, burst)); Sane(c, latest) && IsRun(c, latest, run, steps)
    requires n < |run| && i <= j < |run[n].admitted|
    ensures (j - i + 1) * interval <= run[n].admitted[j] - run[n].admitted[i] + burst * interval
  {
    OverflowTestExact(interval, burst);
    RateBound(Config(interval, BurstOffset(interval, burst)), latest, run, steps, n, i, j);
  }

  /** A rejection changes neither the word nor the admissions, and it is justified by the word it loaded. */
  lemma RejectionIsPure(c: Config, latest: int, run: seq<State>, steps: seq<Step>, n: nat)
    requires Sane(c, latest) && IsRun(c, latest, run, steps) && n < |steps| && steps[n].Swap?
    requires run[n + 1].threads[steps[n].t].Idle? && run[n + 1].admitted == run[n].admitted
    ensures run[n + 1].tat == run[n].tat
    ensures var Loaded(now, seen) := run[n].threads[steps[n].t]; seen > now && c.offset < seen - now + c.interval
  {
    RunInv(c, latest, run, steps, n);
    var Loaded(now, seen) := run[n].threads[steps[n].t];
    NoOverflow(c, latest, seen, now);
    var s, s' := run[n], run[n + 1];
    assert !OverBudget(c, seen, now) && s.tat == seen ==> |s'.admitted| == |s.admitted| + 1;
  }

  // Which calls are admitted

  ghost predicate Admits(c: Config, tat: int, now: int) { Max(tat, now) + c.interval - c.offset <= now }

  /** The call ends: admitted at the end of the list, with the word moved on, or rejected, with nothing changed. */
  ghost predicate Ends(c: Config, s: State, s': State, t: Thread, now: int, admitted: bool) {
    && s'.threads == s.threads[t := Idle]
    && if admitted then s'.admitted == s.admitted + [now] && s'.tat == Max(s.tat, now) + c.interval
       else s'.admitted == s.admitted && s'.tat == s.tat
  }

  /**
   * A swap on the word that was loaded ends the call, which is admitted if and only if it is within the budget.  On
   * another word the call is rejected if what it loaded was over the budget, and starts again with its sample
   * otherwise.
   */
  lemma SwapDecides(c: Config, latest: int, s: State, t: Thread)
    requires Sane(c, latest) && Inv(c, latest, s) && Enabled(s, Swap(t), latest)
    ensures var s', Loaded(now, seen) := Apply(c, s, Swap(t)), s.threads[t];
            && (s.tat == seen ==> Ends(c, s, s', t, now, Admits(c, s.tat, now)))
            && (s.tat != seen && !Admits(c, seen, now) ==> Ends(c, s, s', t, now, false))
            && (s.tat != seen && Admits(c, seen, now) ==> s' == s.(threads := s.threads[t := Sampled(now)]))
  {
    NoOverflow(c, latest, s.threads[t].seen, s.threads[t].now);
  }

  /** Between a load and a swap of one call, other callers do not change what it has loaded. */
  lemma {:induction false} KeepsLoaded(c: Config, latest: int, run: seq<State>, steps: seq<Step>, i: nat, j: nat,
                                       t: Thread)
    requires IsRun(c, latest, run, steps) && i < j < |run| && steps[i] == Load(t)
    requires forall k | i < k < j :: steps[k].t != t
    ensures t in run[i].threads && t in run[j].threads && run[i].threads[t].Sampled?
    ensures run[j].threads[t] == Loaded(run[i].threads[t].now, run[i].tat)
    decreases j
  {
    assert Enabled(run[i], steps[i], latest) && run[i + 1] == Apply(c, run[i], steps[i]);
    if j > i + 1 {
      var k := j - 1;
      KeepsLoaded(c, latest, run, steps, i, k, t);
      assert Enabled(run[k], steps[k], latest) && run[k + 1] == Apply(c, run[k], steps[k]);
    }
  }

  /** A word never comes back: it is the same only if nothing was admitted in between. */
  lemma {:induction false} WordsAscend(c: Config, latest: int, run: seq<State>, steps: seq<Step>, i: nat, j: nat)
    requires Sane(c, latest) && IsRun(c, latest, run, steps) && i <= j < |run|
    ensures run[i].admitted <= run[j].admitted && run[i].tat <= run[j].tat
    ensures run[i].tat == run[j].tat <==> run[i].admitted == run[j].admitted
    decreases j
  {
    if i < j {
      var k := j - 1;
      WordsAscend(c, latest, run, steps, i, k);
      RunInv(c, latest, run, steps, k);
      assert Enabled(run[k], steps[k], latest) && run[k + 1] == Apply(c, run[k], steps[k]);
      if steps[k].Swap? { NoOverflow(c, latest, run[k].threads[steps[k].t].seen, run[k].threads[steps[k].t].now); }
    }
  }

  /**
   * Over every run: a call that loads the word and swaps it, with no admission in between, ends, and is admitted if and
   * only if it is within the budget; one that has to start again has lost to an admission.
   */
  lemma UndisturbedDecides(c: Config, latest: int, run: seq<State>, steps: seq<Step>, i: nat, j: nat, t: Thread)
    requires Sane(c, latest) && IsRun(c, latest, run, steps) && i < j < |steps| && steps[i] == Load(t)
    requires steps[j] == Swap(t)
    requires forall k | i < k < j :: steps[k].t != t
    ensures t in run[i].threads && run[i].threads[t].Sampled? && t in run[j + 1].threads
    ensures var now := run[i].threads[t].now;
            run[j].admitted == run[i].admitted ==> Ends(c, run[j], run[j + 1], t, now, Admits(c, run[i].tat, now))
    ensures !run[j + 1].threads[t].Idle? ==> |run[j].admitted| > |run[i].admitted|
  {
    KeepsLoaded(c, latest, run, steps, i, j, t);
    WordsAscend(c, latest, run, steps, i, j);
    RunInv(c, latest, run, steps, j);
    assert Enabled(run[j], steps[j], latest) && run[j + 1] == Apply(c, run[j], steps[j]);
    SwapDecides(c, latest, run[j], t);
  }

  // ---------- A limiter used by one caller at a time ----------

  class Limiter {
    var tat: int
    const c: Config

    constructor (interval: int, burst: int)
      requires interval >= 1
      ensures tat == 0 && c == Config(interval, BurstOffset(interval, burst))
    {
      var b := burst;
      if b < 1 {
        b := 1;
      }
      var offset := Wrap64(interval * b);
      if TruncDiv(offset, b) != interval {
        offset := MAX64;
      }
      tat, c := 0, Config(interval, offset);
    }

    /** New with the interval already computed: an interval that rounds to zero means unlimited. */
    static method New(interval: int, burst: int) returns (l: Limiter?)
      ensures l == null <==> interval <= 0
      ensures l != null ==> fresh(l) && l.tat == 0 && l.c == Config(interval, BurstOffset(interval, burst))
    {
      if interval <= 0 {
        return null;
      }
      l := new Limiter(interval, burst);
    }

    method Allow(now: int) returns (ok: bool)
      modifies this
      ensures (ok, tat) == Decision(c, old(tat), now)
    {
      var newTat := Wrap64(Max(tat, now) + c.interval);
      if now < Wrap64(newTat - c.offset) {
        return false;
      }
      tat := newTat;
      return true;
    }
  }

  // ---------- Equivalence with a token bucket ----------

  /** Allow by a lone caller: the decision, and the next word. */
  function Decision(c: Config, tat: int, now: int): (bool, int) {
    if OverBudget(c, tat, now) then (false, tat) else (true, NewTat(c, tat, now))
  }

  /** The decisions on a sequence of clock samples. */
  function Decide(c: Config, tat: int, nows: seq<int>): seq<bool>
    decreases |nows|
  {
    if nows == [] then []
    else
      var (ok, tat') := Decision(c, tat, nows[0]);
      [ok] + Decide(c, tat', nows[1..])
  }

  /** A bucket of `offset` units, refilled one per nanosecond, that pays `interval` per request. */
  function DecideByBucket(c: Config, tokens: int, last: int, nows: seq<int>): seq<bool>
    decreases |nows|
  {
    if nows == [] then []
    else
      var refilled := Min(c.offset, tokens + nows[0] - last);
      if refilled >= c.interval then [true] + DecideByBucket(c, refilled - c.interval, nows[0], nows[1..])
      else [false] + DecideByBucket(c, refilled, nows[0], nows[1..])
  }

  ghost predicate Ascending(last: int, nows: seq<int>, latest: int) {
    && (nows != [] ==> last <= nows[0])
    && (forall i | 0 <= i < |nows| :: nows[i] <= latest)
    && (forall i | 0 < i < |nows| :: nows[i - 1] <= nows[i])
  }

  lemma {:induction false} SameDecisionsFrom(c: Config, latest: int, tat: int, last: int, nows: seq<int>)
    requires Sane(c, latest) && 0 <= last <= latest && Ascending(last, nows, latest) && 0 <= tat <= last + c.offset
    ensures Decide(c, tat, nows) == DecideByBucket(c, c.offset - Max(tat - last, 0), last, nows)
    decreases |nows|
  {
    if nows != [] {
      var now := nows[0];
      NoOverflow(c, latest, tat, now);
      var (ok, tat') := Decision(c, tat, now);
      var refilled := Min(c.offset, c.offset - Max(tat - last, 0) + now - last);
      assert refilled == c.offset - Max(tat - now, 0);
      SameDecisionsFrom(c, latest, tat', now, nows[1..]);
    }
  }

  /** From a fresh limiter, a clock that does not go back sees exactly the decisions of a full bucket. */
  lemma SameDecisions(c: Config, latest: int, nows: seq<int>)
    requires Sane(c, latest) && Ascending(0, nows, latest)
    ensures Decide(c, 0, nows) == DecideByBucket(c, c.offset, 0, nows)
  {
    SameDecisionsFrom(c, latest, 0, 0, nows);
  }

  // One call after the other

  /** Call, load and swap, undisturbed. */
  function Alone(c: Config, s: State, t: Thread, now: int): State
    requires t in s.threads
  {
    Apply(c, Apply(c, Apply(c, s, Call(t, now)), Load(t)), Swap(t))
  }

  /** Whether each call was admitted. */
  function Serially(c: Config, s: State, t: Thread, nows: seq<int>): seq<bool>
    requires t in s.threads
    decreases |nows|
  {
    if nows == [] then []
    else
      var s' := Alone(c, s, t, nows[0]);
      [|s'.admitted| > |s.admitted|] + Serially(c, s', t, nows[1..])
  }

  lemma AloneDecides(c: Config, latest: int, s: State, t: Thread, now: int)
    requires Sane(c, latest) && Inv(c, latest, s) && t in s.threads && s.threads[t].Idle? && 0 <= now <= latest
    ensures var s' := Alone(c, s, t, now);
            && Inv(c, latest, s') && Ends(c, s, s', t, now, Admits(c, s.tat, now))
            && (|s'.admitted| > |s.admitted|, s'.tat) == Decision(c, s.tat, now)
  {
    var s1 := Apply(c, s, Call(t, now));
    var s2 := Apply(c, s1, Load(t));
    StepInv(c, latest, s, Call(t, now));
    StepInv(c, latest, s1, Load(t));
    StepInv(c, latest, s2, Swap(t));
    SwapDecides(c, latest, s2, t);
    NoOverflow(c, latest, s.tat, now);
    assert s2.threads[t := Idle] == s.threads[t := Idle];
  }

  lemma {:induction false} SeriallyDecides(c: Config, latest: int, s: State, t: Thread, nows: seq<int>)
    requires Sane(c, latest) && Inv(c, latest, s) && t in s.threads && s.threads[t].Idle?
    requires forall i | 0 <= i < |nows| :: 0 <= nows[i] <= latest
    ensures Serially(c, s, t, nows) == Decide(c, s.tat, nows)
    decreases |nows|
  {
    if nows != [] {
      AloneDecides(c, latest, s, t, nows[0]);
      SeriallyDecides(c, latest, Alone(c, s, t, nows[0]), t, nows[1..]);
    }
  }

  /** Calls one after the other, on a clock that does not go back, are decided by a full token bucket. */
  lemma SerialRunIsTokenBucket(c: Config, latest: int, s: State, t: Thread, nows: seq<int>)
    requires Sane(c, latest) && Ascending(0, nows, latest) && t in s.threads
    requires s.tat == 0 && s.admitted == s.tats == [] && forall u | u in s.threads :: s.threads[u] == Idle
    ensures Serially(c, s, t, nows) == DecideByBucket(c, c.offset, 0, nows)
  {
    AscendingFrom(0, nows, latest);
    SeriallyDecides(c, latest, s, t, nows);
    SameDecisions(c, latest, nows);
  }

  lemma {:induction false} AscendingFrom(last: int, nows: seq<int>, latest: int)
    requires Ascending(last, nows, latest)
    ensures forall i | 0 <= i < |nows| :: last <= nows[i]
    decreases |nows|
  {
    if nows != [] { AscendingFrom(nows[0], nows[1..], latest); }
  }
}
