/**
 * Flow control of the primary: which sequences the secondaries have acknowledged, and how far the
 * primary may run ahead of them.
 */
module Acker {
  import opened Finite

  type Party = nat
  type Ack = (nat, Party)

  const WORD: nat := 0x1_0000_0000_0000_0000

  /** Subtraction on uint64. */
  function Sub64(x: nat, y: nat): nat { (x - y) % 0x1_0000_0000_0000_0000 }

  /** confirmedSeq, and per sequence the parties whose ack was counted. */
  datatype AckState = AckState(confirmed: nat, tracked: map<nat, set<Party>>) {
    function Counted(num: nat): set<Party> { if num in tracked then tracked[num] else {} }
  }

  datatype Limits = Limits(gap: nat, threshold: nat)

  function Count(a: AckState, num: nat, from: Party): AckState {
    a.(tracked := a.tracked[num := a.Counted(num) + {from}])
  }

  function Advance(threshold: nat, a: AckState): AckState {
    if |a.Counted(a.confirmed)| >= threshold then AckState(a.confirmed + 1, a.tracked - {a.confirmed}) else a
  }

  predicate Ignored(gap: nat, a: AckState, num: nat, from: Party) {
    num < a.confirmed || num - a.confirmed > gap || from in a.Counted(num)
  }

  /** What an ack does to the state. */
  function Handle(l: Limits, a: AckState, num: nat, from: Party): AckState {
    if Ignored(l.gap, a, num, from) then a else Advance(l.threshold, Count(a, num, from))
  }

  class Acker {
    const gap: nat
    const threshold: nat
    var confirmedSeq: nat
    var confirmedSequences: map<nat, set<Party>>
    var stopped: bool

    constructor (confirmedSeq: nat, gap: nat, threshold: nat)
      ensures this.gap == gap && this.threshold == threshold && !stopped
      ensures View() == AckState(confirmedSeq, map[])
    {
      this.gap, this.threshold := gap, threshold;
      this.confirmedSeq, confirmedSequences, stopped := confirmedSeq, map[], false;
    }

    function View(): AckState
      reads this
    {
      AckState(confirmedSeq, confirmedSequences)
    }

    method HandleAck(num: nat, from: Party)
      modifies `confirmedSeq, `confirmedSequences
      ensures View() == Handle(Limits(gap, threshold), old(View()), num, from)
    {
      if num < confirmedSeq {
        return;
      }
      if num - confirmedSeq > gap {
        return;
      }
      var acks := if num in confirmedSequences then confirmedSequences[num] else {};
      if from in acks {
        return;
      }
      confirmedSequences := confirmedSequences[num := acks + {from}];
      var count := if confirmedSeq in confirmedSequences then |confirmedSequences[confirmedSeq]| else 0;
      if count >= threshold {
        confirmedSequences := confirmedSequences - {confirmedSeq};
        confirmedSeq := confirmedSeq + 1;
      }
    }

    /** The unsigned test of wait: right whenever the primary is not behind the confirmed sequence. */
    method SecondariesKeepUp(num: nat) returns (ok: bool)
      requires num < WORD && confirmedSeq < WORD
      ensures confirmedSeq <= num ==> (ok <==> num < confirmedSeq + gap)
      ensures num < confirmedSeq ==> (ok <==> WORD < confirmedSeq - num + gap)
    {
      ok := Sub64(num, confirmedSeq) < gap;
    }
  }

  // ---------- What a confirmed sequence means ----------

  /** The acks received: per sequence the parties that acknowledged it. */
  type Log = map<nat, set<Party>>

  ghost function Ackers(log: Log, num: nat): set<Party> { if num in log then log[num] else {} }

  ghost function Record(log: Log, num: nat, from: Party): Log { log[num := Ackers(log, num) + {from}] }

  ghost predicate AckInv(l: Limits, start: nat, a: AckState, log: Log) {
    && start <= a.confirmed
    && (forall s | s in a.tracked :: a.confirmed <= s <= a.confirmed + l.gap && a.tracked[s] <= Ackers(log, s))
    && (forall s | start <= s < a.confirmed :: |Ackers(log, s)| >= l.threshold)
  }

  lemma RecordInv(l: Limits, start: nat, a: AckState, log: Log, num: nat, from: Party)
    requires AckInv(l, start, a, log)
    ensures AckInv(l, start, a, Record(log, num, from))
  {
    var log' := Record(log, num, from);
    forall s ensures |Ackers(log, s)| <= |Ackers(log', s)| { SubsetSize(Ackers(log, s), Ackers(log', s)); }
  }

  lemma AdvanceInv(l: Limits, start: nat, a: AckState, log: Log)
    requires AckInv(l, start, a, log)
    ensures AckInv(l, start, Advance(l.threshold, a), log)
  {
    SubsetSize(a.Counted(a.confirmed), Ackers(log, a.confirmed));
  }

  /** Every ack keeps this: confirmedSeq passes s only when threshold distinct parties acknowledged s. */
  lemma HandleInv(l: Limits, start: nat, a: AckState, log: Log, num: nat, from: Party)
    requires AckInv(l, start, a, log)
    ensures AckInv(l, start, Handle(l, a, num, from), Record(log, num, from))
  {
    RecordInv(l, start, a, log, num, from);
    if !Ignored(l.gap, a, num, from) {
      AdvanceInv(l, start, Count(a, num, from), Record(log, num, from));
    }
  }

  // ---------- Acks in order are confirmed exactly ----------

  /** The tracked acks are all acks from confirmed on. */
  ghost predicate Complete(a: AckState, log: Log) {
    forall s | s >= a.confirmed :: a.Counted(s) == Ackers(log, s)
  }

  lemma HandleComplete(l: Limits, a: AckState, log: Log, num: nat, from: Party)
    requires Complete(a, log) && num <= a.confirmed + l.gap
    ensures Complete(Handle(l, a, num, from), Record(log, num, from))
  {
    if Ignored(l.gap, a, num, from) {
      assert num >= a.confirmed ==> Ackers(log, num) + {from} == Ackers(log, num);
    } else {
      var a', log' := Count(a, num, from), Record(log, num, from);
      forall s | s >= a.confirmed ensures a'.Counted(s) == Ackers(log', s) { assert a.Counted(s) == Ackers(log, s); }
    }
  }

  /**
   * One ack confirms one sequence at most.  So after it the confirmed sequence is the first one that
   * lacks acks, exactly unless this ack completes a sequence whose successor is complete already.
   */
  lemma HandleExactly(l: Limits, a: AckState, log: Log, num: nat, from: Party)
    requires Complete(a, log) && num <= a.confirmed + l.gap && |Ackers(log, a.confirmed)| < l.threshold
    ensures |Ackers(Record(log, num, from), Handle(l, a, num, from).confirmed)| < l.threshold <==>
            !(num == a.confirmed && from !in Ackers(log, num) && |Ackers(log, num)| + 1 >= l.threshold
              && |Ackers(log, num + 1)| >= l.threshold)
  {
    assert a.Counted(a.confirmed) == Ackers(log, a.confirmed);
    if num == a.confirmed {
      assert from in Ackers(log, num) ==> Ackers(log, num) + {from} == Ackers(log, num);
      assert from !in Ackers(log, num) ==> |Ackers(log, num) + {from}| == |Ackers(log, num)| + 1;
    }
  }

  /**
   * Once confirmedSeq lags, each ack that counts moves it by one, so that it catches up exactly with an ack that
   * counts and finds the next sequence incomplete.
   */
  lemma HandleLagging(l: Limits, a: AckState, log: Log, num: nat, from: Party)
    requires Complete(a, log) && num <= a.confirmed + l.gap && |Ackers(log, a.confirmed)| >= l.threshold
    ensures var counts := num >= a.confirmed && from !in Ackers(log, num);
            var a', log' := Handle(l, a, num, from), Record(log, num, from);
            && a'.confirmed == a.confirmed + (if counts then 1 else 0)
            && (|Ackers(log', a'.confirmed)| < l.threshold <==> counts && |Ackers(log', a.confirmed + 1)| < l.threshold)
  {
    var a', log' := Count(a, num, from), Record(log, num, from);
    assert a.Counted(a.confirmed) == Ackers(log, a.confirmed);
    assert num >= a.confirmed ==> a.Counted(num) == Ackers(log, num);
    SubsetSize(Ackers(log, a.confirmed), Ackers(log', a.confirmed));
    SubsetSize(a.Counted(a.confirmed), a'.Counted(a.confirmed));
  }

  /** Each party acknowledges start, start + 1, ... in this order. */
  ghost predicate Consecutive(start: nat, log: Log) {
    forall s | s > start :: Ackers(log, s) <= Ackers(log, s - 1)
  }

  ghost predicate ExactInv(l: Limits, start: nat, a: AckState, log: Log) {
    && AckInv(l, start, a, log) && Complete(a, log) && Consecutive(start, log)
    && |Ackers(log, a.confirmed)| < l.threshold
  }

  lemma RecordConsecutive(start: nat, log: Log, num: nat, from: Party)
    requires Consecutive(start, log) && num >= start && (num == start || from in Ackers(log, num - 1))
    ensures Consecutive(start, Record(log, num, from))
  {
    var log' := Record(log, num, from);
    forall s | s > start ensures Ackers(log', s) <= Ackers(log', s - 1) {
      assert Ackers(log, s) <= Ackers(log, s - 1);
    }
  }

  lemma ExactStep(l: Limits, start: nat, a: AckState, log: Log, num: nat, from: Party)
    requires ExactInv(l, start, a, log) && start <= num <= a.confirmed + l.gap
    requires num == start || from in Ackers(log, num - 1)
    ensures ExactInv(l, start, Handle(l, a, num, from), Record(log, num, from))
  {
    assert Ackers(log, a.confirmed + 1) <= Ackers(log, a.confirmed);
    SubsetSize(Ackers(log, a.confirmed + 1), Ackers(log, a.confirmed));
    HandleInv(l, start, a, log, num, from);
    HandleComplete(l, a, log, num, from);
    HandleExactly(l, a, log, num, from);
    RecordConsecutive(start, log, num, from);
  }

  /** A run: the acks in the order of their arrival, and the states between them. */
  datatype Run = Run(acks: seq<Ack>, states: seq<AckState>)

  ghost predicate HandledAt(l: Limits, r: Run, i: nat)
    requires i < |r.acks| && |r.states| == |r.acks| + 1
  {
    r.states[i + 1] == Handle(l, r.states[i], r.acks[i].0, r.acks[i].1)
  }

  ghost predicate IsRun(l: Limits, start: nat, r: Run) {
    && |r.states| == |r.acks| + 1 && r.states[0] == AckState(start, map[])
    && forall i {:trigger HandledAt(l, r, i)} | 0 <= i < |r.acks| :: HandledAt(l, r, i)
  }

  ghost function LogOf(acks: seq<Ack>): Log {
    if acks == [] then map[] else Record(LogOf(acks[..|acks| - 1]), acks[|acks| - 1].0, acks[|acks| - 1].1)
  }

  /** The log of a run holds exactly its acks. */
  lemma {:induction false} LogHolds(acks: seq<Ack>, num: nat, from: Party)
    ensures from in Ackers(LogOf(acks), num) <==> (num, from) in acks
  {
    if acks != [] {
      LogHolds(acks[..|acks| - 1], num, from);
      assert acks == acks[..|acks| - 1] + [acks[|acks| - 1]];
    }
  }

  ghost predicate FollowsAt(l: Limits, start: nat, r: Run, i: nat)
    requires i < |r.acks| && |r.states| == |r.acks| + 1
  {
    && start <= r.acks[i].0 <= r.states[i].confirmed + l.gap
    && (r.acks[i].0 == start || (r.acks[i].0 - 1, r.acks[i].1) in r.acks[..i])
  }

  /** Each ack follows its party's ack of the sequence before, and none is so early that it is discarded. */
  ghost predicate InOrder(l: Limits, start: nat, r: Run)
    requires |r.states| == |r.acks| + 1
  {
    forall i {:trigger FollowsAt(l, start, r, i)} | 0 <= i < |r.acks| :: FollowsAt(l, start, r, i)
  }

  lemma RunAck(l: Limits, start: nat, r: Run, i: nat)
    requires IsRun(l, start, r) && InOrder(l, start, r) && i < |r.acks|
    ensures var num, from, log := r.acks[i].0, r.acks[i].1, LogOf(r.acks[..i]);
            && r.states[i + 1] == Handle(l, r.states[i], num, from) && LogOf(r.acks[..i + 1]) == Record(log, num, from)
            && start <= num <= r.states[i].confirmed + l.gap && (num == start || from in Ackers(log, num - 1))
  {
    assert HandledAt(l, r, i) && FollowsAt(l, start, r, i);
    assert r.acks[..i + 1][..i] == r.acks[..i];
    if r.acks[i].0 > start {
      LogHolds(r.acks[..i], r.acks[i].0 - 1, r.acks[i].1);
    }
  }

  lemma RunStep(l: Limits, start: nat, r: Run, i: nat)
    requires IsRun(l, start, r) && InOrder(l, start, r) && i < |r.acks|
    requires ExactInv(l, start, r.states[i], LogOf(r.acks[..i]))
    ensures ExactInv(l, start, r.states[i + 1], LogOf(r.acks[..i + 1]))
  {
    RunAck(l, start, r, i);
    ExactStep(l, start, r.states[i], LogOf(r.acks[..i]), r.acks[i].0, r.acks[i].1);
  }

  lemma {:induction false} RunExact(l: Limits, start: nat, r: Run, i: nat)
    requires l.threshold >= 1 && IsRun(l, start, r) && InOrder(l, start, r) && i <= |r.acks|
    ensures ExactInv(l, start, r.states[i], LogOf(r.acks[..i]))
  {
    if i > 0 {
      RunExact(l, start, r, i - 1);
      RunStep(l, start, r, i - 1);
    }
  }

  /** After acks in order, confirmedSeq is the first sequence that fewer than threshold parties acknowledged. */
  lemma ConfirmedExactly(l: Limits, start: nat, r: Run, i: nat)
    requires l.threshold >= 1 && IsRun(l, start, r) && InOrder(l, start, r) && i <= |r.acks|
    ensures var c, log := r.states[i].confirmed, LogOf(r.acks[..i]);
            c >= start && forall s | start <= s <= c :: |Ackers(log, s)| < l.threshold <==> s == c
  {
    RunExact(l, start, r, i);
  }

  // ---------- Acks in any order ----------

  /** No ack is so early that it is discarded. */
  ghost predicate WithinGap(l: Limits, r: Run)
    requires |r.states| == |r.acks| + 1
  {
    forall i | 0 <= i < |r.acks| :: r.acks[i].0 <= r.states[i].confirmed + l.gap
  }

  /** confirmedSeq is a sequence that lacks acks. */
  ghost predicate ExactAt(l: Limits, r: Run, i: nat)
    requires i <= |r.acks| && |r.states| == |r.acks| + 1
  {
    |Ackers(LogOf(r.acks[..i]), r.states[i].confirmed)| < l.threshold
  }

  /** The ack completes the sequence to be confirmed, and the next one is complete already. */
  ghost predicate OvertakenAt(l: Limits, r: Run, i: nat)
    requires i < |r.acks| && |r.states| == |r.acks| + 1
  {
    var num, from, log := r.acks[i].0, r.acks[i].1, LogOf(r.acks[..i]);
    && num == r.states[i].confirmed && from !in Ackers(log, num) && |Ackers(log, num)| + 1 >= l.threshold
    && |Ackers(log, num + 1)| >= l.threshold
  }

  lemma RunLog(l: Limits, start: nat, r: Run, i: nat)
    requires IsRun(l, start, r) && i < |r.acks|
    ensures r.states[i + 1] == Handle(l, r.states[i], r.acks[i].0, r.acks[i].1)
    ensures LogOf(r.acks[..i + 1]) == Record(LogOf(r.acks[..i]), r.acks[i].0, r.acks[i].1)
  {
    assert HandledAt(l, r, i);
    assert r.acks[..i + 1][..i] == r.acks[..i];
  }

  lemma {:induction false} RunComplete(l: Limits, start: nat, r: Run, i: nat)
    requires IsRun(l, start, r) && WithinGap(l, r) && i <= |r.acks|
    ensures Complete(r.states[i], LogOf(r.acks[..i]))
  {
    if i > 0 {
      RunComplete(l, start, r, i - 1);
      RunLog(l, start, r, i - 1);
      HandleComplete(l, r.states[i - 1], LogOf(r.acks[..i - 1]), r.acks[i - 1].0, r.acks[i - 1].1);
    }
  }

  lemma ExactStaysExactly(l: Limits, start: nat, r: Run, i: nat)
    requires IsRun(l, start, r) && WithinGap(l, r) && i < |r.acks| && ExactAt(l, r, i)
    ensures ExactAt(l, r, i + 1) <==> !OvertakenAt(l, r, i)
  {
    RunComplete(l, start, r, i);
    RunLog(l, start, r, i);
    HandleExactly(l, r.states[i], LogOf(r.acks[..i]), r.acks[i].0, r.acks[i].1);
  }

  lemma {:induction false} ExactUntil(l: Limits, start: nat, r: Run, i: nat)
    requires l.threshold >= 1 && IsRun(l, start, r) && WithinGap(l, r) && i <= |r.acks|
    requires forall j | 0 <= j < |r.acks| :: !OvertakenAt(l, r, j)
    ensures ExactAt(l, r, i)
  {
    if i > 0 {
      ExactUntil(l, start, r, i - 1);
      ExactStaysExactly(l, start, r, i - 1);
    }
  }

  /**
   * Over every run, confirmedSeq is exact after each ack if and only if no ack finds the next sequence complete
   * already.
   */
  lemma RunExactExactly(l: Limits, start: nat, r: Run)
    requires l.threshold >= 1 && IsRun(l, start, r) && WithinGap(l, r)
    ensures (forall i | 0 <= i <= |r.acks| :: ExactAt(l, r, i))
            <==> (forall i | 0 <= i < |r.acks| :: !OvertakenAt(l, r, i))
  {
    if forall i | 0 <= i <= |r.acks| :: ExactAt(l, r, i) {
      forall i | 0 <= i < |r.acks| ensures !OvertakenAt(l, r, i) {
        assert ExactAt(l, r, i) && ExactAt(l, r, i + 1);
        ExactStaysExactly(l, start, r, i);
      }
    }
    if forall i | 0 <= i < |r.acks| :: !OvertakenAt(l, r, i) {
      forall i | 0 <= i <= |r.acks| ensures ExactAt(l, r, i) { ExactUntil(l, start, r, i); }
    }
  }

  /**
   * Out of order this fails: 1 is acknowledged, then 0, and 1 stays unconfirmed though threshold parties acknowledged
   * it.
   */
  lemma OutOfOrderLags()
    ensures var l := Limits(1, 1);
            var states := [AckState(0, map[]), AckState(0, map[1 := {7}]), AckState(1, map[1 := {7}])];
            var r := Run([(1, 7), (0, 7)], states);
            && IsRun(l, 0, r) && |Ackers(LogOf(r.acks), 1)| >= l.threshold
            && Handle(l, r.states[2], 1, 7) == r.states[2]
  {
    var l := Limits(1, 1);
    var r := Run([(1, 7), (0, 7)], [AckState(0, map[]), AckState(0, map[1 := {7}]), AckState(1, map[1 := {7}])]);
    assert HandledAt(l, r, 0) && HandledAt(l, r, 1);
    LogHolds(r.acks, 1, 7);
    assert r.acks[0] == (1, 7);
    SubsetSize({7}, Ackers(LogOf(r.acks), 1));
  }
}
