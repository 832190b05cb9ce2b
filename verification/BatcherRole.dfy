/**
 * A batcher of one shard over all its terms: as primary it cuts, stores and attests batches, as
 * secondary it pulls, verifies, stores and attests the batches of the current primary.
 */
module BatcherRole {
  import opened Wrappers
  import opened Finite
  import opened Acker
  import A = Acker

  type Request = nat
  type Digest = nat

  datatype Batch = Batch(primary: Party, shard: nat, num: nat, requests: seq<Request>, digest: Digest)

  /** A stored batch, in the part of the ledger that belongs to its primary. */
  datatype Entry = Entry(num: nat, requests: seq<Request>, digest: Digest)

  /** A batch attestation fragment that this batcher started to send. */
  datatype Baf = Baf(primary: Party, num: nat, digest: Digest)

  /**
   * The batcher's identity and rules.  `hash` is the digest of a list of requests, `valid` stands for the
   * checks of signature and requests, and `liars` may acknowledge sequences the primary has not produced.
   */
  datatype Config = Config(id: Party, shard: nat, batchers: seq<Party>, limits: Limits,
                           hash: seq<Request> -> Digest, valid: Batch -> bool, liars: set<Party>)

  /** Where the role's goroutine is. */
  datatype Role = Idle | Waiting | Batching | Sending | Pulling | Attesting

  type Ledger = map<Party, seq<Entry>>

  /** `acker` is the acker of the last term as primary; `start` and `log` are its first sequence and its acks. */
  datatype State = State(term: nat, role: Role, primary: Party, num: nat, ledger: Ledger, sent: set<Baf>,
                         acker: Option<AckState>, start: nat, log: Log)

  function Chain(ledger: Ledger, p: Party): seq<Entry> { if p in ledger then ledger[p] else [] }

  function Height(ledger: Ledger, p: Party): nat { |Chain(ledger, p)| }

  function Appended(ledger: Ledger, p: Party, e: Entry): Ledger { ledger[p := Chain(ledger, p) + [e]] }

  // ---------- Who is primary ----------

  function PrimaryIndex(shard: nat, term: nat, n: nat): (i: nat)
    requires n > 0
    ensures i < n
  {
    (shard + term) % 0x1_0000_0000_0000_0000 % n
  }

  lemma {:induction false} MulAtLeast(k: int, m: int, n: nat)
    requires k < m
    ensures k * n + n <= m * n
    decreases m - k
  {
    if m == k + 1 {
      assert m * n == k * n + n;
    } else {
      MulAtLeast(k, m - 1, n);
      assert m * n == (m - 1) * n + n;
    }
  }

  lemma ModUnique(x: nat, q: nat, r: nat, n: nat)
    requires r < n && x == q * n + r
    ensures x % n == r
  {
    var d := x / n;
    assert x == d * n + x % n;
    if d < q {
      MulAtLeast(d, q, n);
    } else if q < d {
      MulAtLeast(q, d, n);
    }
  }

  lemma ModOffset(x: nat, k: nat, n: nat)
    requires k < n
    ensures (x + k) % n == (if x % n + k < n then x % n + k else x % n + k - n)
  {
    var q := x / n;
    assert x + k == q * n + (x % n + k);
    if x % n + k < n {
      ModUnique(x + k, q, x % n + k, n);
    } else {
      assert (q + 1) * n == q * n + n;
      ModUnique(x + k, q + 1, x % n + k - n, n);
    }
  }

  lemma ModNext(x: nat, n: nat)
    requires n > 0
    ensures (x + 1) % n == if x % n + 1 == n then 0 else x % n + 1
  {
    if n > 1 {
      ModOffset(x, 1, n);
    }
  }

  /** The turns start at the shard's number and go up by one, term by term. */
  lemma TurnsInOrder(shard: nat, term: nat, n: nat)
    requires n > 0 && shard + term + 1 < 0x1_0000_0000_0000_0000
    ensures PrimaryIndex(shard, 0, n) == shard % n
    ensures PrimaryIndex(shard, term + 1, n) ==
            if PrimaryIndex(shard, term, n) + 1 == n then 0 else PrimaryIndex(shard, term, n) + 1
  {
    var turn, next := shard + term, shard + (term + 1);
    ModNext(turn, n);
    assert turn % 0x1_0000_0000_0000_0000 == turn && next % 0x1_0000_0000_0000_0000 == next == turn + 1;
    assert shard % 0x1_0000_0000_0000_0000 == shard;
  }

  /** Among any n consecutive terms each batcher is primary in exactly one, as long as shard + term does not wrap. */
  lemma EveryBatcherOnce(shard: nat, term: nat, n: nat, i: nat) returns (turn: nat)
    requires i < n && shard + term + n <= 0x1_0000_0000_0000_0000
    ensures term <= turn < term + n
    ensures forall t | term <= t < term + n :: PrimaryIndex(shard, t, n) == i <==> t == turn
  {
    var r := (shard + term) % n;
    turn := term + (if i >= r then i - r else i + n - r);
    forall t | term <= t < term + n ensures PrimaryIndex(shard, t, n) == i <==> t == turn {
      ModOffset(shard + term, t - term, n);
    }
  }

  // ---------- The checks of a secondary ----------

  datatype Rejection = WrongPrimary | WrongShard | WrongSequence | Empty | WrongDigest | Unverified

  function VerifyBatch(c: Config, primary: Party, num: nat, b: Batch): Option<Rejection> {
    if b.primary != primary then Some(WrongPrimary)
    else if b.shard != c.shard then Some(WrongShard)
    else if b.num != num then Some(WrongSequence)
    else if |b.requests| == 0 then Some(Empty)
    else if b.digest != c.hash(b.requests) then Some(WrongDigest)
    else if !c.valid(b) then Some(Unverified)
    else None
  }

  // ---------- Steps ----------

  datatype Step =
    | TermChange(term: nat)
    | Begin
    | KeepUp
    | NoRequests
    | Produce(requests: seq<Request>)
    | Pull(batch: Batch)
    | Sent
    | Leave
    | Restart
    | AckFrom(num: nat, from: Party)

  ghost function Store(c: Config, s: State, e: Entry): State {
    s.(ledger := Appended(s.ledger, s.primary, e), sent := s.sent + {Baf(s.primary, s.num, e.digest)},
       role := if s.role.Batching? then Sending else Attesting)
  }

  ghost function HandleAck(c: Config, s: State, num: nat, from: Party): State {
    if s.acker.None? then s
    else s.(acker := Some(Handle(c.limits, s.acker.value, num, from)), log := Record(s.log, num, from))
  }

  /** What may happen: an ack of a batch that was not produced comes from a liar only. */
  ghost predicate Enabled(c: Config, s: State, step: Step) {
    match step
    case TermChange(_) => true
    case Begin => s.role.Idle?
    case KeepUp => s.role.Waiting? && s.acker.Some? && Sub64(s.num, s.acker.value.confirmed) < c.limits.gap
    case NoRequests => s.role.Batching?
    case Produce(requests) => s.role.Batching? && requests != [] && s.num + 1 < 0x1_0000_0000_0000_0000
    case Pull(_) => s.role.Pulling? && s.num + 1 < 0x1_0000_0000_0000_0000
    case Sent => s.role.Sending? || s.role.Attesting?
    case Leave => !s.role.Batching?
    case Restart => true
    case AckFrom(num, from) => from in c.liars || num < Height(s.ledger, c.id)
  }

  ghost function Next(c: Config, s: State, step: Step): State
    requires c.batchers != [] && Enabled(c, s, step)
  {
    match step
    case TermChange(t) => s.(term := t)
    case Begin => Entered(c, s)
    case KeepUp => s.(role := Batching)
    case NoRequests => s.(role := Waiting)
    case Produce(requests) => Store(c, s, Entry(s.num, requests, c.hash(requests)))
    case Pull(b) =>
      if VerifyBatch(c, s.primary, s.num, b).Some? then s else Store(c, s, Entry(s.num, b.requests, b.digest))
    case Sent =>
      if s.role.Sending? then HandleAck(c, s, s.num, c.id).(num := s.num + 1, role := Waiting)
      else s.(num := s.num + 1, role := Pulling)
    case Leave => s.(role := Idle)
    case Restart => s.(role := Idle, acker := None)
    case AckFrom(num, from) => HandleAck(c, s, num, from)
  }

  ghost function Entered(c: Config, s: State): State
    requires c.batchers != []
  {
    var p := c.batchers[PrimaryIndex(c.shard, s.term, |c.batchers|)];
    var num := Height(s.ledger, p);
    if p == c.id
    then s.(primary := p, num := num, role := Waiting, acker := Some(AckState(num, map[])), start := num, log := map[])
    else s.(primary := p, num := num, role := Pulling)
  }

  // ---------- Invariant ----------

  ghost predicate EntryOk(c: Config, e: Entry, i: nat) {
    e.num == i && e.requests != [] && e.digest == c.hash(e.requests)
  }

  /** No gap and no repetition: the entry at each height has this sequence. */
  ghost predicate LedgerOk(c: Config, ledger: Ledger) {
    forall p, i | p in ledger && 0 <= i < |ledger[p]| :: EntryOk(c, ledger[p][i], i)
  }

  /** Whatever was attested is stored. */
  ghost predicate SentOk(s: State) {
    forall b | b in s.sent ::
      b.num < Height(s.ledger, b.primary) && Chain(s.ledger, b.primary)[b.num].digest == b.digest
  }

  ghost predicate RoleOk(c: Config, s: State) {
    match s.role
    case Idle => true
    case Waiting => s.acker.Some? && s.primary == c.id && s.num == Height(s.ledger, s.primary)
    case Batching => s.acker.Some? && s.primary == c.id && s.num == Height(s.ledger, s.primary)
                     && s.num < s.acker.value.confirmed + c.limits.gap
    case Sending => s.acker.Some? && s.primary == c.id && s.num + 1 == Height(s.ledger, s.primary)
    case Pulling => s.primary != c.id && s.num == Height(s.ledger, s.primary)
    case Attesting => s.primary != c.id && s.num + 1 == Height(s.ledger, s.primary)
  }

  ghost predicate AcksOk(c: Config, s: State) {
    s.acker.Some? ==>
      && AckInv(c.limits, s.start, s.acker.value, s.log) && s.start <= Height(s.ledger, c.id)
      && forall n: nat, p | p in Ackers(s.log, n) && p !in c.liars :: n < Height(s.ledger, c.id)
  }

  ghost predicate Inv(c: Config, s: State) {
    LedgerOk(c, s.ledger) && SentOk(s) && RoleOk(c, s) && AcksOk(c, s)
  }

  ghost predicate ConfigOk(c: Config) { c.batchers != [] && |c.liars| < c.limits.threshold }

  // ---------- Every step keeps the invariant ----------

  /** Fewer than threshold liars: the confirmed sequence never passes the primary's height. */
  lemma ConfirmedIsProduced(c: Config, s: State)
    requires ConfigOk(c) && AcksOk(c, s) && s.acker.Some?
    ensures s.acker.value.confirmed <= Height(s.ledger, c.id)
  {
    var n := s.acker.value.confirmed;
    if n > s.start {
      assert |Ackers(s.log, n - 1)| >= c.limits.threshold;
      if Ackers(s.log, n - 1) <= c.liars {
        SubsetSize(Ackers(s.log, n - 1), c.liars);
        assert false;
      }
      var p :| p in Ackers(s.log, n - 1) && p !in c.liars;
    }
  }

  lemma StoreInv(c: Config, s: State, e: Entry)
    requires Inv(c, s) && (s.role.Batching? || s.role.Pulling?) && EntryOk(c, e, s.num)
    ensures Inv(c, Store(c, s, e))
  {
    var s' := Store(c, s, e);
    assert forall p :: Chain(s.ledger, p) <= Chain(s'.ledger, p);
    assert LedgerOk(c, s'.ledger);
    assert SentOk(s');
  }

  lemma HandleAckInv(c: Config, s: State, num: nat, from: Party)
    requires Inv(c, s) && (from in c.liars || num < Height(s.ledger, c.id))
    ensures Inv(c, HandleAck(c, s, num, from))
  {
    if s.acker.Some? {
      HandleInv(c.limits, s.start, s.acker.value, s.log, num, from);
      var s' := HandleAck(c, s, num, from);
      forall n: nat, p | p in Ackers(s'.log, n) && p !in c.liars ensures n < Height(s.ledger, c.id) {
        assert p in Ackers(s.log, n) || (n == num && p == from);
      }
    }
  }

  /** On integers the unsigned test says what it should, since the primary is never behind. */
  lemma GapTestExact(c: Config, s: State)
    requires ConfigOk(c) && Inv(c, s) && s.role.Waiting? && s.num < 0x1_0000_0000_0000_0000
    ensures var confirmed := s.acker.value.confirmed;
            confirmed <= s.num && Sub64(s.num, confirmed) == s.num - confirmed
  {
    ConfirmedIsProduced(c, s);
  }

  lemma StepInv(c: Config, s: State, step: Step)
    requires ConfigOk(c) && Inv(c, s) && Enabled(c, s, step) && s.num < 0x1_0000_0000_0000_0000
    ensures Inv(c, Next(c, s, step))
  {
    match step
    case KeepUp => GapTestExact(c, s);
    case Produce(requests) => StoreInv(c, s, Entry(s.num, requests, c.hash(requests)));
    case Pull(b) =>
      if VerifyBatch(c, s.primary, s.num, b).None? {
        StoreInv(c, s, Entry(s.num, b.requests, b.digest));
      }
    case Sent =>
      if s.role.Sending? {
        HandleAckInv(c, s, s.num, c.id);
      }
    case AckFrom(num, from) => HandleAckInv(c, s, num, from);
    case _ =>
  }

  // ---------- Runs ----------

  datatype Run = Run(states: seq<State>, steps: seq<Step>)

  /** A batcher starts idle, on a ledger that it or an earlier run of it left behind. */
  ghost predicate Initial(c: Config, s: State) {
    s.role.Idle? && s.acker.None? && s.num == 0 && LedgerOk(c, s.ledger) && SentOk(s)
  }

  ghost predicate StepAt(c: Config, r: Run, i: nat)
    requires c.batchers != [] && i < |r.steps| && |r.states| == |r.steps| + 1
  {
    Enabled(c, r.states[i], r.steps[i]) && r.states[i + 1] == Next(c, r.states[i], r.steps[i])
  }

  /** Heights stay within uint64. */
  ghost predicate IsRun(c: Config, r: Run) {
    && ConfigOk(c) && |r.states| == |r.steps| + 1 && Initial(c, r.states[0])
    && (forall i {:trigger r.states[i].num} | 0 <= i < |r.states| :: r.states[i].num < 0x1_0000_0000_0000_0000)
    && forall i {:trigger StepAt(c, r, i)} | 0 <= i < |r.steps| :: StepAt(c, r, i)
  }

  lemma {:induction false} RunInv(c: Config, r: Run, i: nat)
    requires IsRun(c, r) && i < |r.states|
    ensures Inv(c, r.states[i])
  {
    if i > 0 {
      RunInv(c, r, i - 1);
      assert StepAt(c, r, i - 1);
      assert r.states[i - 1].num < 0x1_0000_0000_0000_0000;
      StepInv(c, r.states[i - 1], r.steps[i - 1]);
    }
  }

  /** A step leaves every chain as it is, or adds to one of them the entry for its current height. */
  ghost predicate AppendsAtHeight(before: seq<Entry>, after: seq<Entry>) {
    after == before || (|after| == |before| + 1 && before <= after && after[|before|].num == |before|)
  }

  lemma StepAppends(c: Config, s: State, step: Step, p: Party)
    requires ConfigOk(c) && Inv(c, s) && Enabled(c, s, step)
    ensures AppendsAtHeight(Chain(s.ledger, p), Chain(Next(c, s, step).ledger, p))
  {
  }

  /** Every append of every run is at the current height of that primary's chain. */
  lemma RunAppends(c: Config, r: Run, i: nat, p: Party)
    requires IsRun(c, r) && i < |r.steps|
    ensures AppendsAtHeight(Chain(r.states[i].ledger, p), Chain(r.states[i + 1].ledger, p))
  {
    RunInv(c, r, i);
    assert StepAt(c, r, i);
    StepAppends(c, r.states[i], r.steps[i], p);
  }

  /** Nothing stored is ever overwritten. */
  lemma {:induction false} RunKeepsLedger(c: Config, r: Run, i: nat, j: nat, p: Party)
    requires IsRun(c, r) && i <= j < |r.states|
    ensures Chain(r.states[i].ledger, p) <= Chain(r.states[j].ledger, p)
    decreases j
  {
    if i < j {
      RunKeepsLedger(c, r, i, j - 1, p);
      RunAppends(c, r, j - 1, p);
    }
  }

  /** Over a whole run, restarts included, two attestations for one primary and sequence have one digest. */
  lemma OneDigest(c: Config, r: Run, i: nat, j: nat, b: Baf, b': Baf)
    requires IsRun(c, r) && i <= j < |r.states| && b in r.states[i].sent && b' in r.states[j].sent
    requires b.primary == b'.primary && b.num == b'.num
    ensures b.digest == b'.digest
  {
    RunInv(c, r, i);
    RunInv(c, r, j);
    RunKeepsLedger(c, r, i, j, b.primary);
  }

  /** What is attested is the digest of the non-empty list of requests stored at that height. */
  lemma AttestsStored(c: Config, r: Run, i: nat, b: Baf)
    requires IsRun(c, r) && i < |r.states| && b in r.states[i].sent
    ensures var chain := Chain(r.states[i].ledger, b.primary);
            && b.num < |chain| && chain[b.num].num == b.num && chain[b.num].requests != []
            && b.digest == c.hash(chain[b.num].requests)
  {
    RunInv(c, r, i);
    assert EntryOk(c, Chain(r.states[i].ledger, b.primary)[b.num], b.num);
  }

  /**
   * Whenever a primary stores a new batch it is less than gap ahead of the confirmed sequence, every
   * sequence this acker confirmed has threshold acks, and none of them is beyond what was produced.
   */
  lemma PrimaryWithinGap(c: Config, r: Run, i: nat)
    requires IsRun(c, r) && i < |r.steps| && r.steps[i].Produce?
    ensures var s := r.states[i];
            && s.acker.Some? && s.num == Height(s.ledger, c.id)
            && s.acker.value.confirmed <= s.num < s.acker.value.confirmed + c.limits.gap
            && forall n | s.start <= n < s.acker.value.confirmed :: |Ackers(s.log, n)| >= c.limits.threshold
  {
    RunInv(c, r, i);
    assert StepAt(c, r, i);
    ConfirmedIsProduced(c, r.states[i]);
  }

  // What lengthens a chain

  /** A batch that a secondary takes next. */
  ghost predicate Acceptable(c: Config, s: State, b: Batch) {
    && b.primary == s.primary && b.shard == c.shard && b.num == Height(s.ledger, s.primary)
    && b.requests != [] && b.digest == c.hash(b.requests) && c.valid(b)
  }

  /** One chain has one more entry, which is attested; the others are as they were. */
  ghost predicate Gains(s: State, s': State, p: Party, e: Entry) {
    && Chain(s'.ledger, p) == Chain(s.ledger, p) + [e] && s'.sent == s.sent + {Baf(p, e.num, e.digest)}
    && forall q | q != p :: Chain(s'.ledger, q) == Chain(s.ledger, q)
  }

  /** A secondary takes a batch if and only if it is acceptable, and else is as it was. */
  lemma PullsExactly(c: Config, s: State, b: Batch)
    requires ConfigOk(c) && Inv(c, s) && Enabled(c, s, Pull(b))
    ensures var s' := Next(c, s, Pull(b));
            if Acceptable(c, s, b)
            then s'.role.Attesting? && Gains(s, s', s.primary, Entry(b.num, b.requests, b.digest)) && s'.num == s.num
            else s' == s
  {
  }

  /** A primary stores the requests it was handed, at its height, and attests their digest. */
  lemma Produces(c: Config, s: State, requests: seq<Request>)
    requires ConfigOk(c) && Inv(c, s) && Enabled(c, s, Produce(requests))
    ensures var s', h := Next(c, s, Produce(requests)), Height(s.ledger, c.id);
            s'.role.Sending? && Gains(s, s', c.id, Entry(h, requests, c.hash(requests))) && s'.num == s.num
  {
  }

  /** The chain of p gains an entry for a reason: its primary produced it, or a secondary pulled it from p. */
  ghost predicate Sourced(c: Config, s: State, step: Step, s': State, p: Party) {
    || (step.Produce? && p == c.id && s.role.Batching?
        && Gains(s, s', p, Entry(Height(s.ledger, p), step.requests, c.hash(step.requests))))
    || (step.Pull? && p == s.primary != c.id && s.role.Pulling? && Acceptable(c, s, step.batch)
        && Gains(s, s', p, Entry(step.batch.num, step.batch.requests, step.batch.digest)))
  }

  /** Over every run, a chain is lengthened only by a batch of this shard, from this primary, at this height. */
  lemma LengthenedOnlyBy(c: Config, r: Run, i: nat, p: Party)
    requires IsRun(c, r) && i < |r.steps| && Chain(r.states[i + 1].ledger, p) != Chain(r.states[i].ledger, p)
    ensures Sourced(c, r.states[i], r.steps[i], r.states[i + 1], p)
  {
    RunInv(c, r, i);
    assert StepAt(c, r, i);
    var s, step := r.states[i], r.steps[i];
    match step
    case Produce(requests) => Produces(c, s, requests);
    case Pull(b) => PullsExactly(c, s, b);
    case Sent => SentKeeps(c, s);
    case _ =>
  }

  lemma SentKeeps(c: Config, s: State)
    requires ConfigOk(c) && Enabled(c, s, Sent)
    ensures Next(c, s, Sent).ledger == s.ledger && Next(c, s, Sent).sent == s.sent
  {
  }

  // Whose turn it is

  ghost function PrimaryOf(c: Config, term: nat): Party
    requires c.batchers != []
  {
    c.batchers[PrimaryIndex(c.shard, term, |c.batchers|)]
  }

  /** The term that was announced last by state i. */
  ghost function Announced(r: Run, i: nat): nat
    requires i <= |r.steps| < |r.states|
  {
    if i == 0 then r.states[0].term
    else if r.steps[i - 1].TermChange? then r.steps[i - 1].term
    else Announced(r, i - 1)
  }

  lemma {:induction false} TermIsAnnounced(c: Config, r: Run, i: nat)
    requires IsRun(c, r) && i < |r.states|
    ensures r.states[i].term == Announced(r, i)
  {
    if i > 0 {
      assert StepAt(c, r, i - 1);
      TermIsAnnounced(c, r, i - 1);
    }
  }

  /** The role began in state k, for the term announced last, and has not been left since. */
  ghost predicate BeganAt(c: Config, r: Run, k: nat, i: nat)
    requires IsRun(c, r)
  {
    && k < i < |r.states| && r.steps[k].Begin? && r.states[i].primary == PrimaryOf(c, Announced(r, k))
    && forall m | k < m < i :: !r.steps[m].Begin? && !r.steps[m].Leave? && !r.steps[m].Restart?
  }

  /** Over every run, a batcher works for the primary of the term that was announced last when it began. */
  lemma {:induction false} WorksForPrimary(c: Config, r: Run, i: nat) returns (k: nat)
    requires IsRun(c, r) && i < |r.states| && !r.states[i].role.Idle?
    ensures BeganAt(c, r, k, i)
    ensures r.states[i].role.Pulling? || r.states[i].role.Attesting? <==> PrimaryOf(c, Announced(r, k)) != c.id
  {
    var j := i - 1;
    assert StepAt(c, r, j);
    RunInv(c, r, i);
    if r.steps[j].Begin? {
      k := j;
      TermIsAnnounced(c, r, j);
    } else {
      k := WorksForPrimary(c, r, j);
    }
  }

  /** Over every run, a primary asks its pool once for each time that its secondaries were found to keep up. */
  lemma {:induction false} AsksOnce(c: Config, r: Run, i: nat) returns (k: nat)
    requires IsRun(c, r) && i < |r.states| && r.states[i].role.Batching?
    ensures k < i && r.steps[k].KeepUp? && r.states[i].num == r.states[k].num
    ensures forall m | k < m < i :: r.steps[m].AckFrom? || r.steps[m].TermChange?
  {
    k := i - 1;
    assert StepAt(c, r, k);
    if !r.steps[k].KeepUp? {
      k := AsksOnce(c, r, k);
    }
  }

  // The acks of a term

  /** The acks that reach the acker between states i and j, the batcher's own included. */
  ghost function AcksOf(c: Config, r: Run, i: nat, j: nat): seq<Ack>
    requires i <= j <= |r.steps| < |r.states|
  {
    if i == j then []
    else
      var s := r.states[j - 1];
      AcksOf(c, r, i, j - 1) + match r.steps[j - 1]
                               case AckFrom(num, from) => [(num, from)]
                               case Sent => if s.role.Sending? then [(s.num, c.id)] else []
                               case _ => []
  }

  /** The batcher became primary at state i, and did not begin another term since. */
  ghost predicate OneTerm(c: Config, r: Run, i: nat, j: nat)
    requires IsRun(c, r)
  {
    && 1 <= i <= j < |r.states| && r.steps[i - 1].Begin? && r.states[i].role.Waiting?
    && forall m | i <= m < j :: !r.steps[m].Begin? && !r.steps[m].Restart?
  }

  lemma AckerRunMore(l: Limits, start: nat, ar: A.Run, num: nat, from: Party)
    requires A.IsRun(l, start, ar)
    ensures var last := Handle(l, ar.states[|ar.acks|], num, from);
            A.IsRun(l, start, A.Run(ar.acks + [(num, from)], ar.states + [last]))
  {
    var last := Handle(l, ar.states[|ar.acks|], num, from);
    var ar' := A.Run(ar.acks + [(num, from)], ar.states + [last]);
    forall i | 0 <= i < |ar'.acks| ensures A.HandledAt(l, ar', i) {
      assert i < |ar.acks| ==> A.HandledAt(l, ar, i);
    }
  }

  /** The acker of a term has handled exactly the acks of this term, from the height at which it began. */
  ghost predicate AckedBy(c: Config, s: State, start: nat, acks: seq<Ack>, ar: A.Run) {
    && A.IsRun(c.limits, start, ar) && ar.acks == acks
    && s.acker == Some(ar.states[|ar.acks|]) && s.start == start && s.log == LogOf(acks)
  }

  lemma {:induction false} TermIsAckerRun(c: Config, r: Run, i: nat, j: nat) returns (ar: A.Run)
    requires IsRun(c, r) && OneTerm(c, r, i, j)
    ensures AckedBy(c, r.states[j], Height(r.states[i].ledger, c.id), AcksOf(c, r, i, j), ar)
    decreases j
  {
    var start := Height(r.states[i].ledger, c.id);
    RunInv(c, r, i);
    if i == j {
      assert StepAt(c, r, i - 1);
      ar := A.Run([], [AckState(start, map[])]);
    } else {
      var k := j - 1;
      ar := TermIsAckerRun(c, r, i, k);
      assert StepAt(c, r, k);
      RunInv(c, r, k);
      ar := TermStep(c, r.states[k], r.steps[k], start, ar, AcksOf(c, r, i, j));
    }
  }

  lemma TermStep(c: Config, s: State, step: Step, start: nat, ar: A.Run, acks: seq<Ack>) returns (ar': A.Run)
    requires ConfigOk(c) && Enabled(c, s, step) && !step.Begin? && !step.Restart? && AckedBy(c, s, start, ar.acks, ar)
    requires acks == ar.acks + match step
                               case AckFrom(num, from) => [(num, from)]
                               case Sent => if s.role.Sending? then [(s.num, c.id)] else []
                               case _ => []
    ensures AckedBy(c, Next(c, s, step), start, acks, ar')
  {
    if step.AckFrom? {
      ar' := AckStep(c, s, start, ar, step.num, step.from);
    } else if step.Sent? && s.role.Sending? {
      ar' := AckStep(c, s, start, ar, s.num, c.id);
    } else {
      ar' := ar;
      assert acks == ar.acks;
    }
  }

  lemma AckStep(c: Config, s: State, start: nat, ar: A.Run, num: nat, from: Party) returns (ar': A.Run)
    requires AckedBy(c, s, start, ar.acks, ar)
    ensures AckedBy(c, HandleAck(c, s, num, from), start, ar.acks + [(num, from)], ar')
  {
    AckerRunMore(c.limits, start, ar, num, from);
    var acks := ar.acks + [(num, from)];
    ar' := A.Run(acks, ar.states + [Handle(c.limits, ar.states[|ar.acks|], num, from)]);
    assert acks[..|acks| - 1] == ar.acks;
  }

  /**
   * A primary whose term has seen each party's acks in order goes on if and only if it is less than gap ahead of the
   * first sequence of the term that fewer than threshold parties have acknowledged.
   */
  lemma KeepsUpExactly(c: Config, r: Run, i: nat, j: nat) returns (ar: A.Run, first: nat)
    requires IsRun(c, r) && OneTerm(c, r, i, j) && r.states[j].role.Waiting?
    ensures AckedBy(c, r.states[j], Height(r.states[i].ledger, c.id), AcksOf(c, r, i, j), ar)
    ensures A.InOrder(c.limits, Height(r.states[i].ledger, c.id), ar) ==>
              && (forall n | Height(r.states[i].ledger, c.id) <= n <= first ::
                    |Ackers(LogOf(AcksOf(c, r, i, j)), n)| < c.limits.threshold <==> n == first)
              && first <= r.states[j].num
              && (Enabled(c, r.states[j], KeepUp) <==> r.states[j].num < first + c.limits.gap)
  {
    var start := Height(r.states[i].ledger, c.id);
    ar := TermIsAckerRun(c, r, i, j);
    first := r.states[j].acker.value.confirmed;
    RunInv(c, r, j);
    assert r.states[j].num < 0x1_0000_0000_0000_0000;
    GapTestExact(c, r.states[j]);
    assert Enabled(c, r.states[j], KeepUp) <==> Sub64(r.states[j].num, first) < c.limits.gap;
    if A.InOrder(c.limits, start, ar) {
      ConfirmedExactly(c.limits, start, ar, |ar.acks|);
      assert ar.acks[..|ar.acks|] == ar.acks;
    }
  }

  // ---------- Two batchers ----------

  ghost predicate DigestsWithin(a: seq<Entry>, b: seq<Entry>) {
    |a| <= |b| && forall i | 0 <= i < |a| :: a[i].digest == b[i].digest
  }

  /** A batch accepted from c.id was signed by it, and c.id signs what it attests only. */
  ghost predicate Unforgeable(c: Config, sent: set<Baf>, c': Config) {
    forall b: Batch | c'.valid(b) && b.primary == c.id :: Baf(c.id, b.num, b.digest) in sent
  }

  lemma StepMatches(c: Config, s: State, c': Config, s': State, step: Step)
    requires Inv(c, s) && Unforgeable(c, s.sent, c') && c.id != c'.id
    requires ConfigOk(c') && Inv(c', s') && Enabled(c', s', step)
    requires DigestsWithin(Chain(s'.ledger, c.id), Chain(s.ledger, c.id))
    ensures DigestsWithin(Chain(Next(c', s', step).ledger, c.id), Chain(s.ledger, c.id))
  {
    if step.Pull? && VerifyBatch(c', s'.primary, s'.num, step.batch).None? && s'.primary == c.id {
      assert Baf(c.id, step.batch.num, step.batch.digest) in s.sent;
    }
  }

  /**
   * What a secondary stores of a primary is, digest by digest, a prefix of what that primary stored,
   * over all runs of the two and whatever their terms.
   */
  lemma {:induction false} SecondaryFollowsPrimary(c: Config, r: Run, j: nat, c': Config, r': Run, k: nat)
    requires IsRun(c, r) && j < |r.states| && IsRun(c', r') && k < |r'.states|
    requires c.id != c'.id && Unforgeable(c, r.states[j].sent, c')
    requires DigestsWithin(Chain(r'.states[0].ledger, c.id), Chain(r.states[j].ledger, c.id))
    ensures DigestsWithin(Chain(r'.states[k].ledger, c.id), Chain(r.states[j].ledger, c.id))
    decreases k
  {
    if k > 0 {
      SecondaryFollowsPrimary(c, r, j, c', r', k - 1);
      RunInv(c, r, j);
      RunInv(c', r', k - 1);
      assert StepAt(c', r', k - 1);
      StepMatches(c, r.states[j], c', r'.states[k - 1], r'.steps[k - 1]);
    }
  }

  /** Entry n of the primary's chain, as it is sent to this shard. */
  ghost function BatchOf(c: Config, shard: nat, e: Entry): Batch { Batch(c.id, shard, e.num, e.requests, e.digest) }

  /** The primary's batches pass the other checks of the secondary, which uses the same hash. */
  ghost predicate Trusted(c: Config, chain: seq<Entry>, c': Config) {
    c'.hash == c.hash && forall i | 0 <= i < |chain| :: c'.valid(BatchOf(c, c'.shard, chain[i]))
  }

  /** A secondary of c.id that is as high as n, and has the digests of its chain up to there. */
  ghost predicate Follows(c: Config, chain: seq<Entry>, c': Config, s: State, n: nat) {
    && Inv(c', s) && s.role.Pulling? && s.primary == c.id && Height(s.ledger, c.id) == n <= |chain|
    && DigestsWithin(Chain(s.ledger, c.id), chain)
  }

  /** The secondary takes the batch that the primary stored at this height. */
  lemma TakesNext(c: Config, s: State, c': Config, s': State, n: nat) returns (t: State)
    requires ConfigOk(c) && Inv(c, s) && ConfigOk(c') && c.id != c'.id && Trusted(c, Chain(s.ledger, c.id), c')
    requires Follows(c, Chain(s.ledger, c.id), c', s', n) && n < Height(s.ledger, c.id)
    requires n + 1 < 0x1_0000_0000_0000_0000
    ensures var b := BatchOf(c, c'.shard, Chain(s.ledger, c.id)[n]);
            && Enabled(c', s', Pull(b)) && Enabled(c', Next(c', s', Pull(b)), Sent)
            && t == Next(c', Next(c', s', Pull(b)), Sent)
    ensures Follows(c, Chain(s.ledger, c.id), c', t, n + 1)
  {
    var chain := Chain(s.ledger, c.id);
    var e := chain[n];
    assert EntryOk(c, e, n);
    var b := BatchOf(c, c'.shard, e);
    assert c'.valid(b);
    PullsExactly(c', s', b);
    StepInv(c', s', Pull(b));
    var mid := Next(c', s', Pull(b));
    StepInv(c', mid, Sent);
    SentKeeps(c', mid);
    t := Next(c', mid, Sent);
  }

  /** Steps of this batcher that lead from one state to another. */
  ghost predicate Leads(c: Config, s: State, steps: seq<Step>, end: State)
    requires c.batchers != []
    decreases |steps|
  {
    if steps == [] then end == s else Enabled(c, s, steps[0]) && Leads(c, Next(c, s, steps[0]), steps[1..], end)
  }

  /** From any height a secondary can catch up with all that its primary stored: two steps for each batch. */
  lemma {:induction false} CatchesUp(c: Config, s: State, c': Config, s': State, n: nat)
    returns (steps: seq<Step>, end: State)
    requires ConfigOk(c) && Inv(c, s) && ConfigOk(c') && c.id != c'.id && Trusted(c, Chain(s.ledger, c.id), c')
    requires Follows(c, Chain(s.ledger, c.id), c', s', n) && Height(s.ledger, c.id) < 0x1_0000_0000_0000_0000
    ensures Leads(c', s', steps, end) && |steps| == 2 * (Height(s.ledger, c.id) - n)
    ensures Follows(c, Chain(s.ledger, c.id), c', end, Height(s.ledger, c.id))
    decreases Height(s.ledger, c.id) - n
  {
    if n == Height(s.ledger, c.id) {
      steps, end := [], s';
    } else {
      var b := BatchOf(c, c'.shard, Chain(s.ledger, c.id)[n]);
      var t := TakesNext(c, s, c', s', n);
      var rest;
      rest, end := CatchesUp(c, s, c', t, n + 1);
      steps := [Pull(b), Sent] + rest;
      assert steps[1..] == [Sent] + rest && steps[1..][1..] == rest;
    }
  }
}
