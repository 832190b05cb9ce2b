/**
 * Sending a control event to the consenters: all of them at first, then again those that failed, until
 * enough have accepted it or the broadcast is cancelled.
 */
module Broadcaster {
  import opened Finite
  import opened Quorum

  type Consenter = nat

  /** What happens in one round: who accepts when asked, and whether the wait after it is cancelled. */
  datatype Round = Round(accepts: set<Consenter>, cancelled: bool)

  datatype Outcome = Sent | Cancelled | Waiting

  /** The consenters that accept in one of the rounds. */
  ghost function Reached(senders: seq<Consenter>, rounds: seq<Round>): set<Consenter> {
    set c | c in senders && exists i :: 0 <= i < |rounds| && c in rounds[i].accepts
  }

  /**
   * One round: each of the senders is asked once.  The failures are collected in any order, which does not
   * matter, so they are kept in the order of the senders here.
   */
  method SendRound(retry: seq<Consenter>, round: Round, delivered: multiset<Consenter>)
    returns (failed: seq<Consenter>, delivered': multiset<Consenter>)
    requires Distinct(retry)
    ensures Distinct(failed) && forall c :: c in failed <==> c in retry && c !in round.accepts
    ensures forall c :: delivered'[c] == delivered[c] + (if c in retry && c in round.accepts then 1 else 0)
  {
    failed, delivered' := [], delivered;
    for i := 0 to |retry|
      invariant Distinct(failed) && forall c :: c in failed <==> c in retry[..i] && c !in round.accepts
      invariant forall c :: delivered'[c] == delivered[c] + (if c in retry[..i] && c in round.accepts then 1 else 0)
    {
      assert retry[..i + 1] == retry[..i] + [retry[i]];
      assert retry[i] !in retry[..i];
      if retry[i] in round.accepts {
        delivered' := delivered' + multiset{retry[i]};
      } else {
        failed := failed + [retry[i]];
      }
    }
    assert retry[..|retry|] == retry;
  }

  // ---------- Delays ----------

  ghost function Doubled(d: nat, k: nat): nat { if k == 0 then d else 2 * Doubled(d, k - 1) }

  /** The wait after round k: doubled every time, up to the limit. */
  ghost function Delay(min: nat, max: nat, k: nat): nat {
    var d := Doubled(min, k + 1);
    if d > max then max else d
  }

  // ---------- The broadcast ----------

  lemma ReachedNext(senders: seq<Consenter>, rounds: seq<Round>, k: nat)
    requires k < |rounds|
    ensures Reached(senders, rounds[..k + 1]) == Reached(senders, rounds[..k]) + Elements(senders) * rounds[k].accepts
  {
    forall c ensures c in Reached(senders, rounds[..k + 1]) <==>
                     c in Reached(senders, rounds[..k]) + Elements(senders) * rounds[k].accepts {
      if c in Reached(senders, rounds[..k]) {
        var i :| 0 <= i < k && c in rounds[..k][i].accepts;
        assert c in rounds[..k + 1][i].accepts;
      }
      if c in Elements(senders) * rounds[k].accepts {
        assert c in rounds[..k + 1][k].accepts;
      }
    }
  }

  /** The accepted and the failed consenters are all consenters, and no one is both. */
  lemma Split(senders: seq<Consenter>, failed: seq<Consenter>, reached: set<Consenter>)
    requires Distinct(senders) && Distinct(failed) && Elements(failed) == Elements(senders) - reached
    requires reached <= Elements(senders)
    ensures |reached| == |senders| - |failed|
  {
    DistinctSize(senders);
    DistinctSize(failed);
    assert Elements(senders) == Elements(failed) + reached;
  }

  /** One round of the broadcast, in which the consenters that have not accepted yet are asked. */
  method Attempt(senders: seq<Consenter>, rounds: seq<Round>, k: nat, retry: seq<Consenter>,
                 delivered: multiset<Consenter>)
    returns (failed: seq<Consenter>, delivered': multiset<Consenter>)
    requires k < |rounds| && Distinct(senders) && Distinct(retry)
    requires Elements(retry) == Elements(senders) - Reached(senders, rounds[..k])
    requires delivered == multiset(Reached(senders, rounds[..k]))
    ensures Distinct(failed) && Elements(failed) == Elements(senders) - Reached(senders, rounds[..k + 1])
    ensures delivered' == multiset(Reached(senders, rounds[..k + 1]))
    ensures |senders| - |failed| == |Reached(senders, rounds[..k + 1])|
  {
    failed, delivered' := SendRound(retry, rounds[k], delivered);
    ReachedNext(senders, rounds, k);
    assert forall c :: c in retry <==> c in Elements(retry);
    assert Elements(failed) == Elements(senders) - Reached(senders, rounds[..k + 1]);
    assert forall c :: delivered'[c] == multiset(Reached(senders, rounds[..k + 1]))[c];
    Split(senders, failed, Reached(senders, rounds[..k + 1]));
  }

  /**
   * The broadcast over a schedule of rounds; Waiting means that the schedule ended first.  `delivered` counts
   * how often each consenter accepted the event.
   */
  method BroadcastControlEvent(senders: seq<Consenter>, threshold: int, minInterval: nat, maxDelay: nat,
                               rounds: seq<Round>)
    returns (outcome: Outcome, used: nat, delays: seq<nat>, delivered: multiset<Consenter>)
    requires Distinct(senders) && rounds != []
    ensures 1 <= used <= |rounds|
    ensures delivered == multiset(Reached(senders, rounds[..used]))
    ensures outcome.Sent? <==> |Reached(senders, rounds[..used])| >= threshold
    ensures outcome.Cancelled? ==> rounds[used - 1].cancelled
    ensures outcome.Waiting? ==> used == |rounds| && !rounds[used - 1].cancelled
    ensures forall j | 1 <= j < used :: |Reached(senders, rounds[..j])| < threshold
    ensures forall j | 0 <= j < used - 1 :: !rounds[j].cancelled
    ensures |delays| == (if outcome.Sent? then used - 1 else used)
    ensures forall j | 0 <= j < |delays| :: delays[j] == Delay(minInterval, maxDelay, j)
  {
    var retry, delay := senders, minInterval;
    used, delays, delivered := 0, [], multiset{};
    assert Reached(senders, rounds[..0]) == {};
    while used < |rounds|
      invariant 0 <= used <= |rounds| && |delays| == used
      invariant Distinct(retry) && Elements(retry) == Elements(senders) - Reached(senders, rounds[..used])
      invariant delivered == multiset(Reached(senders, rounds[..used]))
      invariant forall j | 1 <= j <= used :: |Reached(senders, rounds[..j])| < threshold
      invariant forall j | 0 <= j < used :: !rounds[j].cancelled
      invariant forall j | 0 <= j < |delays| :: delays[j] == Delay(minInterval, maxDelay, j)
      invariant if used == 0 then delay == minInterval else delay == Delay(minInterval, maxDelay, used - 1)
    {
      var failed;
      failed, delivered := Attempt(senders, rounds, used, retry, delivered);
      used := used + 1;
      if |senders| - |failed| >= threshold {
        return Sent, used, delays, delivered;
      }
      NextDelay(minInterval, maxDelay, used - 1, delay);
      delay := delay * 2;
      if delay > maxDelay {
        delay := maxDelay;
      }
      delays := delays + [delay];
      if rounds[used - 1].cancelled {
        return Cancelled, used, delays, delivered;
      }
      retry := failed;
    }
    return Waiting, used, delays, delivered;
  }

  lemma NextDelay(min: nat, max: nat, k: nat, d: nat)
    requires if k == 0 then d == min else d == Delay(min, max, k - 1)
    ensures Delay(min, max, k) == if d * 2 > max then max else d * 2
  {
  }

  // ---------- What success means ----------

  ghost function Accepted(delivered: multiset<Consenter>): set<Consenter> { set c | c in delivered }

  /**
   * n - f acceptances were counted, f being the fault bound for the n consenters: so more than f members of
   * every consensus quorum accepted the event, each once.
   */
  method BroadcastReachesQuorums(senders: seq<Consenter>, minInterval: nat, maxDelay: nat, rounds: seq<Round>)
    returns (outcome: Outcome, used: nat, delivered: multiset<Consenter>)
    requires Distinct(senders) && 1 <= |senders| < 0x1_0000 && rounds != []
    ensures 1 <= used <= |rounds| && delivered == multiset(Reached(senders, rounds[..used]))
    ensures outcome.Sent? <==> |Reached(senders, rounds[..used])| >= |senders| - F(|senders|)
    ensures forall j | 1 <= j < used :: |Reached(senders, rounds[..j])| < |senders| - F(|senders|)
    ensures forall j | 0 <= j < used - 1 :: !rounds[j].cancelled
    ensures outcome.Cancelled? ==> rounds[used - 1].cancelled
    ensures outcome.Waiting? ==> used == |rounds| && !rounds[used - 1].cancelled
    ensures forall c :: delivered[c] <= 1
    ensures outcome.Sent? ==> forall q | IsQuorum(Elements(senders), q) ::
              |Accepted(delivered) * q| >= F(|senders|) + 1
  {
    var delays;
    outcome, used, delays, delivered :=
      BroadcastControlEvent(senders, |senders| - F(|senders|), minInterval, maxDelay, rounds);
    if outcome.Sent? {
      ghost var accepted := Accepted(delivered);
      assert accepted == Reached(senders, rounds[..used]);
      DistinctSize(senders);
      forall q | IsQuorum(Elements(senders), q) ensures |accepted * q| >= F(|senders|) + 1 {
        AcceptedReachesQuorum(Elements(senders), accepted, q);
      }
    }
  }
}
