/**
 * Which transitions between ordering-service configurations are accepted, and what that means along
 * every chain of accepted configurations.
 */
module Membership {
  import opened Wrappers
  import opened Finite
  import opened Quorum

  type PartyId = nat

  /** A party; a nil batcher config is None, and `rest` stands for certificates and endpoints. */
  datatype Party = Party(id: PartyId, batchers: seq<Option<nat>>, rest: int)

  /** The parts of the shared config that the membership rules read; a nil party config is None. */
  datatype SharedConfig = SharedConfig(parties: seq<Option<Party>>, maxPartyId: nat)

  // ---------- validatePartyModification ----------

  datatype Modification = Unchanged | Changed | Invalid

  ghost predicate NoNil(batchers: seq<Option<nat>>) {
    forall i | 0 <= i < |batchers| :: batchers[i].Some?
  }

  ghost function Shards(batchers: seq<Option<nat>>): set<nat> {
    set b | b in batchers && b.Some? :: b.value
  }

  /** What a modification of a party amounts to. */
  ghost function Modified(curr: Party, next: Party): Modification {
    if curr == next then Unchanged
    else if |curr.batchers| == |next.batchers| && NoNil(curr.batchers) && NoNil(next.batchers)
            && Shards(curr.batchers) <= Shards(next.batchers) then Changed
    else Invalid
  }

  method ValidatePartyModification(curr: Party, next: Party) returns (m: Modification)
    ensures m == Modified(curr, next)
  {
    if curr == next {
      return Unchanged;
    }
    if |curr.batchers| != |next.batchers| {
      return Invalid;
    }
    var nextShards: set<nat> := {};
    for i := 0 to |next.batchers|
      invariant NoNil(next.batchers[..i]) && nextShards == Shards(next.batchers[..i])
    {
      assert next.batchers[..i + 1] == next.batchers[..i] + [next.batchers[i]];
      if next.batchers[i].None? {
        return Invalid;
      }
      nextShards := nextShards + {next.batchers[i].value};
    }
    assert next.batchers[..|next.batchers|] == next.batchers;
    for i := 0 to |curr.batchers|
      invariant NoNil(curr.batchers[..i]) && Shards(curr.batchers[..i]) <= nextShards
    {
      assert curr.batchers[..i + 1] == curr.batchers[..i] + [curr.batchers[i]];
      if curr.batchers[i].None? {
        return Invalid;
      }
      if curr.batchers[i].value !in nextShards {
        assert curr.batchers[i].value in Shards(curr.batchers);
        return Invalid;
      }
    }
    assert curr.batchers[..|curr.batchers|] == curr.batchers;
    return Changed;
  }

  // ---------- computePartyChanges ----------

  type Parties = map<PartyId, Party>

  datatype Changes = Changes(added: seq<Party>, removed: seq<Party>, modified: seq<Party>)

  ghost predicate KeyedById(m: Parties) { forall id | id in m :: m[id].id == id }

  /** The list holds, once each, the parties of m with the given ids. */
  ghost predicate Lists(list: seq<Party>, ids: set<PartyId>, m: Parties) {
    && (forall i, j | 0 <= i < j < |list| :: list[i].id != list[j].id)
    && (forall i | 0 <= i < |list| :: list[i].id in ids && list[i].id in m && m[list[i].id] == list[i])
    && (forall id | id in ids :: id in m && m[id] in list)
  }

  lemma ListsAppend(list: seq<Party>, ids: set<PartyId>, m: Parties, p: Party, ids': set<PartyId>)
    requires Lists(list, ids, m) && p.id !in ids && p.id in m && m[p.id] == p && ids' == ids + {p.id}
    ensures Lists(list + [p], ids', m)
  {
    assert forall id | id in ids :: m[id] in list + [p];
    assert (list + [p])[|list|] == p;
  }

  lemma {:induction false} ListsSize(list: seq<Party>, ids: set<PartyId>, m: Parties)
    requires KeyedById(m) && Lists(list, ids, m)
    ensures |list| == |ids|
  {
    if list == [] {
      assert ids == {};
    } else {
      var n := |list| - 1;
      forall id | id in ids - {list[n].id} ensures m[id] in list[..n] {
        var i :| 0 <= i < |list| && list[i] == m[id];
        assert list[..n][i] == m[id];
      }
      ListsSize(list[..n], ids - {list[n].id}, m);
    }
  }

  lemma SingletonOf(list: seq<Party>, ids: set<PartyId>, m: Parties)
    requires KeyedById(m) && Lists(list, ids, m) && |list| == 1
    ensures ids == {list[0].id}
  {
    forall id | id in ids ensures id == list[0].id { assert m[id] in list; }
  }

  /** The ids in next and not in curr, apart from those still to be visited. */
  ghost function AddedBut(curr: Parties, next: Parties, todo: set<PartyId>): set<PartyId> {
    set id | id in next && id !in curr && id !in todo
  }

  ghost function ModifiedBut(curr: Parties, next: Parties, todo: set<PartyId>): set<PartyId> {
    set id | id in curr && id in next && id !in todo && Modified(curr[id], next[id]).Changed?
  }

  /** Go's iteration order over a map is arbitrary: the ids are visited in any order. */
  method AddedParties(curr: Parties, next: Parties) returns (added: seq<Party>)
    requires KeyedById(next)
    ensures Lists(added, AddedBut(curr, next, {}), next)
  {
    added := [];
    var todo := next.Keys;
    while todo != {}
      invariant todo <= next.Keys
      invariant Lists(added, AddedBut(curr, next, todo), next)
      decreases todo
    {
      var id :| id in todo;
      ghost var done := AddedBut(curr, next, todo);
      todo := todo - {id};
      if id !in curr {
        ListsAppend(added, done, next, next[id], AddedBut(curr, next, todo));
        added := added + [next[id]];
      } else {
        assert AddedBut(curr, next, todo) == done;
      }
    }
  }

  method RemovedAndModified(curr: Parties, next: Parties) returns (ok: bool, removed: seq<Party>, modified: seq<Party>)
    requires KeyedById(curr) && KeyedById(next)
    ensures ok <==> forall id | id in curr && id in next :: !Modified(curr[id], next[id]).Invalid?
    ensures ok ==> Lists(removed, AddedBut(next, curr, {}), curr)
    ensures ok ==> Lists(modified, ModifiedBut(curr, next, {}), next)
  {
    ok, removed, modified := true, [], [];
    var todo := curr.Keys;
    while todo != {}
      invariant todo <= curr.Keys
      invariant Lists(removed, AddedBut(next, curr, todo), curr)
      invariant Lists(modified, ModifiedBut(curr, next, todo), next)
      invariant forall id | id in curr && id in next && id !in todo :: !Modified(curr[id], next[id]).Invalid?
      decreases todo
    {
      var id :| id in todo;
      ghost var gone, changed := AddedBut(next, curr, todo), ModifiedBut(curr, next, todo);
      todo := todo - {id};
      if id !in next {
        ListsAppend(removed, gone, curr, curr[id], AddedBut(next, curr, todo));
        assert ModifiedBut(curr, next, todo) == changed;
        removed := removed + [curr[id]];
      } else {
        assert AddedBut(next, curr, todo) == gone;
        var m := ValidatePartyModification(curr[id], next[id]);
        if m.Invalid? {
          ok := false;
          return;
        }
        if m.Changed? {
          ListsAppend(modified, changed, next, next[id], ModifiedBut(curr, next, todo));
          modified := modified + [next[id]];
        } else {
          assert ModifiedBut(curr, next, todo) == changed;
        }
      }
    }
  }

  // ---------- ValidateTransition ----------

  ghost predicate NoNilParty(parties: seq<Option<Party>>) {
    forall i | 0 <= i < |parties| :: parties[i].Some?
  }

  /** The parties of a config by id; of two entries with one id, the later counts. */
  function ById(parties: seq<Option<Party>>): Parties {
    if parties == [] then map[]
    else
      var m := ById(parties[..|parties| - 1]);
      var last := parties[|parties| - 1];
      if last.None? then m else m[last.value.id := last.value]
  }

  lemma {:induction false} ByIdHolds(parties: seq<Option<Party>>)
    ensures KeyedById(ById(parties))
    ensures forall i | 0 <= i < |parties| && parties[i].Some? :: parties[i].value.id in ById(parties)
    ensures forall id | id in ById(parties) :: Some(ById(parties)[id]) in parties
  {
    if parties != [] {
      ByIdHolds(parties[..|parties| - 1]);
    }
  }

  method CollectById(parties: seq<Option<Party>>) returns (r: Option<Parties>)
    ensures r.Some? <==> NoNilParty(parties)
    ensures r.Some? ==> r.value == ById(parties) && KeyedById(r.value)
  {
    var m: Parties := map[];
    for i := 0 to |parties|
      invariant NoNilParty(parties[..i]) && m == ById(parties[..i])
    {
      if parties[i].None? {
        return None;
      }
      assert parties[..i + 1][..i] == parties[..i];
      m := m[parties[i].value.id := parties[i].value];
    }
    assert parties[..|parties|] == parties;
    ByIdHolds(parties);
    return Some(m);
  }

  /** MaxPartyID moves only with an added party, to the next number. */
  ghost predicate MaxRule(max: nat, max': nat, added: set<PartyId>) {
    if added == {} then max' == max else added == {max + 1} && max' == max + 1 < 0x1_0000_0000
  }

  ghost predicate AcceptedParties(c: Parties, n: Parties, max: nat, max': nat, certOk: Party -> bool) {
    var added, removed, modified := AddedBut(c, n, {}), AddedBut(n, c, {}), ModifiedBut(c, n, {});
    && (forall id | id in c && id in n :: !Modified(c[id], n[id]).Invalid?)
    && |added| + |removed| + |modified| <= 1
    && MaxRule(max, max', added)
    && (forall id | id in added || id in modified :: certOk(n[id]))
  }

  /** At most one party is added, removed or modified, under the rules for each. */
  ghost predicate Accepted(curr: SharedConfig, next: SharedConfig, certOk: Party -> bool) {
    && NoNilParty(curr.parties) && NoNilParty(next.parties)
    && AcceptedParties(ById(curr.parties), ById(next.parties), curr.maxPartyId, next.maxPartyId, certOk)
  }

  method CertificatesOk(parties: seq<Party>, certOk: Party -> bool, ghost ids: set<PartyId>, ghost m: Parties)
    returns (ok: bool)
    requires KeyedById(m) && Lists(parties, ids, m)
    ensures ok <==> forall id | id in ids :: certOk(m[id])
  {
    for i := 0 to |parties|
      invariant forall j | 0 <= j < i :: certOk(parties[j])
    {
      if !certOk(parties[i]) {
        return false;
      }
    }
    return true;
  }

  /** The rule for MaxPartyID, as the source tests it on uint32. */
  method MaxPartyIdOk(added: seq<Party>, max: nat, max': nat, ghost ids: set<PartyId>, ghost m: Parties)
    returns (ok: bool)
    requires KeyedById(m) && Lists(added, ids, m) && |added| <= 1 && max < 0x1_0000_0000
    ensures ok <==> MaxRule(max, max', ids)
  {
    ListsSize(added, ids, m);
    if |added| == 1 {
      SingletonOf(added, ids, m);
      var id := added[0].id;
      return id > max && max' == id && max' == (max + 1) % 0x1_0000_0000;
    }
    return max' == max;
  }

  method ValidateTransition(curr: SharedConfig, next: SharedConfig, certOk: Party -> bool) returns (ok: bool)
    requires curr.maxPartyId < 0x1_0000_0000
    ensures ok <==> Accepted(curr, next, certOk)
  {
    var cOpt := CollectById(curr.parties);
    if cOpt.None? {
      return false;
    }
    var nOpt := CollectById(next.parties);
    if nOpt.None? {
      return false;
    }
    var c, n := cOpt.value, nOpt.value;
    var added := AddedParties(c, n);
    var valid, removed, modified := RemovedAndModified(c, n);
    if !valid {
      return false;
    }
    ListsSize(added, AddedBut(c, n, {}), n);
    ListsSize(removed, AddedBut(n, c, {}), c);
    ListsSize(modified, ModifiedBut(c, n, {}), n);
    if |added| > 1 {
      return false;
    }
    ok := MaxPartyIdOk(added, curr.maxPartyId, next.maxPartyId, AddedBut(c, n, {}), n);
    if !ok {
      return;
    }
    if |removed| > 1 || |modified| > 1 || |added| + |removed| + |modified| > 1 {
      return false;
    }
    ok := CertificatesOk(added, certOk, AddedBut(c, n, {}), n);
    if !ok {
      return;
    }
    ok := CertificatesOk(modified, certOk, ModifiedBut(c, n, {}), n);
  }

  // Accepted configurations, one change at a time

  /** Of the entries with one id, the last counts. */
  lemma {:induction false} ByIdLast(parties: seq<Option<Party>>, id: PartyId)
    ensures id in ById(parties) <==> exists i :: 0 <= i < |parties| && IsPartyAt(parties, i, id)
    ensures id in ById(parties) ==>
              exists i :: 0 <= i < |parties| && parties[i] == Some(ById(parties)[id]) && IsPartyAt(parties, i, id)
                          && forall j | i < j < |parties| :: !IsPartyAt(parties, j, id)
  {
    if parties != [] {
      var n := |parties| - 1;
      ByIdLast(parties[..n], id);
      forall i | 0 <= i < n ensures IsPartyAt(parties, i, id) <==> IsPartyAt(parties[..n], i, id) {}
      if IsPartyAt(parties, n, id) {
        assert ById(parties)[id] == parties[n].value;
      } else if id in ById(parties[..n]) {
        var i :| 0 <= i < n && parties[..n][i] == Some(ById(parties[..n])[id]) && IsPartyAt(parties[..n], i, id)
                 && forall j | i < j < n :: !IsPartyAt(parties[..n], j, id);
        assert parties[i] == Some(ById(parties)[id]) && IsPartyAt(parties, i, id);
        forall j | i < j < |parties| ensures !IsPartyAt(parties, j, id) {}
      }
    }
  }

  predicate IsPartyAt(parties: seq<Option<Party>>, i: int, id: PartyId) {
    0 <= i < |parties| && parties[i].Some? && parties[i].value.id == id
  }

  /** A party may change all but its id, its number of batchers and the shards it lists. */
  ghost predicate MayBecome(p: Party, q: Party) {
    && q.id == p.id && q != p && |q.batchers| == |p.batchers|
    && (forall i | 0 <= i < |p.batchers| :: p.batchers[i].Some? && q.batchers[i].Some?)
    && (forall i | 0 <= i < |p.batchers| :: p.batchers[i] in q.batchers)
  }

  datatype Change = Nothing | Add(p: Party) | Drop(id: PartyId) | Alter(p: Party)

  /** A change that is allowed, and what it makes of the parties and of MaxPartyID. */
  ghost predicate Allowed(c: Parties, max: nat, certOk: Party -> bool, change: Change) {
    match change
    case Nothing => true
    case Add(p) => p.id == max + 1 < 0x1_0000_0000 && p.id !in c && certOk(p)
    case Drop(id) => id in c
    case Alter(p) => p.id in c && MayBecome(c[p.id], p) && certOk(p)
  }

  ghost function After(c: Parties, change: Change): Parties {
    match change
    case Nothing => c
    case Add(p) => c[p.id := p]
    case Drop(id) => c - {id}
    case Alter(p) => c[p.id := p]
  }

  ghost predicate Makes(c: Parties, n: Parties, max: nat, max': nat, certOk: Party -> bool, change: Change) {
    Allowed(c, max, certOk, change) && n == After(c, change) && max' == max + if change.Add? then 1 else 0
  }

  ghost predicate OneChange(curr: SharedConfig, next: SharedConfig, certOk: Party -> bool) {
    exists change :: Makes(ById(curr.parties), ById(next.parties), curr.maxPartyId, next.maxPartyId, certOk, change)
  }

  lemma MayBecomeExactly(p: Party, q: Party)
    requires p.id == q.id
    ensures Modified(p, q).Changed? <==> MayBecome(p, q)
  {
    if MayBecome(p, q) {
      forall x | x in Shards(p.batchers) ensures x in Shards(q.batchers) {
        var i :| 0 <= i < |p.batchers| && p.batchers[i] == Some(x);
        assert p.batchers[i] in q.batchers;
      }
    }
    if Modified(p, q).Changed? {
      forall i | 0 <= i < |p.batchers| ensures p.batchers[i] in q.batchers {
        assert p.batchers[i].value in Shards(p.batchers);
      }
    }
  }

  lemma OneOf(a: set<PartyId>, b: set<PartyId>, c: set<PartyId>)
    requires |a| + |b| + |c| <= 1
    ensures a == b == c == {} || (exists x :: a == {x} && b == c == {}) || (exists x :: b == {x} && a == c == {})
            || (exists x :: c == {x} && a == b == {})
  {
    if a != {} { var x :| x in a; assert |a - {x}| == 0; assert a == {x}; }
    if b != {} { var x :| x in b; assert |b - {x}| == 0; assert b == {x}; }
    if c != {} { var x :| x in c; assert |c - {x}| == 0; assert c == {x}; }
  }

  /** The change that an accepted transition makes. */
  lemma FindChange(c: Parties, n: Parties, max: nat, max': nat, certOk: Party -> bool) returns (change: Change)
    requires KeyedById(c) && KeyedById(n) && AcceptedParties(c, n, max, max', certOk)
    ensures Makes(c, n, max, max', certOk, change)
  {
    var added, removed, modified := AddedBut(c, n, {}), AddedBut(n, c, {}), ModifiedBut(c, n, {});
    OneOf(added, removed, modified);
    forall id | id in c && id in n && id !in modified ensures n[id] == c[id] {}
    forall id | id in c && id !in n ensures id in removed {}
    forall id | id in n && id !in c ensures id in added {}
    if added != {} {
      change := Add(n[max + 1]);
      assert max + 1 in added;
    } else if removed != {} {
      var x :| x in removed;
      change := Drop(x);
    } else if modified != {} {
      var x :| x in modified;
      change := Alter(n[x]);
      MayBecomeExactly(c[x], n[x]);
    } else {
      change := Nothing;
    }
    assert n == After(c, change);
  }

  lemma ChangeAccepted(c: Parties, n: Parties, max: nat, max': nat, certOk: Party -> bool, change: Change)
    requires KeyedById(c) && Makes(c, n, max, max', certOk, change)
    ensures AcceptedParties(c, n, max, max', certOk)
  {
    var added, removed, modified := AddedBut(c, n, {}), AddedBut(n, c, {}), ModifiedBut(c, n, {});
    if change.Alter? {
      MayBecomeExactly(c[change.p.id], change.p);
    }
    assert added == if change.Add? then {change.p.id} else {};
    assert removed == if change.Drop? then {change.id} else {};
    assert modified == if change.Alter? then {change.p.id} else {};
  }

  /**
   * A transition is accepted if and only if it changes nothing, or adds one party with the next number and a good
   * certificate, or removes one, or alters one that keeps its shards and has a good certificate.
   */
  lemma AcceptedExactly(curr: SharedConfig, next: SharedConfig, certOk: Party -> bool)
    ensures Accepted(curr, next, certOk) <==>
            NoNilParty(curr.parties) && NoNilParty(next.parties) && OneChange(curr, next, certOk)
  {
    var c, n, max, max' := ById(curr.parties), ById(next.parties), curr.maxPartyId, next.maxPartyId;
    ByIdHolds(curr.parties);
    ByIdHolds(next.parties);
    if Accepted(curr, next, certOk) {
      var change := FindChange(c, n, max, max', certOk);
    }
    if OneChange(curr, next, certOk) {
      var change :| Makes(c, n, max, max', certOk, change);
      ChangeAccepted(c, n, max, max', certOk, change);
    }
  }

  // ---------- validatePartyAndShardIDs ----------

  predicate PartyInRange(p: Party, maxPartyId: nat) {
    && 1 <= p.id <= 0xffff && p.id <= maxPartyId
    && forall i | 0 <= i < |p.batchers| :: p.batchers[i].Some? && 1 <= p.batchers[i].value < 0xffff
  }

  ghost predicate IdsInRange(parties: seq<Option<Party>>, maxPartyId: nat) {
    forall i | 0 <= i < |parties| :: parties[i].Some? && PartyInRange(parties[i].value, maxPartyId)
  }

  method ValidatePartyAndShardIds(parties: seq<Option<Party>>, maxPartyId: nat) returns (ok: bool)
    ensures ok <==> IdsInRange(parties, maxPartyId)
  {
    for i := 0 to |parties|
      invariant IdsInRange(parties[..i], maxPartyId)
    {
      if parties[i].None? {
        return false;
      }
      var p := parties[i].value;
      if p.id == 0 || p.id > 0xffff || p.id > maxPartyId {
        return false;
      }
      for j := 0 to |p.batchers|
        invariant forall k | 0 <= k < j :: p.batchers[k].Some? && 1 <= p.batchers[k].value < 0xffff
      {
        if p.batchers[j].None? || p.batchers[j].value == 0 || p.batchers[j].value >= 0xffff {
          return false;
        }
      }
      assert parties[..i + 1] == parties[..i] + [parties[i]];
    }
    assert parties[..|parties|] == parties;
    return true;
  }

  // ---------- What a modification can change ----------

  ghost predicate DistinctShards(batchers: seq<Option<nat>>) {
    forall i, j | 0 <= i < j < |batchers| :: batchers[i] != batchers[j]
  }

  /** A list names as many shards as it has entries exactly when none is nil and none repeats. */
  lemma {:induction false} ShardsSize(batchers: seq<Option<nat>>)
    ensures |Shards(batchers)| <= |batchers|
    ensures |Shards(batchers)| == |batchers| <==> NoNil(batchers) && DistinctShards(batchers)
  {
    if batchers != [] {
      var init, last := batchers[..|batchers| - 1], batchers[|batchers| - 1];
      assert batchers == init + [last];
      ShardsSize(init);
      assert Shards(batchers) == Shards(init) + (if last.Some? then {last.value} else {});
      assert last.Some? ==> (last.value in Shards(init) <==> last in init);
      assert DistinctShards(batchers) <==> DistinctShards(init) && last !in init;
    }
  }

  /** By pigeonhole, a party whose shards are distinct keeps exactly those shards. */
  lemma ModificationKeepsShards(curr: Party, next: Party)
    requires !Modified(curr, next).Invalid? && NoNil(curr.batchers) && DistinctShards(curr.batchers)
    ensures Shards(next.batchers) == Shards(curr.batchers)
    ensures NoNil(next.batchers) && DistinctShards(next.batchers)
  {
    ShardsSize(curr.batchers);
    ShardsSize(next.batchers);
    SubsetEqual(Shards(curr.batchers), Shards(next.batchers));
  }

  lemma SubsetEqual(a: set<nat>, b: set<nat>)
    requires a <= b && |a| >= |b|
    ensures a == b
  {
    if a != b {
      var x :| x in b && x !in a;
      SubsetSize(a, b - {x});
      assert false;
    }
  }

  lemma {:induction false} FreshBelow(s: set<nat>, n: nat) returns (x: nat)
    requires |s| < n
    ensures 1 <= x <= n && x !in s
  {
    if n !in s {
      x := n;
    } else {
      x := FreshBelow(s - {n}, n - 1);
    }
  }

  /**
   * Exactly when the shards of a party can change: a party listing one shard twice may trade the second
   * entry for another shard.  (The source's length and subset tests do not exclude this.)
   */
  lemma ShardsFixedExactly(curr: Party)
    requires NoNil(curr.batchers) && |curr.batchers| < 0xfffe
    ensures DistinctShards(curr.batchers) <==>
            forall next: Party | !Modified(curr, next).Invalid? :: Shards(next.batchers) == Shards(curr.batchers)
  {
    if DistinctShards(curr.batchers) {
      forall next: Party | !Modified(curr, next).Invalid? ensures Shards(next.batchers) == Shards(curr.batchers) {
        ModificationKeepsShards(curr, next);
      }
    } else {
      var i, j :| 0 <= i < j < |curr.batchers| && curr.batchers[i] == curr.batchers[j];
      ShardsSize(curr.batchers);
      var other := FreshBelow(Shards(curr.batchers), 0xfffe);
      var next := curr.(batchers := curr.batchers[j := Some(other)]);
      forall x | x in Shards(curr.batchers) ensures x in Shards(next.batchers) {
        var k :| 0 <= k < |curr.batchers| && curr.batchers[k] == Some(x);
        assert next.batchers[if k == j then i else k] == Some(x);
      }
      assert next.batchers[j] == Some(other);
      assert Modified(curr, next).Changed? && other in Shards(next.batchers);
    }
  }

  /** Two entries for shard 1 may become shards 1 and 2. */
  lemma DuplicateShardMayChange()
    ensures var curr := Party(1, [Some(1), Some(1)], 0);
            var next := Party(1, [Some(1), Some(2)], 0);
            Modified(curr, next).Changed? && 2 in Shards(next.batchers) && 2 !in Shards(curr.batchers)
  {
    var curr, next := Party(1, [Some(1), Some(1)], 0), Party(1, [Some(1), Some(2)], 0);
    assert next.batchers[0] == Some(1) && next.batchers[1] == Some(2);
    assert Shards(curr.batchers) == {1} && Shards(next.batchers) == {1, 2};
  }

  // ---------- Chains of accepted configurations ----------

  ghost function Ids(c: SharedConfig): set<PartyId> { ById(c.parties).Keys }

  ghost predicate Bounded(c: SharedConfig) { forall id | id in Ids(c) :: id <= c.maxPartyId }

  /** A genesis that keeps ids within MaxPartyID, and accepted transitions from there on. */
  ghost predicate IsChain(chain: seq<SharedConfig>, certOk: Party -> bool) {
    && chain != [] && Bounded(chain[0])
    && forall i {:trigger Linked(chain, certOk, i)} | 0 <= i < |chain| - 1 :: Linked(chain, certOk, i)
  }

  ghost predicate Linked(chain: seq<SharedConfig>, certOk: Party -> bool, i: nat)
    requires i < |chain| - 1
  {
    Accepted(chain[i], chain[i + 1], certOk)
  }

  lemma PartiesStep(c: Parties, n: Parties, max: nat, max': nat, certOk: Party -> bool)
    requires AcceptedParties(c, n, max, max', certOk)
    ensures max <= max' && forall id | id in n && id !in c :: max < id <= max'
  {
    forall id | id in n && id !in c ensures max < id <= max' { assert id in AddedBut(c, n, {}); }
  }

  lemma LinkStep(chain: seq<SharedConfig>, certOk: Party -> bool, i: nat)
    requires IsChain(chain, certOk) && i < |chain| - 1
    ensures chain[i].maxPartyId <= chain[i + 1].maxPartyId
    ensures forall id | id in Ids(chain[i + 1]) && id !in Ids(chain[i]) ::
              chain[i].maxPartyId < id <= chain[i + 1].maxPartyId
  {
    assert Linked(chain, certOk, i);
    var curr, next := chain[i], chain[i + 1];
    PartiesStep(ById(curr.parties), ById(next.parties), curr.maxPartyId, next.maxPartyId, certOk);
  }

  /** The ids and MaxPartyID of each configuration of a chain. */
  datatype Entry = Entry(ids: set<PartyId>, max: nat)

  ghost predicate Extends(e: Entry, e': Entry) {
    && e.max <= e'.max
    && (forall id | id in e'.ids && id !in e.ids :: e.max < id <= e'.max)
  }

  ghost predicate IsHistory(h: seq<Entry>) {
    && h != [] && (forall id | id in h[0].ids :: id <= h[0].max)
    && forall i | 0 <= i < |h| - 1 :: Extends(h[i], h[i + 1])
  }

  ghost function History(chain: seq<SharedConfig>): seq<Entry> {
    seq(|chain|, i requires 0 <= i < |chain| => Entry(Ids(chain[i]), chain[i].maxPartyId))
  }

  lemma ChainIsHistory(chain: seq<SharedConfig>, certOk: Party -> bool)
    requires IsChain(chain, certOk)
    ensures IsHistory(History(chain))
  {
    forall i | 0 <= i < |chain| - 1 ensures Extends(History(chain)[i], History(chain)[i + 1]) {
      LinkStep(chain, certOk, i);
    }
  }

  lemma {:induction false} HistoryBounded(h: seq<Entry>, i: nat)
    requires IsHistory(h) && i < |h|
    ensures forall id | id in h[i].ids :: id <= h[i].max
  {
    if i > 0 {
      HistoryBounded(h, i - 1);
      assert Extends(h[i - 1], h[i]);
    }
  }

  lemma {:induction false} MaxGrows(h: seq<Entry>, i: nat, j: nat)
    requires IsHistory(h) && i <= j < |h|
    ensures h[i].max <= h[j].max && forall id | id in h[i].ids :: id <= h[j].max
  {
    if i < j {
      MaxGrows(h, i, j - 1);
      assert Extends(h[j - 1], h[j]);
    } else {
      HistoryBounded(h, i);
    }
  }

  lemma {:induction false} IdsNotReused(h: seq<Entry>, i: nat, j: nat, k: nat, id: PartyId)
    requires IsHistory(h) && i <= j <= k < |h| && id in h[i].ids && id !in h[j].ids
    ensures id !in h[k].ids
    decreases k
  {
    if j < k {
      IdsNotReused(h, i, j, k - 1, id);
      MaxGrows(h, i, k - 1);
      assert Extends(h[k - 1], h[k]);
    }
  }

  /** MaxPartyID never decreases, and bounds every id used so far. */
  lemma MaxBoundsHistory(chain: seq<SharedConfig>, certOk: Party -> bool, i: nat, j: nat)
    requires IsChain(chain, certOk) && i <= j < |chain|
    ensures chain[i].maxPartyId <= chain[j].maxPartyId
    ensures forall id | id in Ids(chain[i]) :: id <= chain[j].maxPartyId
  {
    ChainIsHistory(chain, certOk);
    MaxGrows(History(chain), i, j);
  }

  /** The id of a removed party is never used again. */
  lemma RemovedIdNeverReturns(chain: seq<SharedConfig>, certOk: Party -> bool, i: nat, j: nat, k: nat, id: PartyId)
    requires IsChain(chain, certOk) && i <= j <= k < |chain| && id in Ids(chain[i]) && id !in Ids(chain[j])
    ensures id !in Ids(chain[k])
  {
    ChainIsHistory(chain, certOk);
    IdsNotReused(History(chain), i, j, k, id);
  }

  /** A party that is present before and after was present all along. */
  lemma PresentBetween(chain: seq<SharedConfig>, certOk: Party -> bool, i: nat, j: nat, k: nat, id: PartyId)
    requires IsChain(chain, certOk) && i <= j <= k < |chain| && id in Ids(chain[i]) && id in Ids(chain[k])
    ensures id in Ids(chain[j])
  {
    if id !in Ids(chain[j]) {
      RemovedIdNeverReturns(chain, certOk, i, j, k, id);
      assert false;
    }
  }

  ghost function PartyAt(c: SharedConfig, id: PartyId): Party
    requires id in Ids(c)
  {
    ById(c.parties)[id]
  }

  /** A well-formed list of exactly these shards, each once. */
  ghost predicate Serves(p: Party, shards: set<nat>) {
    Shards(p.batchers) == shards && NoNil(p.batchers) && DistinctShards(p.batchers)
  }

  lemma {:induction false} ModificationsKeepShards(trace: seq<Party>, shards: set<nat>)
    requires trace != [] && Serves(trace[0], shards)
    requires forall k | 0 <= k < |trace| - 1 :: !Modified(trace[k], trace[k + 1]).Invalid?
    ensures Serves(trace[|trace| - 1], shards)
  {
    var n := |trace| - 1;
    if n > 0 {
      ModificationsKeepShards(trace[..n], shards);
      ModificationKeepsShards(trace[n - 1], trace[n]);
    }
  }

  lemma LinkModification(chain: seq<SharedConfig>, certOk: Party -> bool, i: nat, id: PartyId)
    requires IsChain(chain, certOk) && i < |chain| - 1 && id in Ids(chain[i]) && id in Ids(chain[i + 1])
    ensures !Modified(PartyAt(chain[i], id), PartyAt(chain[i + 1], id)).Invalid?
  {
    assert Linked(chain, certOk, i);
  }

  /** A party that survives, and whose shards are distinct, keeps its shards. */
  lemma SurvivorKeepsShards(chain: seq<SharedConfig>, certOk: Party -> bool, i: nat, j: nat, id: PartyId,
                            shards: set<nat>)
    requires IsChain(chain, certOk) && i <= j < |chain| && id in Ids(chain[i]) && id in Ids(chain[j])
    requires Serves(PartyAt(chain[i], id), shards)
    ensures Serves(PartyAt(chain[j], id), shards)
  {
    forall k | i <= k <= j ensures id in Ids(chain[k]) { PresentBetween(chain, certOk, i, k, j, id); }
    var trace := seq(j - i + 1, k requires 0 <= k <= j - i => PartyAt(chain[i + k], id));
    forall k | 0 <= k < j - i ensures !Modified(trace[k], trace[k + 1]).Invalid? {
      LinkModification(chain, certOk, i + k, id);
    }
    ModificationsKeepShards(trace, shards);
  }

  // ---------- Quorums across a transition ----------

  ghost predicate DistinctIds(parties: seq<Option<Party>>) {
    forall i, j | 0 <= i < j < |parties| && parties[i].Some? && parties[j].Some? ::
      parties[i].value.id != parties[j].value.id
  }

  lemma {:induction false} DistinctIdsCount(parties: seq<Option<Party>>)
    requires NoNilParty(parties) && DistinctIds(parties)
    ensures |ById(parties).Keys| == |parties|
  {
    if parties != [] {
      var init, last := parties[..|parties| - 1], parties[|parties| - 1].value;
      DistinctIdsCount(init);
      ByIdHolds(init);
      forall id | id in ById(init) ensures id != last.id { assert Some(ById(init)[id]) in init; }
      assert ById(parties).Keys == ById(init).Keys + {last.id};
    }
  }

  lemma {:induction false} SizeWithin(s: set<nat>, n: nat)
    requires forall x | x in s :: 1 <= x <= n
    ensures |s| <= n
  {
    if n == 0 {
      assert s == {};
    } else {
      SizeWithin(s - {n}, n - 1);
    }
  }

  lemma PartiesWithin(c: SharedConfig)
    requires IdsInRange(c.parties, c.maxPartyId) && DistinctIds(c.parties)
    ensures |Ids(c)| == |c.parties| <= 0xffff
  {
    DistinctIdsCount(c.parties);
    ByIdHolds(c.parties);
    forall id | id in Ids(c) ensures 1 <= id <= 0xffff { assert Some(ById(c.parties)[id]) in c.parties; }
    SizeWithin(Ids(c), 0xffff);
  }

  lemma AcceptedIsOneApart(curr: SharedConfig, next: SharedConfig, certOk: Party -> bool)
    requires Accepted(curr, next, certOk)
    ensures OneApart(Ids(curr), Ids(next))
  {
    var c, n := ById(curr.parties), ById(next.parties);
    DifferenceIsOneApart(c.Keys, n.Keys, AddedBut(c, n, {}), AddedBut(n, c, {}));
  }

  lemma DifferenceIsOneApart(p: set<nat>, q: set<nat>, added: set<nat>, removed: set<nat>)
    requires (forall x :: x in added <==> x in q && x !in p) && (forall x :: x in removed <==> x in p && x !in q)
    requires |added| + |removed| <= 1
    ensures OneApart(p, q)
  {
    if x :| x in added {
      SizeOne(added, x);
      assert removed == {};
      assert q == p + {x};
    } else if x :| x in removed {
      SizeOne(removed, x);
      assert p == q + {x};
    } else {
      assert p == q;
    }
  }

  lemma SizeOne(s: set<nat>, x: nat)
    requires x in s
    ensures |s| >= 1
    ensures |s| <= 1 ==> s == {x}
  {
    assert |s - {x}| == |s| - 1;
    if |s| <= 1 { assert s - {x} == {}; }
  }

  /**
   * For every accepted transition, a quorum of the old configuration and a quorum of the new one share
   * at least f + 1 parties, f being the smaller fault bound.  Sizes are those the configuration applier
   * derives from the list of parties.
   */
  lemma AcceptedQuorumsIntersect(curr: SharedConfig, next: SharedConfig, certOk: Party -> bool, a: set<PartyId>,
                                 b: set<PartyId>)
    requires Accepted(curr, next, certOk)
    requires IdsInRange(curr.parties, curr.maxPartyId) && DistinctIds(curr.parties)
    requires IdsInRange(next.parties, next.maxPartyId) && DistinctIds(next.parties)
    requires a <= Ids(curr) && |a| >= Q(|curr.parties|) && b <= Ids(next) && |b| >= Q(|next.parties|)
    ensures var f, f' := F(|curr.parties|), F(|next.parties|); |a * b| >= (if f <= f' then f else f') + 1
  {
    AcceptedIsOneApart(curr, next, certOk);
    PartiesWithin(curr);
    PartiesWithin(next);
    TransitionQuorumsIntersect(Ids(curr), Ids(next), a, b);
  }
}
