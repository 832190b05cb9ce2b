/**
 * Lists of the requests of a store: each request once, and bucket by bucket, but in any order within a
 * bucket, as ranging over a Go map visits it in any order.
 */
module Listing {
  type Id = string
  type Bytes = seq<nat>
  type Requests = map<Id, Bytes>
  type List = seq<(Id, Bytes)>

  /** The list has every entry of m, once. */
  ghost predicate ListsAll(list: List, m: Requests) {
    && (forall i, j | 0 <= i < j < |list| :: list[i].0 != list[j].0)
    && (forall i | 0 <= i < |list| :: list[i].0 in m && m[list[i].0] == list[i].1)
    && (forall id | id in m :: (id, m[id]) in list)
  }

  /** The entries of a map, in any order. */
  method ListRequests(m: Requests) returns (list: List)
    ensures ListsAll(list, m)
  {
    list := [];
    var todo := m.Keys;
    while todo != {}
      invariant todo <= m.Keys && forall i, j | 0 <= i < j < |list| :: list[i].0 != list[j].0
      invariant forall i | 0 <= i < |list| :: list[i].0 in m && m[list[i].0] == list[i].1 && list[i].0 !in todo
      invariant forall id | id in m && id !in todo :: (id, m[id]) in list
      decreases todo
    {
      var id :| id in todo;
      todo := todo - {id};
      assert (list + [(id, m[id])])[|list|] == (id, m[id]);
      list := list + [(id, m[id])];
    }
  }

  lemma {:induction false} ListsAllSize(list: List, m: Requests)
    requires ListsAll(list, m)
    ensures |list| == |m.Keys|
  {
    if list == [] {
      if id :| id in m {
        assert (id, m[id]) in list;
      }
      assert m.Keys == {};
    } else {
      var n := |list| - 1;
      var id := list[n].0;
      forall x | x in m - {id} ensures (x, (m - {id})[x]) in list[..n] {
        assert (x, m[x]) in list;
        var k :| 0 <= k < |list| && list[k] == (x, m[x]);
        assert list[..n][k] == (x, m[x]);
      }
      ListsAllSize(list[..n], m - {id});
      assert (m - {id}).Keys == m.Keys - {id};
    }
  }

  lemma ListsAllNext(list: List, i: nat, m: Requests)
    requires i < |list| && ListsAll(list[..i], m) && forall j | 0 <= j < i :: list[j].0 != list[i].0
    ensures list[i].0 !in m && ListsAll(list[..i + 1], m[list[i].0 := list[i].1])
  {
    assert list[..i + 1] == list[..i] + [list[i]];
    assert (list[..i] + [list[i]])[i] == list[i];
    forall id | id in m ensures (id, m[id]) in list[..i + 1] { assert (id, m[id]) in list[..i]; }
  }

  lemma ListsAllSame(list: List, m: Requests, m': Requests)
    requires ListsAll(list, m) && ListsAll(list, m')
    ensures m == m'
  {
    forall id | id in m ensures id in m' && m'[id] == m[id] { assert (id, m[id]) in list; }
    forall id | id in m' ensures id in m { assert (id, m'[id]) in list; }
  }

  lemma {:induction false} SomeList(m: Requests) returns (list: List)
    ensures ListsAll(list, m)
    decreases |m.Keys|
  {
    if m.Keys == {} {
      list := [];
    } else {
      var id :| id in m.Keys;
      assert (m - {id}).Keys == m.Keys - {id};
      var rest := SomeList(m - {id});
      list := PutFirst(m, id, rest);
    }
  }

  lemma PutFirst(m: Requests, id: Id, rest: List) returns (list: List)
    requires id in m && ListsAll(rest, m - {id})
    ensures list == [(id, m[id])] + rest && ListsAll(list, m)
  {
    list := [(id, m[id])] + rest;
    forall x | x in m ensures (x, m[x]) in list {
      if x == id {
        assert list[0] == (x, m[x]);
      } else {
        assert (x, (m - {id})[x]) in rest;
      }
    }
  }

  // ---------- Bucket by bucket ----------

  /** The list has the requests of the groups, one group after the other, each in any order. */
  ghost predicate Grouped(list: List, groups: seq<Requests>)
    decreases |groups|, 1
  {
    if groups == [] then list == []
    else exists k :: SplitsAt(list, groups, k)
  }

  ghost predicate SplitsAt(list: List, groups: seq<Requests>, k: nat)
    requires groups != []
    decreases |groups|, 0
  {
    k <= |list| && ListsAll(list[k..], groups[|groups| - 1]) && Grouped(list[..k], groups[..|groups| - 1])
  }

  lemma GroupedMore(list: List, groups: seq<Requests>, part: List, group: Requests)
    requires Grouped(list, groups) && ListsAll(part, group)
    ensures Grouped(list + part, groups + [group])
  {
    assert (list + part)[|list|..] == part && (list + part)[..|list|] == list;
    assert (groups + [group])[..|groups|] == groups;
    assert SplitsAt(list + part, groups + [group], |list|);
  }

  lemma {:induction false} SomeGrouped(groups: seq<Requests>) returns (list: List)
    ensures Grouped(list, groups)
  {
    if groups == [] {
      list := [];
    } else {
      var init, last := groups[..|groups| - 1], groups[|groups| - 1];
      var l := SomeGrouped(init);
      var p := SomeList(last);
      GroupedMore(l, init, p, last);
      assert init + [last] == groups;
      list := l + p;
    }
  }

  lemma {:induction false} GroupedFrom(list: List, groups: seq<Requests>, i: nat) returns (g: nat)
    requires Grouped(list, groups) && i < |list|
    ensures g < |groups| && list[i].0 in groups[g]
    decreases |groups|
  {
    var k: nat :| SplitsAt(list, groups, k);
    if i < k {
      g := GroupedFrom(list[..k], groups[..|groups| - 1], i);
    } else {
      g := |groups| - 1;
      assert list[k..][i - k] == list[i];
    }
  }

  /** Every entry of m is in exactly one of the groups, and they have nothing else. */
  ghost predicate Parts(groups: seq<Requests>, m: Requests) {
    && (forall i, x | 0 <= i < |groups| && x in groups[i] :: x in m && m[x] == groups[i][x])
    && (forall i, j, x | 0 <= i < j < |groups| && x in groups[i] :: x !in groups[j])
    && (forall x | x in m :: exists i :: 0 <= i < |groups| && x in groups[i])
  }

  lemma PartsInit(groups: seq<Requests>, m: Requests)
    requires groups != [] && Parts(groups, m)
    ensures var n := |groups| - 1; Parts(groups[..n], m - groups[n].Keys)
    ensures forall x | x in groups[|groups| - 1] :: x in m && m[x] == groups[|groups| - 1][x]
  {
    var n := |groups| - 1;
    forall x | x in m - groups[n].Keys ensures exists i :: 0 <= i < n && x in groups[..n][i] {
      var i :| 0 <= i < |groups| && x in groups[i];
      assert groups[..n][i] == groups[i];
    }
  }

  lemma PartsNone(m: Requests)
    requires Parts([], m)
    ensures m == map[]
  {
    assert m.Keys == {};
  }

  lemma ListsAllAppend(whole: List, list: List, part: List, m: Requests, group: Requests)
    requires whole == list + part && ListsAll(list, m - group.Keys) && ListsAll(part, group)
    requires forall x | x in group :: x in m && m[x] == group[x]
    ensures ListsAll(whole, m)
  {
    forall x | x in m ensures (x, m[x]) in whole {
      if x in group {
        assert (x, group[x]) in part;
      } else {
        assert (x, (m - group.Keys)[x]) in list;
      }
    }
  }

  lemma LastGroup(list: List, k: nat, m: Requests, group: Requests)
    requires k <= |list| && ListsAll(list[..k], m - group.Keys) && ListsAll(list[k..], group)
    requires forall x | x in group :: x in m && m[x] == group[x]
    ensures ListsAll(list, m)
  {
    ListsAllAppend(list, list[..k], list[k..], m, group);
  }

  lemma {:induction false} GroupedListsAll(list: List, groups: seq<Requests>, m: Requests)
    requires Grouped(list, groups) && Parts(groups, m)
    ensures ListsAll(list, m)
    decreases |groups|
  {
    if groups == [] {
      PartsNone(m);
    } else {
      var n := |groups| - 1;
      var k: nat :| SplitsAt(list, groups, k);
      PartsInit(groups, m);
      GroupedListsAll(list[..k], groups[..n], m - groups[n].Keys);
      LastGroup(list, k, m, groups[n]);
    }
  }

  // ---------- In the order of arrival ----------

  type Arrivals = map<Id, nat>

  /** Every request has its own time of arrival, and those of an earlier group arrived earlier. */
  ghost predicate Chronological(groups: seq<Requests>, at: Arrivals) {
    && (forall i, x | 0 <= i < |groups| && x in groups[i] :: x in at)
    && (forall i, x, y | 0 <= i < |groups| && x in groups[i] && y in groups[i] && x != y :: at[x] != at[y])
    && (forall i, j, x, y | 0 <= i < j < |groups| && x in groups[i] && y in groups[j] :: at[x] < at[y])
  }

  ghost predicate InOrder(list: List, at: Arrivals) {
    forall i, j | 0 <= i < j < |list| :: Before(list[i], list[j], at)
  }

  ghost predicate Before(x: (Id, Bytes), y: (Id, Bytes), at: Arrivals) { x.0 in at && y.0 in at && at[x.0] < at[y.0] }

  ghost predicate AtMostOneEach(groups: seq<Requests>) {
    forall i | 0 <= i < |groups| :: |groups[i].Keys| <= 1
  }

  lemma LaterGroup(list: List, groups: seq<Requests>, k: nat, i: nat, j: nat, at: Arrivals)
    requires groups != [] && SplitsAt(list, groups, k) && Chronological(groups, at) && i < k <= j < |list|
    ensures Before(list[i], list[j], at)
  {
    var n := |groups| - 1;
    assert list[k..][j - k] == list[j];
    var g := GroupedFrom(list[..k], groups[..n], i);
    assert list[..k][i] == list[i] && groups[..n][g] == groups[g];
  }

  lemma InOrderMore(list: List, k: nat, at: Arrivals)
    requires |list| - 1 <= k <= |list| && InOrder(list[..k], at)
    requires forall i, j | 0 <= i < k <= j < |list| :: Before(list[i], list[j], at)
    ensures InOrder(list, at)
  {
    forall i, j | 0 <= i < j < |list| ensures Before(list[i], list[j], at) {
      assert j < k ==> list[..k][i] == list[i] && list[..k][j] == list[j];
    }
  }

  lemma {:induction false} SmallGroupsInOrder(list: List, groups: seq<Requests>, at: Arrivals)
    requires Grouped(list, groups) && Chronological(groups, at) && AtMostOneEach(groups)
    ensures InOrder(list, at)
    decreases |groups|
  {
    if groups != [] {
      var n := |groups| - 1;
      var k: nat :| SplitsAt(list, groups, k);
      assert Chronological(groups[..n], at);
      SmallGroupsInOrder(list[..k], groups[..n], at);
      ListsAllSize(list[k..], groups[n]);
      forall i, j | 0 <= i < k <= j < |list| ensures Before(list[i], list[j], at) {
        LaterGroup(list, groups, k, i, j, at);
      }
      InOrderMore(list, k, at);
    }
  }

  lemma StillOutOfOrder(l: List, p: List, at: Arrivals)
    requires !InOrder(l, at)
    ensures !InOrder(l + p, at)
  {
    var a, b :| 0 <= a < b < |l| && !Before(l[a], l[b], at);
    assert (l + p)[a] == l[a] && (l + p)[b] == l[b];
  }

  lemma ReversedList(m: Requests, x: Id, y: Id) returns (list: List)
    requires x in m && y in m && x != y
    ensures ListsAll(list, m) && |list| >= 2 && list[0].0 == y && list[1].0 == x
  {
    var rest := SomeList(m - {y} - {x});
    var p := PutFirst(m - {y}, x, rest);
    list := PutFirst(m, y, p);
  }

  /** Two requests of one group can be listed in either order. */
  lemma {:induction false} CanReverse(groups: seq<Requests>, at: Arrivals, i: nat, x: Id, y: Id) returns (list: List)
    requires i < |groups| && x in groups[i] && y in groups[i] && x in at && y in at && at[x] < at[y]
    ensures Grouped(list, groups) && !InOrder(list, at)
    decreases |groups|
  {
    var n := |groups| - 1;
    var init, last := groups[..n], groups[n];
    assert init + [last] == groups;
    if i < n {
      var l := CanReverse(init, at, i, x, y);
      var p := SomeList(last);
      GroupedMore(l, init, p, last);
      StillOutOfOrder(l, p, at);
      list := l + p;
    } else {
      var l := SomeGrouped(init);
      var p := ReversedList(last, x, y);
      GroupedMore(l, init, p, last);
      list := l + p;
      assert list[|l|] == p[0] && list[|l| + 1] == p[1];
    }
  }

  lemma TwoKeys(m: Requests) returns (x: Id, y: Id)
    requires |m.Keys| > 1
    ensures x in m && y in m && x != y
  {
    x :| x in m.Keys;
    assert |m.Keys - {x}| >= 1;
    y :| y in m.Keys - {x};
  }

  /** Every list that can come out is in the order of arrival if and only if no group has two requests. */
  lemma ArrivalOrderExactly(groups: seq<Requests>, at: Arrivals)
    requires Chronological(groups, at)
    ensures (forall list | Grouped(list, groups) :: InOrder(list, at)) <==> AtMostOneEach(groups)
  {
    if AtMostOneEach(groups) {
      forall list | Grouped(list, groups) ensures InOrder(list, at) { SmallGroupsInOrder(list, groups, at); }
    } else {
      var i :| 0 <= i < |groups| && |groups[i].Keys| > 1;
      var x, y := TwoKeys(groups[i]);
      var early, late := if at[x] < at[y] then x else y, if at[x] < at[y] then y else x;
      var list := CanReverse(groups, at, i, early, late);
    }
  }

  /** Two requests in one bucket, of which the later one is listed first. */
  lemma LaterFirst()
    ensures var groups: seq<Requests>, at: Arrivals := [map["a" := [], "b" := []]], map["a" := 0, "b" := 1];
            var list: List := [("b", []), ("a", [])];
            Chronological(groups, at) && Grouped(list, groups) && !InOrder(list, at)
  {
    var groups: seq<Requests>, at: Arrivals := [map["a" := [], "b" := []]], map["a" := 0, "b" := 1];
    var list: List := [("b", []), ("a", [])];
    assert list[0] == ("b", []) && list[1] == ("a", []);
    assert list[0..] == list && list[..0] == [];
    assert groups[..0] == [];
    assert SplitsAt(list, groups, 0);
  }
}
