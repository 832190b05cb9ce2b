/** Counting facts about finite sets and maps. */
module Finite {

  ghost predicate Distinct<T>(s: seq<T>) {
    forall i, j | 0 <= i < j < |s| :: s[i] != s[j]
  }

  ghost function Elements<T>(s: seq<T>): set<T> { set x | x in s }

  lemma ElementsNext<T>(s: seq<T>, i: nat)
    requires i < |s|
    ensures Elements(s[..i + 1]) == Elements(s[..i]) + {s[i]}
  {
    assert s[..i + 1] == s[..i] + [s[i]];
  }

  /** A list without repetitions is as long as its set of elements. */
  lemma {:induction false} DistinctSize<T>(s: seq<T>)
    requires Distinct(s)
    ensures |Elements(s)| == |s|
  {
    if s != [] {
      var init, last := s[..|s| - 1], s[|s| - 1];
      DistinctSize(init);
      assert s == init + [last];
      assert Elements(s) == Elements(init) + {last};
    }
  }

  lemma LastElement<T>(s: seq<T>)
    requires s != [] && Distinct(s)
    ensures var k := |s| - 1; Elements(s) == Elements(s[..k]) + {s[k]} && |Elements(s[..k])| == k
    ensures s[|s| - 1] !in Elements(s[..|s| - 1])
  {
    var k := |s| - 1;
    DistinctSize(s[..k]);
    ElementsNext(s, k);
    assert s[..k + 1] == s;
  }

  /** Every finite set can be listed, in some order. */
  lemma {:induction false} Enumerate<T>(s: set<T>) returns (list: seq<T>)
    ensures Distinct(list) && Elements(list) == s
    decreases s
  {
    if s == {} {
      list := [];
    } else {
      var x :| x in s;
      var rest := Enumerate(s - {x});
      forall j | 0 <= j < |rest| ensures rest[j] != x { assert rest[j] in Elements(rest); }
      list := rest + [x];
      assert Elements(list) == Elements(rest) + {x};
    }
  }

  lemma MapMinusOne<K, V>(m: map<K, V>, done: set<K>, k: K)
    ensures m - done - {k} == m - (done + {k})
  {
  }

  lemma SetMinusOne<T>(s: set<T>, done: set<T>, x: T)
    ensures s - done - {x} == s - (done + {x})
  {
  }

  ghost predicate Injective<A, B>(m: map<A, B>) {
    forall x, y | x in m && y in m && m[x] == m[y] :: x == y
  }

  /** An injective map has as many keys as values. */
  lemma {:induction false} InjectiveSize<A, B>(m: map<A, B>)
    requires Injective(m)
    ensures |m.Keys| == |m.Values|
    decreases |m.Keys|
  {
    if m.Keys != {} {
      var k :| k in m.Keys;
      var rest := m - {k};
      assert rest.Keys == m.Keys - {k};
      assert rest.Values == m.Values - {m[k]} by {
        forall v | v in m.Values - {m[k]} ensures v in rest.Values {
          var j :| j in m && m[j] == v;
          assert j in rest && rest[j] == v;
        }
      }
      InjectiveSize(rest);
    }
  }

  lemma {:induction false} SubsetSize<T>(a: set<T>, b: set<T>)
    requires a <= b
    ensures |a| <= |b|
    decreases |b|
  {
    if a != {} {
      var x :| x in a;
      SubsetSize(a - {x}, b - {x});
    }
  }

  /** Inclusion and exclusion. */
  lemma UnionSize<T>(a: set<T>, b: set<T>)
    ensures |a + b| + |a * b| == |a| + |b|
  {
  }

  /** The sum of the values of a map. */
  ghost function Sum<A>(m: map<A, nat>): nat
    decreases |m.Keys|
  {
    if m.Keys == {} then 0
    else
      var k :| k in m.Keys;
      assert (m - {k}).Keys == m.Keys - {k};
      m[k] + Sum(m - {k})
  }

  /** Any key may be split off. */
  lemma {:induction false} SumRemove<A>(m: map<A, nat>, k: A)
    requires k in m
    ensures Sum(m) == m[k] + Sum(m - {k})
    decreases |m.Keys|
  {
    var j :| j in m.Keys && Sum(m) == m[j] + Sum(m - {j});
    if j != k {
      assert (m - {j}).Keys == m.Keys - {j} && (m - {k}).Keys == m.Keys - {k};
      SumRemove(m - {j}, k);
      SumRemove(m - {k}, j);
      assert m - {j} - {k} == m - {k} - {j};
    }
  }

  lemma SumInsert<A>(m: map<A, nat>, k: A, v: nat)
    requires k !in m
    ensures Sum(m[k := v]) == Sum(m) + v && |m[k := v].Keys| == |m.Keys| + 1
  {
    SumRemove(m[k := v], k);
    assert m[k := v] - {k} == m;
    assert m[k := v].Keys == m.Keys + {k};
  }

  lemma SumDelete<A>(m: map<A, nat>, k: A)
    requires k in m
    ensures Sum(m - {k}) == Sum(m) - m[k] && |(m - {k}).Keys| == |m.Keys| - 1
  {
    SumRemove(m, k);
    assert (m - {k}).Keys == m.Keys - {k};
  }

  /** A part sums to at most the whole. */
  lemma {:induction false} SumPart<A>(part: map<A, nat>, whole: map<A, nat>)
    requires forall k | k in part :: k in whole && part[k] == whole[k]
    ensures Sum(part) <= Sum(whole) && |part.Keys| <= |whole.Keys|
    decreases |part.Keys|
  {
    SubsetSize(part.Keys, whole.Keys);
    if part.Keys != {} {
      var k :| k in part.Keys;
      assert (part - {k}).Keys == part.Keys - {k};
      SumRemove(part, k);
      SumRemove(whole, k);
      SumPart(part - {k}, whole - {k});
    }
  }

  /** A part that misses a key of the whole leaves room for its value. */
  lemma SumProperPart<A>(part: map<A, nat>, whole: map<A, nat>, k: A)
    requires forall j | j in part :: j in whole && part[j] == whole[j]
    requires k !in part && k in whole
    ensures Sum(part) + whole[k] <= Sum(whole) && |part.Keys| + 1 <= |whole.Keys|
  {
    SumPart(part, whole - {k});
    SumDelete(whole, k);
  }
}
