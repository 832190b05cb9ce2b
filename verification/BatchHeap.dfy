/**
 * A binary heap of batches that knows the position of each of them, so that any batch can be taken
 * out.  The sift operations are those of Go's container/heap.
 */
module BatchHeaps {
  import opened Wrappers
  import opened BatchIds
  import opened BatchMapping

  datatype Item<T> = Item(batch: Batch, value: T)

  // ---------- Heap order, on the sequence of keys ----------

  function Parent(k: nat): nat
    requires k > 0
  {
    (k - 1) / 2
  }

  /** The first n keys form a heap. */
  ghost predicate Heap(ks: seq<int>, n: nat)
    requires n <= |ks|
  {
    forall k | 0 < k < n :: ks[Parent(k)] <= ks[k]
  }

  /** A heap but for the pairs that i belongs to. */
  ghost predicate HeapExcept(ks: seq<int>, n: nat, i: nat)
    requires n <= |ks|
  {
    forall k | 0 < k < n && k != i && Parent(k) != i :: ks[Parent(k)] <= ks[k]
  }

  /** The children of i are in order with its parent. */
  ghost predicate Bridged(ks: seq<int>, n: nat, i: nat)
    requires i < n <= |ks|
  {
    i > 0 ==> forall k | 0 < k < n && Parent(k) == i :: ks[Parent(i)] <= ks[k]
  }

  ghost predicate Above(ks: seq<int>, i: nat)
    requires i < |ks|
  {
    i > 0 ==> ks[Parent(i)] <= ks[i]
  }

  ghost predicate Below(ks: seq<int>, n: nat, i: nat)
    requires i < n <= |ks|
  {
    forall k | 0 < k < n && Parent(k) == i :: ks[i] <= ks[k]
  }

  function Swapped<A>(s: seq<A>, i: nat, j: nat): seq<A>
    requires i < |s| && j < |s|
  {
    s[i := s[j]][j := s[i]]
  }

  /** Swapping i with the smaller of its children moves the disorder down. */
  lemma DownStep(ks: seq<int>, n: nat, i: nat, j: nat)
    requires 0 < j < n <= |ks| && Parent(j) == i && ks[j] < ks[i]
    requires HeapExcept(ks, n, i) && Bridged(ks, n, i)
    requires forall k | 0 < k < n && Parent(k) == i :: ks[j] <= ks[k]
    ensures var ks' := Swapped(ks, i, j); HeapExcept(ks', n, j) && Bridged(ks', n, j) && Above(ks', j)
  {
  }

  /** Swapping j with its parent moves the disorder up. */
  lemma UpStep(ks: seq<int>, n: nat, j: nat)
    requires 0 < j < n <= |ks| && ks[j] < ks[Parent(j)]
    requires HeapExcept(ks, n, j) && Bridged(ks, n, j) && Below(ks, n, j)
    ensures var i := Parent(j);
            var ks' := Swapped(ks, i, j); HeapExcept(ks', n, i) && Bridged(ks', n, i) && Below(ks', n, i)
  {
    var i := Parent(j);
    assert i > 0 ==> ks[Parent(i)] <= ks[i];
    assert forall k | 0 < k < n && Parent(k) == i && k != j :: ks[i] <= ks[k];
  }

  /** The root is a minimum. */
  lemma {:induction false} RootIsMinimum(ks: seq<int>, n: nat, k: nat)
    requires k < n <= |ks| && Heap(ks, n)
    ensures ks[0] <= ks[k]
  {
    if k > 0 {
      RootIsMinimum(ks, n, Parent(k));
    }
  }

  /** Bringing the last key to a place inside leaves disorder around that place only. */
  lemma LastMoved(ks: seq<int>, i: nat)
    requires i < |ks| && Heap(ks, |ks|)
    ensures var n, ks' := |ks| - 1, Swapped(ks, i, |ks| - 1); HeapExcept(ks', n, i) && (i < n ==> Bridged(ks', n, i))
  {
    assert i > 0 ==> ks[Parent(i)] <= ks[i];
  }

  // ---------- The heap ----------

  function KeysOf<T>(key: BatchId -> int, data: seq<Item<T>>): seq<int> {
    seq(|data|, i requires 0 <= i < |data| => key(data[i].batch.id))
  }

  lemma KeysSwapped<T>(key: BatchId -> int, data: seq<Item<T>>, i: nat, j: nat)
    requires i < |data| && j < |data|
    ensures KeysOf(key, Swapped(data, i, j)) == Swapped(KeysOf(key, data), i, j)
  {
  }

  ghost predicate IndexedAt<T>(data: seq<Item<T>>, idx: map<BatchId, nat>, i: nat) {
    i < |data| ==> data[i].batch.id in idx && idx[data[i].batch.id] == i
  }

  ghost predicate Located<T>(data: seq<Item<T>>, idx: map<BatchId, nat>, id: BatchId) {
    id in idx ==> idx[id] < |data| && data[idx[id]].batch.id == id
  }

  /** The index maps each item to its slot, and nothing else. */
  ghost predicate Exact<T>(data: seq<Item<T>>, idx: map<BatchId, nat>) {
    && (forall i {:trigger IndexedAt(data, idx, i)} :: IndexedAt(data, idx, i))
    && (forall id {:trigger Located(data, idx, id)} :: Located(data, idx, id))
  }

  ghost function ItemsOf<T>(data: seq<Item<T>>, idx: map<BatchId, nat>): map<BatchId, Item<T>>
    requires Exact(data, idx)
  {
    map id | id in idx :: assert Located(data, idx, id); data[idx[id]]
  }

  lemma SwapExact<T>(data: seq<Item<T>>, idx: map<BatchId, nat>, i: nat, j: nat)
    requires Exact(data, idx) && i < |data| && j < |data|
    ensures var data' := Swapped(data, i, j);
            var idx' := idx[data[j].batch.id := i][data[i].batch.id := j];
            Exact(data', idx') && ItemsOf(data', idx') == ItemsOf(data, idx)
  {
    var data' := Swapped(data, i, j);
    var idx' := idx[data[j].batch.id := i][data[i].batch.id := j];
    assert IndexedAt(data, idx, i) && IndexedAt(data, idx, j);
    forall k: nat ensures IndexedAt(data', idx', k) { assert IndexedAt(data, idx, k); }
    forall id ensures Located(data', idx', id) && (id in idx ==> data'[idx'[id]] == data[idx[id]]) {
      assert Located(data, idx, id);
    }
  }

  lemma DropExact<T>(data: seq<Item<T>>, idx: map<BatchId, nat>)
    requires Exact(data, idx) && data != []
    ensures var data', id := data[..|data| - 1], data[|data| - 1].batch.id;
            Exact(data', idx - {id}) && ItemsOf(data', idx - {id}) == ItemsOf(data, idx) - {id}
  {
    var n := |data| - 1;
    var data', idx' := data[..n], idx - {data[n].batch.id};
    assert IndexedAt(data, idx, n);
    forall k: nat ensures IndexedAt(data', idx', k) { assert IndexedAt(data, idx, k); }
    forall id ensures Located(data', idx', id) && (id in idx' ==> data'[idx'[id]] == data[idx[id]]) {
      assert Located(data, idx, id);
    }
  }

  lemma AppendExact<T>(data: seq<Item<T>>, idx: map<BatchId, nat>, item: Item<T>)
    requires Exact(data, idx) && item.batch.id !in idx
    ensures var data', idx' := data + [item], idx[item.batch.id := |data|];
            Exact(data', idx') && ItemsOf(data', idx') == ItemsOf(data, idx)[item.batch.id := item]
  {
    var data', idx' := data + [item], idx[item.batch.id := |data|];
    forall k: nat ensures IndexedAt(data', idx', k) { assert IndexedAt(data, idx, k); }
    forall id ensures Located(data', idx', id) && (id in idx ==> data'[idx'[id]] == data[idx[id]]) {
      assert Located(data, idx, id);
    }
  }

  class BatchHeap<T> {
    /** Batches are ordered by this key of their ids. */
    const key: BatchId -> int
    const partition: Partition
    var data: seq<Item<T>>
    /** The position of each batch. */
    const index: BatchMapper<nat>

    ghost predicate Indexed()
      reads this, index
    {
      index.Valid() && index.partition == partition && Exact(data, index.contents)
    }

    ghost function Keys(): seq<int>
      reads this
    {
      KeysOf(key, data)
    }

    ghost predicate Valid()
      reads this, index
    {
      Indexed() && Heap(Keys(), |data|)
    }

    /** The contents. */
    ghost function Items(): map<BatchId, Item<T>>
      requires Indexed()
      reads this, index
    {
      ItemsOf(data, index.contents)
    }

    constructor (partition: Partition, key: BatchId -> int)
      ensures Valid() && fresh(index) && this.partition == partition && this.key == key && Items() == map[]
    {
      this.partition, this.key, data := partition, key, [];
      index := new BatchMapper(partition);
    }

    method Swap(i: nat, j: nat)
      requires Indexed() && i < |data| && j < |data|
      modifies this`data, index
      ensures Indexed() && data == Swapped(old(data), i, j) && Keys() == Swapped(old(Keys()), i, j)
      ensures Items() == old(Items())
    {
      KeysSwapped(key, data, i, j);
      SwapExact(data, index.contents, i, j);
      assert IndexedAt(data, index.contents, i) && IndexedAt(data, index.contents, j);
      index.AllFiled();
      data := Swapped(data, i, j);
      index.Put(data[i].batch.id, i);
      index.Put(data[j].batch.id, j);
    }

    /** What sifting among the first n leaves as it is. */
    twostate predicate SameContents(n: nat)
      reads this, index
    {
      && old(Indexed()) && Indexed() && Items() == old(Items()) && |data| == |old(data)|
      && forall k | n <= k < |data| :: data[k] == old(data)[k]
    }

    /** Moves the item at j up to its place among the first n. */
    method Up(j: nat, ghost n: nat)
      requires Indexed() && j < n <= |data|
      requires HeapExcept(Keys(), n, j) && Bridged(Keys(), n, j) && Below(Keys(), n, j)
      modifies this`data, index
      ensures SameContents(n) && Heap(Keys(), n)
    {
      var j: nat := j;
      while true
        invariant SameContents(n) && j < n
        invariant HeapExcept(Keys(), n, j) && Bridged(Keys(), n, j) && Below(Keys(), n, j)
        decreases j
      {
        if j == 0 || !(key(data[j].batch.id) < key(data[Parent(j)].batch.id)) {
          break;
        }
        UpStep(Keys(), n, j);
        Swap(Parent(j), j);
        j := Parent(j);
      }
    }

    /** The child of i with the lower key. */
    method LowerChild(i: nat, n: nat) returns (j: nat)
      requires 2 * i + 1 < n <= |data|
      ensures 0 < j < n && Parent(j) == i
      ensures forall k | 0 < k < n && Parent(k) == i :: Keys()[j] <= Keys()[k]
    {
      var left := 2 * i + 1;
      j := left;
      if left + 1 < n && key(data[left + 1].batch.id) < key(data[left].batch.id) {
        j := left + 1;
      }
      assert forall k | 0 < k < n && Parent(k) == i :: k == left || k == left + 1;
    }

    /** Swaps the item at i with its lower child, if that is out of order. */
    method DownOnce(i: nat, n: nat) returns (j: nat)
      requires Indexed() && 2 * i + 1 < n <= |data|
      requires HeapExcept(Keys(), n, i) && Bridged(Keys(), n, i)
      modifies this`data, index
      ensures SameContents(n) && i <= j < n
      ensures if j == i then data == old(data) && Below(Keys(), n, i)
              else HeapExcept(Keys(), n, j) && Bridged(Keys(), n, j) && Above(Keys(), j)
    {
      j := LowerChild(i, n);
      if !(key(data[j].batch.id) < key(data[i].batch.id)) {
        return i;
      }
      DownStep(Keys(), n, i, j);
      Swap(i, j);
    }

    /** Moves the item at i0 down to its place among the first n, and says whether it moved. */
    method Down(i0: nat, n: nat) returns (moved: bool)
      requires Indexed() && i0 < n <= |data|
      requires HeapExcept(Keys(), n, i0) && Bridged(Keys(), n, i0)
      modifies this`data, index
      ensures SameContents(n)
      ensures if moved then Heap(Keys(), n) else data == old(data) && Below(Keys(), n, i0)
    {
      var i: nat := i0;
      while 2 * i + 1 < n
        invariant SameContents(n) && i0 <= i < n
        invariant HeapExcept(Keys(), n, i) && Bridged(Keys(), n, i)
        invariant if i == i0 then data == old(data) else Above(Keys(), i)
        decreases n - i
      {
        var j := DownOnce(i, n);
        if j == i {
          break;
        }
        i := j;
      }
      assert Below(Keys(), n, i);
      moved := i > i0;
    }

    /** Takes off the last item. */
    method DropLast() returns (item: Item<T>)
      requires Indexed() && data != []
      modifies this`data, index
      ensures Indexed() && item == old(data)[|old(data)| - 1] && data == old(data)[..|old(data)| - 1]
      ensures Items() == old(Items()) - {item.batch.id}
    {
      var n := |data|;
      item := data[n - 1];
      DropExact(data, index.contents);
      assert IndexedAt(data, index.contents, n - 1);
      index.AllFiled();
      data := data[..n - 1];
      var _ := index.Remove(item.batch.id);
    }

    /** Adds a batch, unless it is there already. */
    method Push(item: Item<T>) returns (ok: bool)
      requires Valid() && item.batch.id.partition == partition
      modifies this`data, index
      ensures Valid() && (ok <==> item.batch.id !in old(Items()))
      ensures Items() == if ok then old(Items())[item.batch.id := item] else old(Items())
    {
      var present := index.Has(item.batch.id);
      if present {
        return false;
      }
      AppendExact(data, index.contents, item);
      index.Put(item.batch.id, |data|);
      data := data + [item];
      Up(|data| - 1, |data|);
      return true;
    }

    /** Takes out the item at i. */
    method RemoveAt(i: nat) returns (item: Item<T>)
      requires Valid() && i < |data|
      modifies this`data, index
      ensures Valid() && item == old(data)[i] && Items() == old(Items()) - {item.batch.id}
    {
      var n := |data| - 1;
      item := data[i];
      LastMoved(Keys(), i);
      Swap(i, n);
      if i < n {
        var moved := Down(i, n);
        if !moved {
          Up(i, n);
        }
      }
      assert data[n] == item;
      ghost var ks := Keys();
      var _ := DropLast();
      assert Keys() == ks[..n];
    }

    /** Takes out a batch with the lowest key. */
    method Pop() returns (r: Option<Item<T>>)
      requires Valid()
      modifies this`data, index
      ensures Valid() && (r.None? <==> old(Items()) == map[])
      ensures r.None? ==> Items() == map[]
      ensures r.Some? ==> var id := r.value.batch.id;
                          && id in old(Items()) && r.value == old(Items())[id] && Items() == old(Items()) - {id}
                          && forall x | x in old(Items()) :: key(id) <= key(x)
    {
      if |data| == 0 {
        forall id ensures id !in Items() { assert Located(data, index.contents, id); }
        return None;
      }
      assert IndexedAt(data, index.contents, 0);
      forall x | x in Items() ensures key(data[0].batch.id) <= key(x) {
        assert Located(data, index.contents, x);
        RootIsMinimum(Keys(), |data|, index.contents[x]);
      }
      var item := RemoveAt(0);
      return Some(item);
    }

    /** Takes out the given batch. */
    method Remove(id: BatchId) returns (r: Option<Item<T>>)
      requires Valid() && id.partition == partition
      modifies this`data, index
      ensures Valid() && Items() == old(Items()) - {id}
      ensures r == if id in old(Items()) then Some(old(Items())[id]) else None
    {
      var i := index.Get(id);
      if i.None? {
        assert Items() - {id} == Items();
        return None;
      }
      assert Located(data, index.contents, id);
      // A position outside the data cannot occur: the index is exact.
      var item := RemoveAt(i.value);
      return Some(item);
    }
  }
}
