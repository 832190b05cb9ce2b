/** Batches as the assembler names them. */
module BatchIds {
  /** A stream of batches: those of one primary in one shard. */
  datatype Partition = Partition(shard: nat, primary: nat)

  datatype BatchId = BatchId(partition: Partition, num: nat, digest: seq<nat>)

  /** A full batch, with the cumulative size of its requests. */
  datatype Batch = Batch(id: BatchId, size: nat, requests: int)
}

/** A map keyed by batch id, kept as one short list of entries per sequence number. */
module BatchMapping {
  import opened Wrappers
  import opened BatchIds

  datatype Slot<V> = Slot(batch: BatchId, value: V)

  ghost predicate Holds<V>(slots: seq<Slot<V>>, id: BatchId) {
    exists i :: 0 <= i < |slots| && slots[i].batch == id
  }

  /** The list has one slot for every entry of m with sequence n, and no other. */
  ghost predicate Lists<V>(slots: seq<Slot<V>>, n: nat, m: map<BatchId, V>) {
    && slots != []
    && (forall i, j | 0 <= i < j < |slots| :: slots[i].batch != slots[j].batch)
    && (forall i | 0 <= i < |slots| ::
          slots[i].batch.num == n && slots[i].batch in m && m[slots[i].batch] == slots[i].value)
    && (forall id | id in m && id.num == n :: Holds(slots, id))
  }

  lemma ListsUpdate<V>(slots: seq<Slot<V>>, m: map<BatchId, V>, i: nat, value: V)
    requires i < |slots| && Lists(slots, slots[i].batch.num, m)
    ensures var id := slots[i].batch; Lists(slots[i := Slot(id, value)], id.num, m[id := value])
  {
    var id := slots[i].batch;
    var slots' := slots[i := Slot(id, value)];
    forall x | x in m && x.num == id.num ensures Holds(slots', x) {
      assert Holds(slots, x);
      var k :| 0 <= k < |slots| && slots[k].batch == x;
      assert slots'[k].batch == x;
    }
  }

  lemma ListsAppend<V>(slots: seq<Slot<V>>, m: map<BatchId, V>, id: BatchId, value: V)
    requires Lists(slots, id.num, m) && id !in m
    ensures Lists(slots + [Slot(id, value)], id.num, m[id := value])
  {
    var slots' := slots + [Slot(id, value)];
    assert slots'[|slots|].batch == id;
    forall x | x in m && x.num == id.num ensures Holds(slots', x) {
      assert Holds(slots, x);
      var k :| 0 <= k < |slots| && slots[k].batch == x;
      assert slots'[k].batch == x;
    }
  }

  lemma ListsRemove<V>(slots: seq<Slot<V>>, m: map<BatchId, V>, i: nat, without: seq<Slot<V>>)
    requires i < |slots| && Lists(slots, slots[i].batch.num, m) && |without| == |slots| - 1
    requires forall k {:trigger without[k]} | 0 <= k < |without| ::
               without[k] == if k < i then slots[k] else slots[k + 1]
    ensures var id := slots[i].batch;
            if without == [] then forall x | x in m && x.num == id.num :: x == id else Lists(without, id.num, m - {id})
  {
    var id := slots[i].batch;
    forall x | x in m && x.num == id.num && x != id ensures Holds(without, x) {
      assert Holds(slots, x);
      var k :| 0 <= k < |slots| && slots[k].batch == x;
      if k < i {
        assert without[k] == slots[k];
      } else {
        assert without[k - 1] == slots[k];
      }
    }
  }

  class BatchMapper<V> {
    const partition: Partition
    var seqToBatches: map<nat, seq<Slot<V>>>
    /** The map that the lists stand for. */
    ghost var contents: map<BatchId, V>

    ghost predicate Valid()
      reads this
    {
      && (forall n | n in seqToBatches :: Lists(seqToBatches[n], n, contents))
      && (forall id {:trigger Filed(id)} :: Filed(id))
    }

    ghost predicate Filed(id: BatchId)
      reads this
    {
      id in contents ==> id.partition == partition && id.num in seqToBatches
    }

    lemma AllFiled()
      requires Valid()
      ensures forall id | id in contents :: id.partition == partition && id.num in seqToBatches
    {
      forall id | id in contents ensures id.partition == partition && id.num in seqToBatches { assert Filed(id); }
    }

    constructor (partition: Partition)
      ensures Valid() && this.partition == partition && contents == map[]
    {
      this.partition, seqToBatches, contents := partition, map[], map[];
    }

    /** The place of the batch in the list of its sequence; the length of the list if it is not there. */
    method Find(id: BatchId) returns (i: nat)
      requires Valid() && id.partition == partition && id.num in seqToBatches
      ensures i <= |seqToBatches[id.num]|
      ensures i < |seqToBatches[id.num]| ==> id in contents && seqToBatches[id.num][i].batch == id
      ensures i == |seqToBatches[id.num]| ==> id !in contents
    {
      var slots := seqToBatches[id.num];
      assert Lists(slots, id.num, contents);
      AllFiled();
      i := 0;
      while i < |slots|
        invariant 0 <= i <= |slots| && forall j | 0 <= j < i :: slots[j].batch != id
      {
        if slots[i].batch.digest == id.digest {
          return;
        }
        i := i + 1;
      }
      assert !Holds(slots, id);
    }

    /** Changes the list of one sequence, as far as the map changes there. */
    method Replace(n: nat, slots: seq<Slot<V>>, ghost contents': map<BatchId, V>)
      requires Valid() && Lists(slots, n, contents')
      requires forall id | id in contents' :: id.partition == partition
      requires forall id: BatchId | id.num != n ::
                 (id in contents <==> id in contents') && (id in contents ==> contents[id] == contents'[id])
      modifies this
      ensures Valid() && contents == contents'
    {
      AllFiled();
      seqToBatches := seqToBatches[n := slots];
      contents := contents';
      forall k | k in seqToBatches && k != n ensures Lists(seqToBatches[k], k, contents) {
        assert Lists(old(seqToBatches)[k], k, old(contents));
      }
    }

    /** Puts the value; with `overwrite` false an entry that exists is left as it is. */
    method Set(id: BatchId, value: V, overwrite: bool) returns (written: bool)
      requires Valid() && id.partition == partition
      modifies this
      ensures Valid()
      ensures written <==> overwrite || id !in old(contents)
      ensures contents == if written then old(contents)[id := value] else old(contents)
    {
      AllFiled();
      if id.num !in seqToBatches {
        assert [Slot(id, value)][0].batch == id;
        assert Holds([Slot(id, value)], id);
        Replace(id.num, [Slot(id, value)], contents[id := value]);
        return true;
      }
      var i := Find(id);
      var slots := seqToBatches[id.num];
      assert Lists(slots, id.num, contents);
      if i < |slots| {
        if !overwrite {
          return false;
        }
        ListsUpdate(slots, contents, i, value);
        Replace(id.num, slots[i := Slot(id, value)], contents[id := value]);
      } else {
        ListsAppend(slots, contents, id, value);
        Replace(id.num, slots + [Slot(id, value)], contents[id := value]);
      }
      return true;
    }

    method Put(id: BatchId, value: V)
      requires Valid() && id.partition == partition
      modifies this
      ensures Valid() && contents == old(contents)[id := value]
    {
      var _ := Set(id, value, true);
    }

    method Insert(id: BatchId, value: V) returns (inserted: bool)
      requires Valid() && id.partition == partition
      modifies this
      ensures Valid() && (inserted <==> id !in old(contents))
      ensures contents == if inserted then old(contents)[id := value] else old(contents)
    {
      inserted := Set(id, value, false);
    }

    method Get(id: BatchId) returns (r: Option<V>)
      requires Valid() && id.partition == partition
      ensures r == if id in contents then Some(contents[id]) else None
    {
      AllFiled();
      if id.num in seqToBatches {
        var i := Find(id);
        if i < |seqToBatches[id.num]| {
          return Some(seqToBatches[id.num][i].value);
        }
      }
      return None;
    }

    method Has(id: BatchId) returns (b: bool)
      requires Valid() && id.partition == partition
      ensures b <==> id in contents
    {
      var r := Get(id);
      b := r.Some?;
    }

    method Remove(id: BatchId) returns (r: Option<V>)
      requires Valid() && id.partition == partition
      modifies this
      ensures Valid() && contents == old(contents) - {id}
      ensures r == if id in old(contents) then Some(old(contents)[id]) else None
    {
      AllFiled();
      if id.num in seqToBatches {
        var i := Find(id);
        var slots := seqToBatches[id.num];
        if i < |slots| {
          r := Some(slots[i].value);
          assert Lists(slots, id.num, contents);
          var without := slots[..i] + slots[i + 1..];
          ListsRemove(slots, contents, i, without);
          if |without| == 0 {
            seqToBatches := seqToBatches - {id.num};
            contents := contents - {id};
            forall k | k in seqToBatches ensures Lists(seqToBatches[k], k, contents) {
              assert Lists(old(seqToBatches)[k], k, old(contents));
            }
          } else {
            Replace(id.num, without, contents - {id});
          }
          return;
        }
      }
      assert contents - {id} == contents;
      return None;
    }
  }
}
