/** A cache of full batches that keeps count of their sizes. */
module BatchCaching {
  import opened Wrappers
  import opened Finite
  import opened BatchIds
  import opened BatchMapping

  type Batches = map<BatchId, Batch>

  ghost function Sizes(m: Batches): map<BatchId, nat> { map id | id in m :: m[id].size }

  /** The size of all batches together. */
  ghost function Total(m: Batches): nat { Sum(Sizes(m)) }

  lemma TotalInsert(m: Batches, b: Batch)
    requires b.id !in m
    ensures Total(m[b.id := b]) == Total(m) + b.size
  {
    assert Sizes(m[b.id := b]) == Sizes(m)[b.id := b.size];
    SumInsert(Sizes(m), b.id, b.size);
  }

  lemma TotalRemove(m: Batches, id: BatchId)
    requires id in m
    ensures Total(m - {id}) == Total(m) - m[id].size
  {
    assert Sizes(m - {id}) == Sizes(m) - {id};
    SumDelete(Sizes(m), id);
  }

  ghost predicate KeyedById(m: Batches) { forall id | id in m :: m[id].id == id }

  class BatchCache {
    const partition: Partition
    const mapper: BatchMapper<Batch>
    var sizeBytes: int

    ghost predicate Valid()
      reads this, mapper
    {
      && mapper.Valid() && mapper.partition == partition && KeyedById(mapper.contents)
      && sizeBytes == Total(mapper.contents)
    }

    ghost function Contents(): Batches
      reads this, mapper
    {
      mapper.contents
    }

    constructor (partition: Partition)
      ensures Valid() && fresh(mapper) && this.partition == partition && Contents() == map[]
    {
      this.partition, sizeBytes := partition, 0;
      mapper := new BatchMapper(partition);
      new;
      assert Sizes(mapper.contents) == map[];
    }

    /** Takes the batch out, if it is there. */
    method Pop(id: BatchId) returns (r: Option<Batch>)
      requires Valid() && id.partition == partition
      modifies this, mapper
      ensures Valid() && Contents() == old(Contents()) - {id}
      ensures r == if id in old(Contents()) then Some(old(Contents())[id]) else None
    {
      r := mapper.Remove(id);
      if r.None? {
        assert mapper.contents == old(mapper.contents);
        return;
      }
      TotalRemove(old(mapper.contents), id);
      sizeBytes := sizeBytes - r.value.size;
    }

    /** Stores the batch, unless one with its id is there already. */
    method Put(batch: Batch) returns (ok: bool)
      requires Valid() && batch.id.partition == partition
      modifies this, mapper
      ensures Valid() && (ok <==> batch.id !in old(Contents()))
      ensures Contents() == if ok then old(Contents())[batch.id := batch] else old(Contents())
    {
      ok := mapper.Insert(batch.id, batch);
      if ok {
        TotalInsert(old(mapper.contents), batch);
        sizeBytes := sizeBytes + batch.size;
      }
    }

    method Has(id: BatchId) returns (b: bool)
      requires Valid() && id.partition == partition
      ensures b <==> id in Contents()
    {
      b := mapper.Has(id);
    }
  }
}
