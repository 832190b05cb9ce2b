/**
 * The counter of a batch: one uint64, advanced by atomic additions, whose high half counts requests and
 * whose low half counts their bytes.
 */
module PackedCounter {
  const TWO_32: nat := 0x1_0000_0000
  const TWO_64: nat := 0x1_0000_0000_0000_0000

  /** The counter after a request of sz bytes. */
  function Added(packed: nat, sz: nat): nat { (packed + sz + TWO_32) % TWO_64 }

  function High(packed: nat): nat { packed / TWO_32 % TWO_32 }

  function Low(packed: nat): nat { packed % TWO_32 }

  lemma Halves(count: nat, bytes: nat)
    requires count < TWO_32 && bytes < TWO_32
    ensures High(count * TWO_32 + bytes) == count && Low(count * TWO_32 + bytes) == bytes
  {
  }

  /** While neither half overflows, the counter goes on to hold both numbers. */
  lemma AddedExact(count: nat, bytes: nat, sz: nat)
    requires count + 1 < TWO_32 && bytes + sz < TWO_32
    ensures var packed := Added(count * TWO_32 + bytes, sz);
            && packed == (count + 1) * TWO_32 + (bytes + sz)
            && High(packed) == count + 1 && Low(packed) == bytes + sz
  {
  }

  lemma AddedWraps(count: nat, bytes: nat, sz: nat)
    requires count + 1 == TWO_32 && bytes + sz < TWO_32
    ensures Added(count * TWO_32 + bytes, sz) == bytes + sz
  {
  }

  /** The bytes carry into the number of requests. */
  lemma AddedCarries(count: nat, bytes: nat, sz: nat)
    requires count < TWO_32 && bytes < TWO_32 && sz < TWO_32 <= bytes + sz
    ensures var packed := Added(count * TWO_32 + bytes, sz);
            High(packed) == (count + 2) % TWO_32 && Low(packed) == bytes + sz - TWO_32
  {
    if count + 2 < TWO_32 {
      AddedExact(count + 1, bytes + sz - TWO_32, 0);
    }
  }

  /** The halves say what was added exactly as long as the bytes stay below 2^32. */
  lemma DecodesExactly(count: nat, bytes: nat, sz: nat)
    requires count + 2 < TWO_32 && bytes < TWO_32 && sz < TWO_32
    ensures var packed := Added(count * TWO_32 + bytes, sz);
            High(packed) == count + 1 && Low(packed) == bytes + sz <==> bytes + sz < TWO_32
  {
    if bytes + sz < TWO_32 {
      AddedExact(count, bytes, sz);
    } else {
      AddedCarries(count, bytes, sz);
    }
  }

  lemma AddedPositive(packed: nat, sz: nat)
    requires packed < TWO_64 && High(packed) < 0xffff_fffe && sz < TWO_32
    ensures Added(packed, sz) > 0
  {
  }
}
