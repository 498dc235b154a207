/** How many clusters a write needs and how many there are. */
module FatSpace {
  import opened FatChains
  import opened FatBytes

  ghost function FreeSet(num: nat, fat: seq<nat>): set<nat>
    requires GoodTable(num, fat)
  {
    set k: nat | 2 <= k < num + 2 && fat[k] == FREE
  }

  /** The free data clusters. */
  ghost function FreeCount(num: nat, fat: seq<nat>): nat
    requires GoodTable(num, fat)
  {
    |FreeSet(num, fat)|
  }

  /** No entry past the data clusters looks free: there the scan for a free cluster leaves the table. */
  ghost predicate NoneBeyond(num: nat, fat: seq<nat>) {
    forall k: nat :: num + 2 <= k < |fat| ==> fat[k] != FREE
  }

  /** The length of chain that fat_file_pwrite of len bytes at off asks for: room for the bytes, and
      even for none of them the cluster of off if off starts one. */
  function Clusters(bpc: nat, off: nat, len: nat): nat
    requires bpc > 0
  {
    if len > 0 then Position(bpc, off + len - 1) + 1
    else if off > 0 && MaskOffset(bpc, off) == 0 then Position(bpc, off) + 1
    else 0
  }

  /** The clusters it has to add to a chain of n. */
  function Needed(bpc: nat, n: nat, off: nat, len: nat): nat
    requires bpc > 0
  {
    if Clusters(bpc, off, len) > n then Clusters(bpc, off, len) - n else 0
  }

  lemma CountIsZero(num: nat, fat: seq<nat>)
    requires GoodTable(num, fat)
    ensures FreeCount(num, fat) == 0 <==> DiskFull(num, fat)
    ensures NoneFree(fat) <==> FreeCount(num, fat) == 0 && NoneBeyond(num, fat)
  {
    if FreeCount(num, fat) == 0 {
      forall k: nat | IsCluster(num, k) ensures fat[k] != FREE {
        assert k !in FreeSet(num, fat);
      }
    } else {
      var k :| k in FreeSet(num, fat);
      assert IsCluster(num, k);
    }
  }

  /** Appending a cluster takes one free cluster. */
  lemma AppendCounts(num: nat, fat: seq<nat>, last: nat, c: nat)
    requires GoodTable(num, fat) && IsCluster(num, last) && fat[last] != FREE && IsCluster(num, c) && fat[c] == FREE
    ensures FreeCount(num, Append(fat, last, c)) == FreeCount(num, fat) - 1
    ensures NoneBeyond(num, Append(fat, last, c)) <==> NoneBeyond(num, fat)
  {
    assert FreeSet(num, Append(fat, last, c)) == FreeSet(num, fat) - {c};
    assert c in FreeSet(num, fat);
    forall k: nat | num + 2 <= k < |fat| ensures Append(fat, last, c)[k] == fat[k] {}
  }

  /** Where the last byte of a piece lies. */
  lemma LastOfPiece(bpc: nat, at: nat, m: nat)
    requires bpc > 0 && 0 < m && MaskOffset(bpc, at) + m <= bpc
    ensures Position(bpc, at + m - 1) == Position(bpc, at)
    ensures MaskOffset(bpc, at) + m == bpc ==> at + m == (Position(bpc, at) + 1) * bpc
  {
    Split(bpc, at);
    DivMod(bpc, at / bpc, at % bpc + (m - 1));
  }

  lemma ClustersGrow(bpc: nat, off: nat, len: nat)
    requires bpc > 0
    ensures Clusters(bpc, off, 0) <= Clusters(bpc, off, len) || len == 0
    ensures len > 0 ==> Position(bpc, off) + 1 <= Clusters(bpc, off, len)
  {
    if len > 0 {
      Split(bpc, off);
      Split(bpc, off + len - 1);
      if Position(bpc, off) > Position(bpc, off + len - 1) {
        Scale(Position(bpc, off + len - 1) + 1, Position(bpc, off), bpc);
      }
    }
  }

  /** A write that stopped at the end of the chain needed more clusters than it got. */
  lemma StoppedShort(bpc: nat, n: nat, off: nat, len: nat)
    requires bpc > 0 && n * bpc < off + len && 0 < len
    ensures Clusters(bpc, off, len) > n
  {
    Below(bpc, off + len - 1, n);
  }
}
