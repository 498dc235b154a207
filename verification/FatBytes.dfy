/** The bytes of a FAT file: cluster i / bpc of its chain, byte i % bpc of the cluster. */
module FatBytes {
  import opened Blocks
  import opened ByteArrays

  lemma Scale(a: nat, b: nat, d: nat)
    requires a <= b
    ensures a * d <= b * d
  {
  }

  lemma Split(d: nat, i: nat)
    requires d > 0
    ensures i == i / d * d + i % d && 0 <= i % d < d
  {
  }

  lemma DivMod(d: nat, q: nat, r: nat)
    requires r < d
    ensures (q * d + r) / d == q && (q * d + r) % d == r
  {
    var x := q * d + r;
    var p := x / d;
    Split(d, x);
    if p > q {
      Scale(q + 1, p, d);
    } else if p < q {
      Scale(p + 1, q, d);
    }
  }

  lemma SameCluster(d: nat, at: nat, i: nat)
    requires d > 0 && i / d == at / d
    ensures i - at == i % d - at % d
  {
    Split(d, i);
    Split(d, at);
  }

  lemma Below(d: nat, i: nat, n: nat)
    requires d > 0
    ensures i < n * d <==> i / d < n
  {
    Split(d, i);
    if i / d < n {
      assert (i / d + 1) * d <= n * d;
      assert (i / d + 1) * d == i / d * d + d;
    } else {
      assert n * d <= i / d * d;
    }
  }

  /** The offsets of one cluster from at on, and the first of the next. */
  lemma Within(d: nat, at: nat, m: nat)
    requires d > 0 && at % d + m <= d
    ensures at % d + m < d ==> (at + m) / d == at / d && (at + m) % d == at % d + m
    ensures at % d + m == d ==> (at + m) / d == at / d + 1 && (at + m) % d == 0
  {
    Split(d, at);
    if at % d + m < d {
      DivMod(d, at / d, at % d + m);
    } else {
      DivMod(d, at / d + 1, 0);
      assert (at / d + 1) * d == at / d * d + d;
    }
  }

  /** The cluster of the byte before a write. */
  lemma Before(d: nat, off: nat)
    requires d > 0 && off > 0
    ensures (off - 1) / d == if off % d == 0 then off / d - 1 else off / d
  {
    Split(d, off - 1);
    Within(d, off - 1, 1);
  }

  /** offset >> cluster_order */
  function Position(bpc: nat, offset: nat): nat
    requires bpc > 0
  {
    offset / bpc
  }

  /** fat_table_mask_offset */
  function MaskOffset(bpc: nat, offset: nat): (m: nat)
    requires bpc > 0
    ensures m < bpc
  {
    offset % bpc
  }

  /** The bytes a chain has room for. */
  function Capacity(bpc: nat, ch: seq<nat>): nat {
    |ch| * bpc
  }

  predicate GoodData(bpc: nat, num: nat, data: seq<seq<Byte>>) {
    |data| == num + 2 && forall c: nat :: c < |data| ==> |data[c]| == bpc
  }

  /** Byte r of the q-th cluster of a chain. */
  function ByteIn(data: seq<seq<Byte>>, ch: seq<nat>, q: nat, r: nat): Byte {
    if q < |ch| && ch[q] < |data| && r < |data[ch[q]]| then data[ch[q]][r] else 0
  }

  function ByteOf(bpc: nat, data: seq<seq<Byte>>, ch: seq<nat>, i: nat): Byte
    requires bpc > 0
  {
    ByteIn(data, ch, Position(bpc, i), MaskOffset(bpc, i))
  }

  function Content(bpc: nat, data: seq<seq<Byte>>, ch: seq<nat>, size: nat): (c: seq<Byte>)
    requires bpc > 0
    ensures |c| == size
  {
    seq(size, (i: nat) => ByteOf(bpc, data, ch, i))
  }

  /** Byte i of a file is byte i mod bpc of cluster i div bpc of its chain. */
  lemma ByteIsAt(num: nat, bpc: nat, data: seq<seq<Byte>>, ch: seq<nat>, size: nat, i: nat)
    requires bpc > 0 && GoodData(bpc, num, data) && i < size && i / bpc < |ch| && ch[i / bpc] < |data|
    ensures i % bpc < |data[ch[i / bpc]]| && Content(bpc, data, ch, size)[i] == data[ch[i / bpc]][i % bpc]
  {
  }

  /** pwrite inside one cluster. */
  function Put(data: seq<seq<Byte>>, c: nat, m: nat, bytes: seq<Byte>): seq<seq<Byte>>
    requires c < |data| && m + |bytes| <= |data[c]|
  {
    data[c := data[c][..m] + bytes + data[c][m + |bytes|..]]
  }

  /** Bytes of the disk image: where cluster_offset puts byte m of cluster c. */
  function ClusterOffset(start: nat, bpc: nat, c: nat): nat
    requires c >= 2
  {
    start + (c - 2) * bpc
  }

  /** Two bytes of the image coincide only if they are the same byte of the same cluster, so the
      clusters can be treated as separate byte arrays. */
  lemma ClustersApart(start: nat, bpc: nat, c: nat, m: nat, c': nat, m': nat)
    requires 2 <= c && 2 <= c' && m < bpc && m' < bpc
    requires ClusterOffset(start, bpc, c) + m == ClusterOffset(start, bpc, c') + m'
    ensures c == c' && m == m'
  {
    DivMod(bpc, c - 2, m);
    DivMod(bpc, c' - 2, m');
  }

  /** What a write has done so far: below the reach of the file, the bytes copied, else the old ones. */
  ghost predicate Written(bpc: nat, data0: seq<seq<Byte>>, ch0: seq<nat>, data: seq<seq<Byte>>, ch: seq<nat>,
                          size: nat, off: nat, bytes: seq<Byte>)
    requires bpc > 0
  {
    forall i: nat :: i < Reach(size, off + |bytes|) ==>
                     ByteOf(bpc, data, ch, i) == if off <= i < off + |bytes| then bytes[i - off]
                         else ByteOf(bpc, data0, ch0, i)
  }

  /** A longer chain spells the same bytes as far as the old one reached. */
  lemma WrittenLonger(bpc: nat, data0: seq<seq<Byte>>, ch0: seq<nat>, data: seq<seq<Byte>>, ch: seq<nat>, ch': seq<nat>,
                      size: nat, off: nat, bytes: seq<Byte>)
    requires bpc > 0 && Written(bpc, data0, ch0, data, ch, size, off, bytes)
    requires ch <= ch' && Reach(size, off + |bytes|) <= |ch| * bpc
    ensures Written(bpc, data0, ch0, data, ch', size, off, bytes)
  {
    forall i: nat | i < Reach(size, off + |bytes|) ensures ByteOf(bpc, data, ch', i) == ByteOf(bpc, data, ch, i) {
      Below(bpc, i, |ch|);
    }
  }

  /** One more piece, inside one cluster. */
  lemma WrittenMore(bpc: nat, data0: seq<seq<Byte>>, ch0: seq<nat>, data: seq<seq<Byte>>, ch: seq<nat>,
                    size: nat, off: nat, bytes: seq<Byte>, more: seq<Byte>)
    requires bpc > 0 && Written(bpc, data0, ch0, data, ch, size, off, bytes) && off <= size
    requires Position(bpc, off + |bytes|) < |ch| && ch[Position(bpc, off + |bytes|)] < |data|
    requires MaskOffset(bpc, off + |bytes|) + |more| <= bpc
    requires |data[ch[Position(bpc, off + |bytes|)]]| == bpc
    requires forall i: nat, j: nat :: i < |ch| && j < |ch| && ch[i] == ch[j] ==> i == j
    ensures Written(bpc, data0, ch0,
            Put(data, ch[Position(bpc, off + |bytes|)], MaskOffset(bpc, off + |bytes|), more), ch,
                    size, off, bytes + more)
  {
    var at := off + |bytes|;
    var c := ch[Position(bpc, at)];
    var data' := Put(data, c, MaskOffset(bpc, at), more);
    forall i: nat | i < Reach(size, off + |bytes + more|)
      ensures ByteOf(bpc, data', ch, i) ==
              if off <= i < at + |more| then (bytes + more)[i - off] else ByteOf(bpc, data0, ch0, i)
    {
      PutByte(bpc, data, ch, at, more, i);
    }
  }

  lemma PutIn(data: seq<seq<Byte>>, ch: seq<nat>, p: nat, m: nat, more: seq<Byte>, q: nat, r: nat)
    requires p < |ch| && ch[p] < |data| && m + |more| <= |data[ch[p]]|
    requires forall k: nat, j: nat :: k < |ch| && j < |ch| && ch[k] == ch[j] ==> k == j
    ensures ByteIn(Put(data, ch[p], m, more), ch, q, r) ==
            if q == p && m <= r < m + |more| then more[r - m] else ByteIn(data, ch, q, r)
  {
  }

  lemma InPiece(bpc: nat, at: nat, m: nat, i: nat)
    requires bpc > 0 && MaskOffset(bpc, at) + m <= bpc
    ensures at <= i < at + m <==>
            Position(bpc, i) == Position(bpc, at) && MaskOffset(bpc, at) <= MaskOffset(bpc, i) < MaskOffset(bpc, at) + m
    ensures at <= i < at + m ==> i - at == MaskOffset(bpc, i) - MaskOffset(bpc, at)
  {
    if at <= i < at + m {
      Within(bpc, at, i - at);
    }
    if i / bpc == at / bpc {
      SameCluster(bpc, at, i);
    }
  }

  lemma PutByte(bpc: nat, data: seq<seq<Byte>>, ch: seq<nat>, at: nat, more: seq<Byte>, i: nat)
    requires bpc > 0 && Position(bpc, at) < |ch| && ch[Position(bpc, at)] < |data|
    requires MaskOffset(bpc, at) + |more| <= bpc
    requires |data[ch[Position(bpc, at)]]| == bpc
    requires forall k: nat, j: nat :: k < |ch| && j < |ch| && ch[k] == ch[j] ==> k == j
    ensures ByteOf(bpc, Put(data, ch[Position(bpc, at)], MaskOffset(bpc, at), more), ch, i) ==
            if at <= i < at + |more| then more[i - at] else ByteOf(bpc, data, ch, i)
  {
    hide ByteIn, Position, MaskOffset;
    InPiece(bpc, at, |more|, i);
    PutIn(data, ch, Position(bpc, at), MaskOffset(bpc, at), more, Position(bpc, i), MaskOffset(bpc, i));
  }

  lemma WrittenContent(bpc: nat, data0: seq<seq<Byte>>, ch0: seq<nat>, data: seq<seq<Byte>>, ch: seq<nat>,
                       size: nat, off: nat, bytes: seq<Byte>)
    requires bpc > 0 && Written(bpc, data0, ch0, data, ch, size, off, bytes) && off <= size
    ensures Content(bpc, data, ch, Reach(size, off + |bytes|)) == Splice(Content(bpc, data0, ch0, size), off, bytes)
  {
    var c := Content(bpc, data, ch, Reach(size, off + |bytes|));
    forall i: nat | i < |c| ensures c[i] == Splice(Content(bpc, data0, ch0, size), off, bytes)[i] {
      SpliceAt(Content(bpc, data0, ch0, size), off, bytes, i);
    }
  }

  /** A shorter file is a prefix. */
  lemma ContentPrefix(bpc: nat, data: seq<seq<Byte>>, ch: seq<nat>, ch': seq<nat>, size: nat, size': nat)
    requires bpc > 0 && size' <= size && size' <= |ch'| * bpc && ch' <= ch
    ensures Content(bpc, data, ch', size') == Content(bpc, data, ch, size)[..size']
  {
    forall i: nat | i < size' ensures ByteOf(bpc, data, ch', i) == ByteOf(bpc, data, ch, i) {
      Below(bpc, i, |ch'|);
    }
  }
}
