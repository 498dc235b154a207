/** The invariant of fat_file_pwrite: one chain grows by free clusters while its bytes are written. */
module FatFilling {
  import opened Blocks
  import opened ByteArrays
  import opened FatChains
  import opened FatBytes

  datatype File = File(start: nat, size: nat)

  /** The tables, the clusters and the chains of all files. */
  datatype Vol = Vol(fat: seq<nat>, data: seq<seq<Byte>>, chains: seq<seq<nat>>)

  ghost predicate Good(num: nat, bpc: nat, v: Vol) {
    bpc > 0 && Chains(num, v.fat, v.chains) && GoodData(bpc, num, v.data)
  }

  predicate FileOk(bpc: nat, file: File, ch: seq<nat>) {
    && file.size < WORD_LIMIT && file.size <= Capacity(bpc, ch)
    && (ch != [] ==> file.start == ch[0])
  }

  /** Only chain f grew, by clusters that were free, and ends with an end mark; nothing else was freed or
      taken, and no other entry changed. */
  ghost predicate Grew(v0: Vol, v: Vol, f: nat) {
    && |v.fat| == |v0.fat| && f < |v.chains| == |v0.chains|
    && v0.chains[f] <= v.chains[f]
    && (forall g: nat :: g < |v.chains| && g != f ==> v.chains[g] == v0.chains[g])
    && (forall x: nat :: x < |v.fat| ==>
          (v.fat[x] == FREE <==> v0.fat[x] == FREE && x !in v.chains[f][|v0.chains[f]|..]))
    && (if v.chains[f] == v0.chains[f] then v.fat == v0.fat else Ended(v.fat, v.chains[f]))
    && (forall x: nat :: x < |v.fat| && x !in v.chains[f] ==> v.fat[x] == v0.fat[x])
  }

  /** Clusters outside chain f keep their bytes. */
  predicate OthersKept(v0: Vol, v: Vol, f: nat) {
    && f < |v.chains| && |v.data| == |v0.data|
    && forall c: nat :: c < |v.data| && c !in v.chains[f] ==> v.data[c] == v0.data[c]
  }

  ghost predicate Filling(num: nat, bpc: nat, v0: Vol, v: Vol, f: nat, size: nat, off: nat, bytes: seq<Byte>) {
    && Good(num, bpc, v) && Grew(v0, v, f) && OthersKept(v0, v, f)
    && off <= size && Reach(size, off + |bytes|) <= |v.chains[f]| * bpc
    && Written(bpc, v0.data, v0.chains[f], v.data, v.chains[f], size, off, bytes)
  }

  lemma FillStart(num: nat, bpc: nat, v: Vol, f: nat, size: nat, off: nat)
    requires Good(num, bpc, v) && f < |v.chains| && off <= size <= |v.chains[f]| * bpc
    ensures Filling(num, bpc, v, v, f, size, off, [])
  {
  }

  function Grow(v: Vol, f: nat, c: nat): Vol
    requires f < |v.chains| && 0 < |v.chains[f]| && c < |v.fat| && v.chains[f][|v.chains[f]| - 1] < |v.fat|
  {
    Vol(Append(v.fat, v.chains[f][|v.chains[f]| - 1], c), v.data, v.chains[f := v.chains[f] + [c]])
  }

  lemma GrowKeeps(num: nat, bpc: nat, v: Vol, f: nat, c: nat)
    requires Good(num, bpc, v) && f < |v.chains| && 0 < |v.chains[f]| && IsCluster(num, c) && v.fat[c] == FREE
    ensures v.chains[f][|v.chains[f]| - 1] < |v.fat| && c < |v.fat|
    ensures Good(num, bpc, Grow(v, f, c)) && Grew(v, Grow(v, f, c), f)
  {
    AppendKeeps(num, v.fat, v.chains, f, c);
    var last := v.chains[f][|v.chains[f]| - 1];
    assert Chain(num, v.fat, v.chains[f]) && LinkAt(num, v.fat, v.chains[f], |v.chains[f]| - 1);
    assert (v.chains[f] + [c])[|v.chains[f]|..] == [c];
  }

  lemma GrewTrans(v0: Vol, v1: Vol, v2: Vol, f: nat)
    requires Grew(v0, v1, f) && Grew(v1, v2, f)
    ensures Grew(v0, v2, f)
  {
    var n0, n1 := |v0.chains[f]|, |v1.chains[f]|;
    assert v2.chains[f][n0..] == v1.chains[f][n0..] + v2.chains[f][n1..];
  }

  lemma FillGrow(num: nat, bpc: nat, v0: Vol, v: Vol, v': Vol, f: nat, size: nat, off: nat, bytes: seq<Byte>)
    requires Filling(num, bpc, v0, v, f, size, off, bytes)
    requires Good(num, bpc, v') && Grew(v, v', f) && v'.data == v.data
    ensures Filling(num, bpc, v0, v', f, size, off, bytes)
  {
    hide Good, Written;
    assert bpc > 0 by { GoodBpc(num, bpc, v); }
    GrewTrans(v0, v, v', f);
    WrittenLonger(bpc, v0.data, v0.chains[f], v.data, v.chains[f], v'.chains[f], size, off, bytes);
    Scale(|v.chains[f]|, |v'.chains[f]|, bpc);
  }

  lemma GoodBpc(num: nat, bpc: nat, v: Vol)
    requires Good(num, bpc, v)
    ensures bpc > 0 && GoodTable(num, v.fat) && |v.data| == num + 2
  {
  }

  /** The cluster q of chain f: its bytes are there, and nowhere else in the chain. */
  lemma ClusterOf(num: nat, bpc: nat, v: Vol, f: nat, q: nat)
    requires Good(num, bpc, v) && f < |v.chains| && q < |v.chains[f]|
    ensures IsCluster(num, v.chains[f][q]) && v.chains[f][q] < |v.data| == num + 2 <= |v.fat|
    ensures |v.data[v.chains[f][q]]| == bpc && v.fat[v.chains[f][q]] != FREE
    ensures Next(num, v.fat, v.chains[f][q]) == Linked(v.chains[f], q + 1)
  {
    assert Chain(num, v.fat, v.chains[f]) && LinkAt(num, v.fat, v.chains[f], q);
  }

  function Store(v: Vol, c: nat, m: nat, more: seq<Byte>): Vol
    requires c < |v.data| && m + |more| <= |v.data[c]|
  {
    Vol(v.fat, Put(v.data, c, m, more), v.chains)
  }

  lemma FillStore(num: nat, bpc: nat, v0: Vol, v: Vol, f: nat, size: nat, off: nat, bytes: seq<Byte>,
                  more: seq<Byte>, q: nat)
    requires Filling(num, bpc, v0, v, f, size, off, bytes) && bpc > 0
    requires q == Position(bpc, off + |bytes|) < |v.chains[f]| && MaskOffset(bpc, off + |bytes|) + |more| <= bpc
    ensures v.chains[f][q] < |v.data| && |v.data[v.chains[f][q]]| == bpc
    ensures Filling(num, bpc, v0, Store(v, v.chains[f][q], MaskOffset(bpc, off + |bytes|), more), f, size, off,
            bytes + more)
  {
    hide Chains, Written;
    ClusterOf(num, bpc, v, f, q);
    NoRepeats(num, bpc, v, f);
    WrittenMore(bpc, v0.data, v0.chains[f], v.data, v.chains[f], size, off, bytes, more);
    EndOfCluster(bpc, off + |bytes|, |more|, |v.chains[f]|);
  }

  lemma EndOfCluster(d: nat, at: nat, m: nat, n: nat)
    requires d > 0 && at / d < n && at % d + m <= d
    ensures at + m <= n * d
  {
    Split(d, at);
    Scale(at / d + 1, n, d);
    assert (at / d + 1) * d == at / d * d + d;
  }

  lemma NoRepeats(num: nat, bpc: nat, v: Vol, f: nat)
    requires Good(num, bpc, v) && f < |v.chains|
    ensures forall i: nat, j: nat :: i < |v.chains[f]| && j < |v.chains[f]| && v.chains[f][i] == v.chains[f][j] ==>
              i == j
  {
  }

  /** At the end of a write: the file is spliced, every other file reads as before. */
  lemma FillEnd(num: nat, bpc: nat, v0: Vol, v: Vol, f: nat, size: nat, off: nat, bytes: seq<Byte>)
    requires Filling(num, bpc, v0, v, f, size, off, bytes) && bpc > 0
    ensures Content(bpc, v.data, v.chains[f], Reach(size, off + |bytes|))
            == Splice(Content(bpc, v0.data, v0.chains[f], size), off, bytes)
    ensures forall g: nat, s: nat :: g < |v.chains| && g != f ==>
                                     Content(bpc, v.data, v.chains[g], s) == Content(bpc, v0.data, v0.chains[g], s)
  {
    WrittenContent(bpc, v0.data, v0.chains[f], v.data, v.chains[f], size, off, bytes);
    forall g: nat, s: nat | g < |v.chains| && g != f
      ensures Content(bpc, v.data, v.chains[g], s) == Content(bpc, v0.data, v0.chains[g], s)
    {
      OtherContent(num, bpc, v0, v, f, g, s);
    }
  }

  lemma OtherContent(num: nat, bpc: nat, v0: Vol, v: Vol, f: nat, g: nat, s: nat)
    requires Good(num, bpc, v) && OthersKept(v0, v, f) && g < |v.chains| == |v0.chains| && g != f
    requires v0.chains[g] == v.chains[g]
    ensures Content(bpc, v.data, v.chains[g], s) == Content(bpc, v0.data, v0.chains[g], s)
  {
    forall i: nat | i < s ensures ByteOf(bpc, v.data, v.chains[g], i) == ByteOf(bpc, v0.data, v0.chains[g], i) {
      var q := Position(bpc, i);
      if q < |v.chains[g]| {
        assert v.chains[g][q] !in v.chains[f];
      }
    }
  }
}
