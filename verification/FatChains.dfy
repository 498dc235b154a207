/** The file allocation table as a value: next pointers that link clusters into chains. */
module FatChains {
  const FREE: nat := 0x0000_0000
  const BAD_SECTOR: nat := 0x0FFF_FFF7
  const EOC_MIN: nat := 0x0FFF_FFF8
  const EOC_MAX: nat := 0x0FFF_FFFF

  /** Clusters 2 .. num + 2 hold data. */
  predicate IsCluster(num: nat, c: nat) {
    2 <= c < num + 2
  }

  predicate IsEOC(c: nat) {
    EOC_MIN <= c <= EOC_MAX
  }

  /** fat_table_cluster_is_valid */
  predicate IsLinked(c: nat) {
    !IsEOC(c) && c != BAD_SECTOR
  }

  /** fat_table_get_next_cluster: whatever is no cluster number ends the chain. */
  function Next(num: nat, fat: seq<nat>, c: nat): nat
    requires c < |fat|
  {
    if IsCluster(num, fat[c]) then fat[c] else EOC_MAX
  }

  predicate GoodTable(num: nat, fat: seq<nat>) {
    num + 2 <= |fat| <= BAD_SECTOR
  }

  /** The i-th cluster of a chain, or the mark after its last one. */
  function Linked(ch: seq<nat>, i: nat): nat {
    if i < |ch| then ch[i] else EOC_MAX
  }

  /** ch is the whole chain from ch[0] on. */
  ghost predicate Chain(num: nat, fat: seq<nat>, ch: seq<nat>)
    requires GoodTable(num, fat)
  {
    forall i: nat :: i < |ch| ==> LinkAt(num, fat, ch, i)
  }

  predicate LinkAt(num: nat, fat: seq<nat>, ch: seq<nat>, i: nat)
    requires GoodTable(num, fat) && i < |ch|
  {
    IsCluster(num, ch[i]) && fat[ch[i]] != FREE && Next(num, fat, ch[i]) == Linked(ch, i + 1)
  }

  /** No cluster occurs twice, in one chain or in two. */
  ghost predicate Apart(chains: seq<seq<nat>>) {
    forall f: nat, i: nat, g: nat, j: nat ::
      f < |chains| && g < |chains| && i < |chains[f]| && j < |chains[g]| && chains[f][i] == chains[g][j] ==>
          f == g && i == j
  }

  /** The chains of all files; a deleted file has the empty chain. */
  ghost predicate Chains(num: nat, fat: seq<nat>, chains: seq<seq<nat>>) {
    && GoodTable(num, fat) && Apart(chains)
    && forall f: nat :: f < |chains| ==> Chain(num, fat, chains[f])
  }

  /** The entry of the last cluster of a chain is an end mark. */
  predicate Ended(fat: seq<nat>, ch: seq<nat>) {
    ch != [] ==> ch[|ch| - 1] < |fat| && IsEOC(fat[ch[|ch| - 1]])
  }

  /** The lowest free entry from 2 on is c. */
  ghost predicate LowestFree(fat: seq<nat>, c: nat) {
    2 <= c < |fat| && fat[c] == FREE && forall k: nat :: 2 <= k < c ==> fat[k] != FREE
  }

  ghost predicate NoneFree(fat: seq<nat>) {
    forall k: nat :: 2 <= k < |fat| ==> fat[k] != FREE
  }

  /** No data cluster is free. */
  ghost predicate DiskFull(num: nat, fat: seq<nat>)
    requires GoodTable(num, fat)
  {
    forall k: nat :: IsCluster(num, k) ==> fat[k] != FREE
  }

  /** A chain none of whose entries changed is still a chain. */
  lemma ChainKept(num: nat, fat: seq<nat>, fat': seq<nat>, ch: seq<nat>)
    requires GoodTable(num, fat) && |fat'| == |fat| && Chain(num, fat, ch)
    requires forall i: nat :: i < |ch| && ch[i] < |fat| ==> fat'[ch[i]] == fat[ch[i]]
    ensures Chain(num, fat', ch)
  {
    forall i: nat | i < |ch| ensures LinkAt(num, fat', ch, i) {
      assert LinkAt(num, fat, ch, i);
    }
  }

  lemma FreeIsApart(num: nat, fat: seq<nat>, chains: seq<seq<nat>>, c: nat, f: nat, i: nat)
    requires Chains(num, fat, chains) && c < |fat| && fat[c] == FREE && f < |chains| && i < |chains[f]|
    ensures chains[f][i] != c
  {
    assert Chain(num, fat, chains[f]) && LinkAt(num, fat, chains[f], i);
  }

  /** next_or_new_cluster links a free cluster after the last one. */
  function Append(fat: seq<nat>, last: nat, c: nat): seq<nat>
    requires last < |fat| && c < |fat|
  {
    fat[last := c][c := EOC_MAX]
  }

  lemma AppendKeeps(num: nat, fat: seq<nat>, chains: seq<seq<nat>>, f: nat, c: nat)
    requires Chains(num, fat, chains) && f < |chains| && 0 < |chains[f]| && IsCluster(num, c) && fat[c] == FREE
    ensures chains[f][|chains[f]| - 1] < |fat| && c < |fat|
    ensures Chains(num, Append(fat, chains[f][|chains[f]| - 1], c), chains[f := chains[f] + [c]])
  {
    var ch := chains[f];
    var n := |ch| - 1;
    assert Chain(num, fat, ch) && LinkAt(num, fat, ch, n);
    var fat', chains' := Append(fat, ch[n], c), chains[f := ch + [c]];
    forall g: nat, i: nat | g < |chains| && i < |chains[g]| ensures chains[g][i] != c {
      FreeIsApart(num, fat, chains, c, g, i);
    }
    forall g: nat | g < |chains| && g != f ensures Chain(num, fat', chains[g]) {
      ChainKept(num, fat, fat', chains[g]);
    }
    forall i: nat | i < |ch + [c]| ensures LinkAt(num, fat', ch + [c], i) {
      if i < n {
        assert LinkAt(num, fat, ch, i) && ch[i] != ch[n];
      }
    }
  }

  /** fat_file_init: a free cluster becomes a chain of its own. */
  lemma NewChainKeeps(num: nat, fat: seq<nat>, chains: seq<seq<nat>>, c: nat)
    requires Chains(num, fat, chains) && IsCluster(num, c) && fat[c] == FREE
    ensures c < |fat| && Chains(num, fat[c := EOC_MAX], chains + [[c]])
  {
    var fat', chains' := fat[c := EOC_MAX], chains + [[c]];
    forall g: nat, i: nat | g < |chains| && i < |chains[g]| ensures chains[g][i] != c {
      FreeIsApart(num, fat, chains, c, g, i);
    }
    forall g: nat | g < |chains'| ensures Chain(num, fat', chains'[g]) {
      if g < |chains| {
        ChainKept(num, fat, fat', chains[g]);
      } else {
        assert LinkAt(num, fat', [c], 0);
      }
    }
  }

  /** The table with a list of entries marked free. */
  function Freed(fat: seq<nat>, cs: seq<nat>): (r: seq<nat>)
    ensures |r| == |fat|
    decreases |cs|
  {
    if cs == [] then fat else Marked(Freed(fat, cs[..|cs| - 1]), cs[|cs| - 1], FREE)
  }

  /** The table with entry c, if there is one, set to v. */
  function Marked(fat: seq<nat>, c: nat, v: nat): (r: seq<nat>)
    ensures |r| == |fat|
  {
    if c < |fat| then fat[c := v] else fat
  }

  lemma {:induction false} FreedAt(fat: seq<nat>, cs: seq<nat>, x: nat)
    requires x < |fat|
    ensures Freed(fat, cs)[x] == if x in cs then FREE else fat[x]
    decreases |cs|
  {
    if cs != [] {
      FreedAt(fat, cs[..|cs| - 1], x);
      assert cs == cs[..|cs| - 1] + [cs[|cs| - 1]];
    }
  }

  /** The table after a chain is cut back to its first k clusters. */
  function Cut(fat: seq<nat>, ch: seq<nat>, k: nat): (r: seq<nat>)
    requires k <= |ch|
    ensures |r| == |fat|
  {
    Freed(if k > 0 then Marked(fat, ch[k - 1], EOC_MAX) else fat, ch[k..])
  }

  lemma CutAt(fat: seq<nat>, ch: seq<nat>, k: nat, x: nat)
    requires k <= |ch| && x < |fat|
    requires forall i: nat, j: nat :: i < |ch| && j < |ch| && ch[i] == ch[j] ==> i == j
    ensures Cut(fat, ch, k)[x] == if x in ch[k..] then FREE else if k > 0 && x == ch[k - 1] then EOC_MAX else fat[x]
  {
    FreedAt(if k > 0 then Marked(fat, ch[k - 1], EOC_MAX) else fat, ch[k..], x);
  }

  lemma ChainInTable(num: nat, fat: seq<nat>, ch: seq<nat>)
    requires GoodTable(num, fat) && Chain(num, fat, ch)
    ensures forall i: nat :: i < |ch| ==> ch[i] < |fat| && ch[i] < BAD_SECTOR
  {
    forall i: nat | i < |ch| ensures ch[i] < |fat| && ch[i] < BAD_SECTOR {
      assert LinkAt(num, fat, ch, i);
    }
  }

  /** Cutting one chain back keeps every chain a chain, and frees exactly the clusters cut off. */
  lemma CutKeeps(num: nat, fat: seq<nat>, chains: seq<seq<nat>>, f: nat, k: nat)
    requires Chains(num, fat, chains) && f < |chains| && k <= |chains[f]|
    ensures Chains(num, Cut(fat, chains[f], k), chains[f := chains[f][..k]])
    ensures forall x: nat :: x < |fat| ==>
              (Cut(fat, chains[f], k)[x] == FREE <==> fat[x] == FREE || x in chains[f][k..])
    ensures k > 0 ==> Ended(Cut(fat, chains[f], k), chains[f][..k])
    ensures forall x: nat :: x < |fat| && x !in chains[f] ==> Cut(fat, chains[f], k)[x] == fat[x]
  {
    hide Cut, Ended;
    var ch := chains[f];
    ChainInTable(num, fat, ch);
    CutEnds(num, fat, chains, f, k);
    var fat' := Cut(fat, ch, k);
    CutFrees(num, fat, chains, f, k);
    forall g: nat | g < |chains| && g != f ensures Chain(num, fat', chains[g]) {
      ChainInTable(num, fat, chains[g]);
      forall i: nat | i < |chains[g]| ensures fat'[chains[g][i]] == fat[chains[g][i]] {
        CutAt(fat, ch, k, chains[g][i]);
      }
      ChainKept(num, fat, fat', chains[g]);
    }
    forall i: nat | i < k ensures LinkAt(num, fat', ch[..k], i) {
      assert LinkAt(num, fat, ch, i);
      CutAt(fat, ch, k, ch[i]);
    }
  }

  lemma CutEnds(num: nat, fat: seq<nat>, chains: seq<seq<nat>>, f: nat, k: nat)
    requires Chains(num, fat, chains) && f < |chains| && k <= |chains[f]|
    ensures k > 0 ==> Ended(Cut(fat, chains[f], k), chains[f][..k])
    ensures forall x: nat :: x < |fat| && x !in chains[f] ==> Cut(fat, chains[f], k)[x] == fat[x]
  {
    hide Cut;
    var ch := chains[f];
    ChainInTable(num, fat, ch);
    if k > 0 {
      CutAt(fat, ch, k, ch[k - 1]);
    }
    forall x: nat | x < |fat| && x !in ch ensures Cut(fat, ch, k)[x] == fat[x] {
      CutAt(fat, ch, k, x);
    }
  }

  lemma CutFrees(num: nat, fat: seq<nat>, chains: seq<seq<nat>>, f: nat, k: nat)
    requires Chains(num, fat, chains) && f < |chains| && k <= |chains[f]|
    ensures forall x: nat :: x < |fat| ==>
              (Cut(fat, chains[f], k)[x] == FREE <==> fat[x] == FREE || x in chains[f][k..])
  {
    var ch := chains[f];
    forall x: nat | x < |fat| ensures Cut(fat, ch, k)[x] == FREE <==> fat[x] == FREE || x in ch[k..] {
      CutAt(fat, ch, k, x);
      if k > 0 && x == ch[k - 1] {
        assert LinkAt(num, fat, ch, k - 1);
      }
    }
  }
}
