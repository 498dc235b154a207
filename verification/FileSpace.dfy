/** How many blocks a write needs, and how many there are. */
module FileSpace {
  import opened Blocks
  import opened FileState

  /** Block bn holds some of the n bytes at off. */
  predicate InRange(off: nat, n: nat, bn: nat) {
    n > 0 && off / BSIZE <= bn <= (off + n - 1) / BSIZE
  }

  /** The slots on the way to the n bytes at off: one for each of their blocks and, if one of them is
      past the direct blocks, that of the indirect block. */
  predicate Wanted(inum: nat, off: nat, n: nat, t: Slot) {
    && t.inum == inum
    && (if t.Entry? then t.j < NINDIRECT && InRange(off, n, NDIRECT + t.j)
        else if t.k < NDIRECT then InRange(off, n, t.k)
        else t.k == NDIRECT && n > 0 && (off + n - 1) / BSIZE >= NDIRECT)
  }

  function Slots(inum: nat): set<Slot> {
    (set k: nat | k <= NDIRECT :: Addr(inum, k)) + (set j: nat | j < NINDIRECT :: Entry(inum, j))
  }

  /** What a write of n bytes at off has to allocate. */
  function Missing(fs: Fs, inum: nat, off: nat, n: nat): set<Slot> {
    set t | t in Slots(inum) && Wanted(inum, off, n, t) && At(fs, t) == 0
  }

  function FreeBlocks(sb: Super, fs: Fs): set<nat> {
    set b: nat | b < sb.size && !Used(sb, fs, b)
  }

  /** No slot moved, and only slots that a write of n bytes at off needs were filled. */
  ghost predicate FilledWithin(fs0: Fs, fs: Fs, inum: nat, off: nat, n: nat) {
    forall t :: At(fs, t) == At(fs0, t) || (At(fs0, t) == 0 && Wanted(inum, off, n, t))
  }

  lemma FilledRefl(fs: Fs, inum: nat, off: nat, n: nat)
    ensures FilledWithin(fs, fs, inum, off, n)
  {
  }

  lemma FilledWider(fs0: Fs, fs1: Fs, inum: nat, off: nat, n: nat, n': nat)
    requires FilledWithin(fs0, fs1, inum, off, n) && n <= n'
    ensures FilledWithin(fs0, fs1, inum, off, n')
  {
    hide At;
  }

  /** A part of the range, then another part. */
  lemma FilledPart(fs0: Fs, fs1: Fs, fs2: Fs, inum: nat, off: nat, n: nat, off': nat, n': nat)
    requires FilledWithin(fs0, fs1, inum, off, n) && FilledWithin(fs1, fs2, inum, off', n')
    requires off <= off' && off' + n' <= off + n
    ensures FilledWithin(fs0, fs2, inum, off, n)
  {
    hide At;
  }

  lemma {:induction false} Injects<A, B>(a: set<A>, b: set<B>, f: map<A, B>)
    requires forall x :: x in a ==> x in f && f[x] in b
    requires forall x, y :: x in a && y in a && x != y ==> f[x] != f[y]
    ensures |a| <= |b|
    decreases |a|
  {
    if a != {} {
      var x :| x in a;
      Injects(a - {x}, b - {f[x]}, f);
    }
  }

  /** A slot that was filled since took a block that was free. */
  lemma WasFree(sb: Super, fs0: Fs, fs: Fs, owner0: map<nat, Slot>, owner: map<nat, Slot>, t: Slot)
    requires Owned(sb, fs0, owner0, {}, {}) && Owned(sb, fs, owner, {}, {}) && IsSlot(sb, t)
    requires forall u :: At(fs0, u) != 0 ==> At(fs, u) == At(fs0, u)
    requires At(fs0, t) == 0 != At(fs, t)
    ensures At(fs, t) in FreeBlocks(sb, fs0) && At(fs, t) in owner && owner[At(fs, t)] == t
  {
    hide At, Used;
    var b := At(fs, t);
    assert Holds(sb, fs, owner[b], b);
    assert b in owner0 ==> Holds(sb, fs0, owner0[b], b);
  }

  lemma SlotIs(sb: Super, inum: nat, t: Slot)
    requires inum < sb.ninodes
    ensures t in Slots(inum) <==> IsSlot(sb, t) && t.inum == inum
  {
  }

  /** Once every slot is filled, there were enough free blocks. */
  lemma AllThere(sb: Super, fs0: Fs, fs: Fs, owner0: map<nat, Slot>, owner: map<nat, Slot>, inum: nat, off: nat, n: nat)
    requires Owned(sb, fs0, owner0, {}, {}) && Owned(sb, fs, owner, {}, {}) && inum < sb.ninodes
    requires forall u :: At(fs0, u) != 0 ==> At(fs, u) == At(fs0, u)
    requires forall t :: t in Missing(fs0, inum, off, n) ==> At(fs, t) != 0
    ensures |Missing(fs0, inum, off, n)| <= |FreeBlocks(sb, fs0)|
  {
    hide At, Used, Wanted, Slots;
    var m := Missing(fs0, inum, off, n);
    var f := map t | t in m :: At(fs, t);
    forall t | t in m ensures f[t] in FreeBlocks(sb, fs0) && f[t] in owner && owner[f[t]] == t {
      SlotIs(sb, inum, t);
      WasFree(sb, fs0, fs, owner0, owner, t);
    }
    Injects(m, FreeBlocks(sb, fs0), f);
  }

  /** With no block free any more, every one that was free fills a slot; so if one slot is still empty,
      there were too few. */
  lemma OneEmpty(sb: Super, fs0: Fs, fs: Fs, owner0: map<nat, Slot>, owner: map<nat, Slot>, inum: nat, off: nat, n: nat,
                 t: Slot)
    requires Owned(sb, fs0, owner0, {}, {}) && Owned(sb, fs, owner, {}, {}) && inum < sb.ninodes
    requires FilledWithin(fs0, fs, inum, off, n) && Full(sb, fs)
    requires t in Missing(fs0, inum, off, n) && At(fs, t) == 0
    ensures |FreeBlocks(sb, fs0)| < |Missing(fs0, inum, off, n)|
  {
    hide At, Used, Wanted, Slots;
    var m, free := Missing(fs0, inum, off, n), FreeBlocks(sb, fs0);
    forall b | b in free ensures b in owner && owner[b] in m - {t} && At(fs, owner[b]) == b {
      assert Holds(sb, fs, owner[b], b);
      assert At(fs0, owner[b]) != b;
      WantedSlot(sb, inum, off, n, owner[b]);
    }
    Injects(free, m - {t}, owner);
  }

  lemma WantedSlot(sb: Super, inum: nat, off: nat, n: nat, t: Slot)
    requires inum < sb.ninodes && Wanted(inum, off, n, t)
    ensures t in Slots(inum)
  {
  }

  /** Every slot a write needs is there once the file has no holes up to its end. */
  lemma NoneMissing(fs: Fs, inum: nat, off: nat, n: nat)
    requires NoHoles(fs, inum, off + n)
    ensures Missing(fs, inum, off, n) == {}
  {
    forall t | t in Slots(inum) && Wanted(inum, off, n, t) ensures At(fs, t) != 0 {
      var last := (off + n - 1) / BSIZE;
      assert FileBlock(fs, inum, last) != 0;
      if t.Entry? {
        assert FileBlock(fs, inum, NDIRECT + t.j) != 0;
      } else if t.k < NDIRECT {
        assert FileBlock(fs, inum, t.k) != 0;
      }
    }
  }

  /** The block of byte i of a range is one of those wanted. */
  lemma BlockWanted(inum: nat, off: nat, n: nat, i: nat)
    requires off <= i < off + n && i / BSIZE < MAXFILE
    ensures Wanted(inum, off, n, SlotOf(inum, i / BSIZE)) && SlotOf(inum, i / BSIZE) in Slots(inum)
    ensures i / BSIZE >= NDIRECT ==> Wanted(inum, off, n, Addr(inum, NDIRECT))
  {
  }
}
