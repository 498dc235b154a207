/** The invariant of itrunc: while the blocks of one inode are freed one by one, slots that
    still name a freed block are dead, and every other file is untouched. */
module Truncation {
  import opened FileState
  import opened FileContent

  ghost predicate OtherSlots(fs0: Fs, fs: Fs, inum: nat) {
    forall t: Slot :: t.inum != inum ==> At(fs, t) == At(fs0, t)
  }

  ghost predicate Shrinking(owner0: map<nat, Slot>, owner: map<nat, Slot>, inum: nat) {
    && (forall x :: x in owner ==> x in owner0 && owner[x] == owner0[x])
    && (forall x :: x in owner0 && owner0[x].inum != inum ==> x in owner)
  }

  ghost predicate Truncating(sb: Super, fs0: Fs, fs: Fs, owner0: map<nat, Slot>, owner: map<nat, Slot>,
                             dead: set<Slot>, inum: nat) {
    && Owned(sb, fs, owner, {}, dead) && DataKept(sb, fs0, fs)
    && inum < |fs.inodes| == |fs0.inodes| && SameMeta(fs0.inodes[inum], fs.inodes[inum])
    && (forall o: nat :: o < |fs.inodes| && o != inum ==> fs.inodes[o] == fs0.inodes[o])
    && OtherSlots(fs0, fs, inum) && Shrinking(owner0, owner, inum)
    && (forall t :: t in dead ==> t.inum == inum)
  }

  lemma TruncStarts(sb: Super, fs: Fs, owner: map<nat, Slot>, inum: nat)
    requires Owned(sb, fs, owner, {}, {}) && inum < |fs.inodes|
    ensures Truncating(sb, fs, fs, owner, owner, {}, inum)
  {
    hide At, Used;
  }

  /** bfree on the block of a live slot: its bit was set. */
  lemma FreeSlot(sb: Super, fs0: Fs, fs: Fs, owner0: map<nat, Slot>, owner: map<nat, Slot>, dead: set<Slot>, inum: nat,
                 t: Slot, b: nat)
    requires Truncating(sb, fs0, fs, owner0, owner, dead, inum)
    requires IsSlot(sb, t) && t.inum == inum && t !in dead && At(fs, t) == b != 0
    requires Addr(inum, NDIRECT) !in dead
    ensures b < sb.size && sb.bmapstart <= sb.BBlock(b) < sb.datastart && sb.BBlock(b) < |fs.blocks| && Used(sb, fs, b)
    ensures Truncating(sb, fs0, Free(sb, fs, b), owner0, owner - {b}, dead + {t}, inum)
    ensures forall u :: At(Free(sb, fs, b), u) == At(fs, u)
  {
    hide At, Used;
    assert b in owner && owner[b] == t;
    forall i | 0 <= i < sb.ninodes ensures Addr(i, NDIRECT) !in dead {
    }
    FreeOwned(sb, fs, owner, dead, b);
    BitmapInRange(sb, b);
  }

  /** Clearing a slot whose block is free. */
  lemma ClearSlot(sb: Super, fs0: Fs, fs: Fs, owner0: map<nat, Slot>, owner: map<nat, Slot>, dead: set<Slot>,
                  inum: nat, k: nat)
    requires Truncating(sb, fs0, fs, owner0, owner, dead, inum) && k <= NDIRECT && Addr(inum, k) in dead
    requires forall t :: t in dead ==> t == Addr(inum, k) || (k == NDIRECT && t.Entry?)
    requires k == NDIRECT ==> forall j: nat :: j < NINDIRECT && At(fs, Entry(inum, j)) != 0 ==> Entry(inum, j) in dead
    ensures k < |fs.inodes[inum].addrs|
    ensures Truncating(sb, fs0, SetAddr(fs, inum, k, 0), owner0, owner, {}, inum)
    ensures forall t :: At(SetAddr(fs, inum, k, 0), t) ==
                        if t == Addr(inum, k) || (k == NDIRECT && t.Entry? && t.inum == inum) then 0 else At(fs, t)
  {
    hide At, Used;
    assert GoodInode(fs.inodes[inum]);
    ClearOwned(sb, fs, owner, dead, {}, inum, k);
  }

  /** What is left of the ownership map: the blocks of the other inodes. */
  function OwnerWithout(owner: map<nat, Slot>, inum: nat): map<nat, Slot> {
    map x | x in owner && owner[x].inum != inum :: owner[x]
  }

  /** Once the inode holds nothing, exactly its blocks have been freed. */
  lemma FreedExactly(sb: Super, fs0: Fs, fs: Fs, owner0: map<nat, Slot>, owner: map<nat, Slot>, inum: nat)
    requires Owned(sb, fs0, owner0, {}, {}) && Truncating(sb, fs0, fs, owner0, owner, {}, inum)
    requires forall t :: IsSlot(sb, t) && t.inum == inum ==> At(fs, t) == 0
    ensures owner == OwnerWithout(owner0, inum)
    ensures forall b: nat :: b < sb.size ==>
                             (Used(sb, fs, b) <==> Used(sb, fs0, b) && !(b in owner0 && owner0[b].inum == inum))
  {
    hide At, Used;
    forall x | x in owner ensures owner[x].inum != inum {
      assert Holds(sb, fs, owner[x], x);
    }
    forall x | x in owner0 ensures sb.datastart <= x {
      assert Holds(sb, fs0, owner0[x], x);
    }
  }

  /** The size set to 0: every other file reads as before. */
  lemma TruncEnds(sb: Super, fs0: Fs, fs: Fs, fs1: Fs, owner0: map<nat, Slot>, owner: map<nat, Slot>, inum: nat)
    requires Owned(sb, fs0, owner0, {}, {}) && AllFilled(fs0) && AllSynced(sb, fs0)
    requires Truncating(sb, fs0, fs, owner0, owner, {}, inum)
    requires fs1 == SetSize(fs, inum, 0)
    ensures Owned(sb, fs1, owner, {}, {}) && AllFilled(fs1)
    ensures GoodInode(fs1.inodes[inum]) && sb.IBlock(inum) < |fs1.blocks|
    ensures forall o: nat :: o < |fs1.inodes| && o != inum ==> Synced(sb, fs1, o) && Content(fs1, o) == Content(fs0, o)
  {
    hide At, Used;
    assert GoodInode(fs.inodes[inum]);
    ResizeOwned(sb, fs, owner, inum, fs1.inodes[inum]);
    forall o: nat | o < |fs1.inodes| && o != inum
      ensures Synced(sb, fs1, o) && Content(fs1, o) == Content(fs0, o) && NoHoles(fs1, o, fs1.inodes[o].size)
    {
      assert NoHoles(fs0, o, fs0.inodes[o].size) && Synced(sb, fs0, o) && GoodInode(fs0.inodes[o]);
      KeptByData(sb, fs0, fs1, owner0, {}, {}, o);
      SameContent(fs0, fs1, o);
    }
    assert NoHoles(fs1, inum, 0);
  }
}
