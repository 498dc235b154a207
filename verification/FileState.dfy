/** The file system of kernel/fs.c as values: a block map (what the log and the cache
    provide), the inodes, the free map, and who holds which block. */
module FileState {
  import opened Blocks
  import opened Bitmap

  const NDIRECT: nat := 12
  const NINDIRECT: nat := 256
  const MAXFILE: nat := 268   // NDIRECT + NINDIRECT
  const MAXSIZE: nat := 274432 // MAXFILE * BSIZE
  const IPB: nat := 16

  /** The super block, with the first data block that mkfs leaves after the free map. */
  datatype Super = Super(size: nat, ninodes: nat, inodestart: nat, bmapstart: nat, datastart: nat) {
    predicate Good() {
      && 0 < size < 0x8000_0000 && 0 < inodestart
      && inodestart + ninodes / IPB + 1 <= bmapstart
      && bmapstart + (size - 1) / BPB < datastart <= size
    }

    function BBlock(b: nat): nat { bmapstart + b / BPB }

    function IBlock(i: nat): nat { inodestart + i / IPB }
  }

  /** struct inode: the words (type, major) and (minor, nlink), the size and the block numbers. */
  datatype Inode = Inode(kind: nat, links: nat, size: nat, addrs: seq<nat>)

  datatype Fs = Fs(blocks: seq<Block>, inodes: seq<Inode>)

  /** The places that can hold a block number. */
  datatype Slot = Addr(inum: nat, k: nat) | Entry(inum: nat, j: nat)

  predicate GoodInode(ip: Inode) {
    && ip.kind < WORD_LIMIT && ip.links < WORD_LIMIT && ip.size <= MAXSIZE
    && |ip.addrs| == NDIRECT + 1
    && forall k :: 0 <= k <= NDIRECT ==> ip.addrs[k] < WORD_LIMIT
  }

  predicate Shape(sb: Super, fs: Fs) {
    && sb.Good() && |fs.blocks| == sb.size && |fs.inodes| == sb.ninodes
    && forall i :: 0 <= i < |fs.inodes| ==> GoodInode(fs.inodes[i])
  }

  predicate IsSlot(sb: Super, t: Slot) {
    t.inum < sb.ninodes && (if t.Addr? then t.k <= NDIRECT else t.j < NINDIRECT)
  }

  /** The j-th word of the block numbered b; 0 if b is. */
  function WordIn(blocks: seq<Block>, b: nat, j: nat): nat {
    if 0 < b < |blocks| && j < NINDIRECT then Word(blocks[b], j) else 0
  }

  /** The block number found in a slot; 0 where there is none. */
  function At(fs: Fs, t: Slot): nat {
    if t.inum >= |fs.inodes| || |fs.inodes[t.inum].addrs| != NDIRECT + 1 then 0
    else if t.Entry? then WordIn(fs.blocks, fs.inodes[t.inum].addrs[NDIRECT], t.j)
    else if t.k <= NDIRECT then fs.inodes[t.inum].addrs[t.k]
    else 0
  }

  predicate Used(sb: Super, fs: Fs, b: nat) {
    sb.BBlock(b) < |fs.blocks| && TestBit(fs.blocks[sb.BBlock(b)], b % BPB)
  }

  /** No block is free. */
  ghost predicate Full(sb: Super, fs: Fs) {
    forall b: nat :: b < sb.size ==> Used(sb, fs, b)
  }

  lemma BitmapInRange(sb: Super, b: nat)
    requires sb.Good() && b < sb.size
    ensures sb.bmapstart <= sb.BBlock(b) < sb.datastart <= sb.size
  {
  }

  /** Block ownership. Every block number outside dead slots is held exactly once, and a
      block is marked used exactly when it is metadata, held, or loose (allocated by a
      call that has yet to store it). */
  ghost predicate Owned(sb: Super, fs: Fs, owner: map<nat, Slot>, loose: set<nat>, dead: set<Slot>) {
    && Shape(sb, fs)
    && (forall t :: IsSlot(sb, t) && t !in dead && At(fs, t) != 0 ==> At(fs, t) in owner && owner[At(fs, t)] == t)
    && (forall b :: b in owner ==> Holds(sb, fs, owner[b], b) && owner[b] !in dead)
    && (forall b :: b in loose ==> sb.datastart <= b < sb.size && b !in owner)
    && (forall b: nat :: b < sb.size ==> (Used(sb, fs, b) <==> b < sb.datastart || b in owner || b in loose))
  }

  predicate Holds(sb: Super, fs: Fs, t: Slot, b: nat) {
    IsSlot(sb, t) && sb.datastart <= b < sb.size && At(fs, t) == b
  }

  // ----- files -----

  function SlotOf(inum: nat, bn: nat): Slot {
    if bn < NDIRECT then Addr(inum, bn) else Entry(inum, bn - NDIRECT)
  }

  /** The disk block of the bn-th block of a file. */
  function FileBlock(fs: Fs, inum: nat, bn: nat): nat {
    At(fs, SlotOf(inum, bn))
  }

  function ByteAt(fs: Fs, inum: nat, i: nat): Byte {
    if FileBlock(fs, inum, i / BSIZE) < |fs.blocks| then fs.blocks[FileBlock(fs, inum, i / BSIZE)][i % BSIZE] else 0
  }

  /** Where things are: the first twelve blocks of a file are named in its inode, the others in its indirect
      block, as words with the lowest byte first; sixteen inodes and 8192 map bits go into a block. */
  lemma Layout(sb: Super, fs: Fs, inum: nat, bn: nat, w: Block, j: nat, b: nat)
    requires inum < |fs.inodes| && GoodInode(fs.inodes[inum]) && bn < MAXFILE && j < NINDIRECT
    ensures bn < 12 ==> FileBlock(fs, inum, bn) == fs.inodes[inum].addrs[bn]
    ensures bn >= 12 && 0 < fs.inodes[inum].addrs[12] < |fs.blocks| ==>
              FileBlock(fs, inum, bn) == Word(fs.blocks[fs.inodes[inum].addrs[12]], bn - 12)
    ensures Word(w, j) == w[4 * j] as int + 0x100 * (w[4 * j + 1] as int) + 0x1_0000 * (w[4 * j + 2] as int)
                          + 0x100_0000 * (w[4 * j + 3] as int)
    ensures sb.IBlock(inum) == sb.inodestart + inum / 16 && sb.BBlock(b) == sb.bmapstart + b / 8192
    ensures TestBit(w, b % 8192) <==> HasBit(w[b % 8192 / 8], b % 8)
  {
  }

  /** A file is the byte array its blocks spell out up to its size. */
  function Content(fs: Fs, inum: nat): (c: seq<Byte>)
    requires inum < |fs.inodes|
    ensures |c| == fs.inodes[inum].size
  {
    seq(fs.inodes[inum].size, (i: nat) => ByteAt(fs, inum, i))
  }

  /** Every block below the size is there. */
  ghost predicate NoHoles(fs: Fs, inum: nat, size: nat) {
    forall bn: nat :: bn * BSIZE < size ==> FileBlock(fs, inum, bn) != 0
  }

  ghost predicate AllFilled(fs: Fs) {
    forall i :: 0 <= i < |fs.inodes| ==> NoHoles(fs, i, fs.inodes[i].size)
  }

  /** Block bn of file o, if there is one, is where it was, with the same contents. */
  predicate BlockKept(fs: Fs, fs': Fs, o: nat, bn: nat) {
    FileBlock(fs, o, bn) == 0
    || (FileBlock(fs', o, bn) == FileBlock(fs, o, bn) && SameBlock(fs, fs', FileBlock(fs, o, bn)))
  }

  predicate SameBlock(fs: Fs, fs': Fs, b: nat) {
    if b < |fs.blocks| && b < |fs'.blocks| then fs.blocks[b] == fs'.blocks[b] else |fs.blocks| == |fs'.blocks|
  }

  ghost predicate BlocksKept(fs: Fs, fs': Fs, o: nat) {
    |fs'.blocks| == |fs.blocks| && forall bn: nat :: bn < MAXFILE ==> BlockKept(fs, fs', o, bn)
  }

  lemma BlocksTrans(fs0: Fs, fs1: Fs, fs2: Fs, o: nat)
    requires BlocksKept(fs0, fs1, o) && BlocksKept(fs1, fs2, o)
    ensures BlocksKept(fs0, fs2, o)
  {
    hide At;
    forall bn: nat | bn < MAXFILE ensures BlockKept(fs0, fs2, o, bn) {
      assert BlockKept(fs0, fs1, o, bn) && BlockKept(fs1, fs2, o, bn);
    }
  }

  /** A file whose blocks are kept reads the same, byte by byte. */
  lemma SameBytes(fs: Fs, fs': Fs, o: nat, i: nat)
    requires BlocksKept(fs, fs', o) && i < MAXSIZE && FileBlock(fs, o, i / BSIZE) != 0
    ensures FileBlock(fs', o, i / BSIZE) != 0 && ByteAt(fs', o, i) == ByteAt(fs, o, i)
  {
    hide At;
    assert BlockKept(fs, fs', o, i / BSIZE);
  }

  lemma SameContent(fs: Fs, fs': Fs, o: nat)
    requires o < |fs.inodes| == |fs'.inodes| && NoHoles(fs, o, fs.inodes[o].size)
    requires fs'.inodes[o].size == fs.inodes[o].size <= MAXSIZE && BlocksKept(fs, fs', o)
    ensures Content(fs', o) == Content(fs, o) && NoHoles(fs', o, fs'.inodes[o].size)
  {
    hide At;
    forall bn: nat | bn * BSIZE < fs.inodes[o].size ensures FileBlock(fs', o, bn) != 0 {
      SameBytes(fs, fs', o, bn * BSIZE);
    }
    forall i: nat | i < fs.inodes[o].size ensures ByteAt(fs', o, i) == ByteAt(fs, o, i) {
      assert i / BSIZE * BSIZE < fs.inodes[o].size;
      SameBytes(fs, fs', o, i);
    }
  }

  // ----- one lemma per change -----

  lemma BitsAfter(sb: Super, fs: Fs, fs': Fs, b: nat, x: nat, on: bool)
    requires sb.Good() && |fs.blocks| == |fs'.blocks| == sb.size && b < sb.size && x < sb.size
    requires sb.BBlock(b) < sb.size
    requires fs'.blocks[sb.BBlock(b)] ==
             if on then SetBit(fs.blocks[sb.BBlock(b)], b % BPB) else ClearBit(fs.blocks[sb.BBlock(b)], b % BPB)
    requires sb.BBlock(x) != sb.BBlock(b) && sb.BBlock(x) < sb.size ==>
               fs'.blocks[sb.BBlock(x)] == fs.blocks[sb.BBlock(x)]
    ensures Used(sb, fs', x) == if x == b then on else Used(sb, fs, x)
  {
    BitmapInRange(sb, x);
    if sb.BBlock(x) == sb.BBlock(b) {
      BlockBits(fs.blocks[sb.BBlock(b)], b % BPB, x % BPB);
      assert x % BPB == b % BPB ==> x == b;
    }
  }

  /** No write to a block that is not an indirect block moves a slot. */
  lemma AtKept(sb: Super, fs: Fs, fs': Fs, owner: map<nat, Slot>, loose: set<nat>, dead: set<Slot>, t: Slot)
    requires Owned(sb, fs, owner, loose, dead) && |fs'.blocks| == |fs.blocks| && |fs'.inodes| == |fs.inodes|
    requires forall i :: 0 <= i < sb.ninodes ==> fs'.inodes[i].addrs == fs.inodes[i].addrs
    requires forall i :: 0 <= i < sb.ninodes ==> Addr(i, NDIRECT) !in dead
    requires forall b :: b in owner && owner[b].Addr? && owner[b].k == NDIRECT && b < sb.size ==>
               fs'.blocks[b] == fs.blocks[b]
    ensures At(fs', t) == At(fs, t)
  {
    if t.inum < sb.ninodes {
      assert IsSlot(sb, Addr(t.inum, NDIRECT)) && GoodInode(fs.inodes[t.inum]);
      assert At(fs, Addr(t.inum, NDIRECT)) == fs.inodes[t.inum].addrs[NDIRECT];
    }
  }

  /** balloc's effect: mark and zero. */
  function Allocate(sb: Super, fs: Fs, b: nat): Fs
    requires sb.BBlock(b) < |fs.blocks| && b < |fs.blocks|
  {
    Fs(fs.blocks[sb.BBlock(b) := SetBit(fs.blocks[sb.BBlock(b)], b % BPB)][b := Zeroed()], fs.inodes)
  }

  /** balloc: the new block was free, so nothing anyone holds changes. */
  lemma AllocateOwned(sb: Super, fs: Fs, owner: map<nat, Slot>, b: nat)
    requires Owned(sb, fs, owner, {}, {}) && b < sb.size && !Used(sb, fs, b)
    ensures sb.datastart <= b && b !in owner && sb.BBlock(b) < sb.datastart <= |fs.blocks|
    ensures Owned(sb, Allocate(sb, fs, b), owner, {b}, {})
    ensures forall t :: At(Allocate(sb, fs, b), t) == At(fs, t)
  {
    BitmapInRange(sb, b);
    var fs' := Allocate(sb, fs, b);
    forall t ensures At(fs', t) == At(fs, t) {
      AtKept(sb, fs, fs', owner, {}, {}, t);
    }
    AllocateBits(sb, fs, b);
    StillOwned(sb, fs, fs', owner, {}, {}, {b});
  }

  lemma AllocateBits(sb: Super, fs: Fs, b: nat)
    requires Shape(sb, fs) && sb.datastart <= b < sb.size && sb.BBlock(b) < sb.size
    ensures forall x: nat :: x < sb.size ==> Used(sb, Allocate(sb, fs, b), x) == (x == b || Used(sb, fs, x))
  {
    BitmapInRange(sb, b);
    forall x: nat | x < sb.size ensures Used(sb, Allocate(sb, fs, b), x) == (x == b || Used(sb, fs, x)) {
      BitmapInRange(sb, x);
      BitsAfter(sb, fs, Allocate(sb, fs, b), b, x, true);
    }
  }

  /** Slots and holders as before; only the set of loose blocks, with their bits, may change. */
  lemma StillOwned(sb: Super, fs: Fs, fs': Fs, owner: map<nat, Slot>, dead: set<Slot>, loose: set<nat>,
                   loose': set<nat>)
    requires Owned(sb, fs, owner, loose, dead) && Shape(sb, fs')
    requires forall t :: At(fs', t) == At(fs, t)
    requires forall b :: b in loose' ==> sb.datastart <= b < sb.size && b !in owner
    requires forall x: nat :: x < sb.size && x !in loose && x !in loose' ==> (Used(sb, fs', x) <==> Used(sb, fs, x))
    requires forall x: nat :: x in loose' ==> Used(sb, fs', x)
    requires forall x: nat :: x in loose && x !in loose' ==> !Used(sb, fs', x)
    ensures Owned(sb, fs', owner, loose', dead)
  {
    hide At, Used, Shape;
  }

  function SetInode(fs: Fs, i: nat, ip: Inode): Fs
    requires i < |fs.inodes|
  {
    Fs(fs.blocks, fs.inodes[i := ip])
  }

  function SetAddr(fs: Fs, i: nat, k: nat, b: nat): Fs
    requires i < |fs.inodes| && k < |fs.inodes[i].addrs|
  {
    SetInode(fs, i, fs.inodes[i].(addrs := fs.inodes[i].addrs[k := b]))
  }

  /** bmap stores a fresh block in the inode. */
  lemma AttachOwned(sb: Super, fs: Fs, owner: map<nat, Slot>, i: nat, k: nat, b: nat)
    requires Owned(sb, fs, owner, {b}, {}) && i < |fs.inodes| && k <= NDIRECT && At(fs, Addr(i, k)) == 0
    requires |fs.inodes[i].addrs| == NDIRECT + 1 && b < |fs.blocks| && fs.blocks[b] == Zeroed()
    ensures Owned(sb, SetAddr(fs, i, k, b), owner[b := Addr(i, k)], {}, {})
    ensures forall t :: At(SetAddr(fs, i, k, b), t) == if t == Addr(i, k) then b else At(fs, t)
  {
    var fs' := SetAddr(fs, i, k, b);
    assert GoodInode(fs.inodes[i]);
    forall j: nat | j < NINDIRECT ensures Word(Zeroed(), j) == 0 {
    }
    forall t ensures At(fs', t) == if t == Addr(i, k) then b else At(fs, t) {
      if t.Entry? && t.inum == i {
        assert At(fs, Addr(i, NDIRECT)) == fs.inodes[i].addrs[NDIRECT];
      }
    }
    HeldOwned(sb, fs, fs', owner, b, Addr(i, k));
  }

  /** The loose block b is stored in the empty slot t. */
  lemma HeldOwned(sb: Super, fs: Fs, fs': Fs, owner: map<nat, Slot>, b: nat, t: Slot)
    requires Owned(sb, fs, owner, {b}, {}) && Shape(sb, fs') && IsSlot(sb, t) && At(fs, t) == 0
    requires forall u :: At(fs', u) == if u == t then b else At(fs, u)
    requires forall x: nat :: x < sb.size ==> (Used(sb, fs', x) <==> Used(sb, fs, x))
    ensures Owned(sb, fs', owner[b := t], {}, {})
  {
    hide At, Used;
    assert b in {b};
    var owner' := owner[b := t];
    forall u | IsSlot(sb, u) && At(fs', u) != 0 ensures At(fs', u) in owner' && owner'[At(fs', u)] == u {
      assert u != t ==> At(fs, u) in owner && At(fs, u) != b;
    }
    forall x | x in owner' ensures Holds(sb, fs', owner'[x], x) {
      assert x != b ==> Holds(sb, fs, owner[x], x) && owner[x] != t;
    }
  }

  function SetBlock(fs: Fs, b: nat, data: Block): Fs
    requires b < |fs.blocks|
  {
    Fs(fs.blocks[b := data], fs.inodes)
  }

  /** bmap stores a fresh block in the indirect block. */
  lemma EntryOwned(sb: Super, fs: Fs, owner: map<nat, Slot>, i: nat, j: nat, b: nat, ind: nat)
    requires Owned(sb, fs, owner, {b}, {}) && i < |fs.inodes| && j < NINDIRECT && At(fs, Entry(i, j)) == 0
    requires ind == At(fs, Addr(i, NDIRECT)) && ind != 0 && b < WORD_LIMIT
    ensures ind < |fs.blocks| && sb.datastart <= ind != b
    ensures Owned(sb, SetBlock(fs, ind, SetWord(fs.blocks[ind], j, b)), owner[b := Entry(i, j)], {}, {})
    ensures forall t :: At(SetBlock(fs, ind, SetWord(fs.blocks[ind], j, b)), t) == if t == Entry(i, j) then b
            else At(fs, t)
  {
    assert GoodInode(fs.inodes[i]) && IsSlot(sb, Addr(i, NDIRECT));
    assert ind in owner && Holds(sb, fs, owner[ind], ind) && b in {b};
    var fs' := SetBlock(fs, ind, SetWord(fs.blocks[ind], j, b));
    forall t ensures At(fs', t) == if t == Entry(i, j) then b else At(fs, t) {
      if t.Entry? && t.j < NINDIRECT {
        WordOfSetWord(fs.blocks[ind], j, b, t.j);
        if t.inum < |fs.inodes| && t.inum != i {
          assert GoodInode(fs.inodes[t.inum]) && IsSlot(sb, Addr(t.inum, NDIRECT));
          assert At(fs, Addr(t.inum, NDIRECT)) != ind;
        }
      }
    }
    BitmapUntouched(sb, fs, fs', ind);
    HeldOwned(sb, fs, fs', owner, b, Entry(i, j));
  }

  /** A write at or past datastart, or below bmapstart, changes no bit. */
  lemma BitmapUntouched(sb: Super, fs: Fs, fs': Fs, b: nat)
    requires Shape(sb, fs) && |fs'.blocks| == |fs.blocks| && (sb.datastart <= b || b < sb.bmapstart)
    requires forall x: nat :: x < sb.size && x != b ==> fs'.blocks[x] == fs.blocks[x]
    ensures forall x: nat :: x < sb.size ==> (Used(sb, fs', x) <==> Used(sb, fs, x))
  {
    forall x: nat | x < sb.size ensures (Used(sb, fs', x) <==> Used(sb, fs, x)) {
      BitmapInRange(sb, x);
    }
  }

  /** writei's store into a data block, or iupdate's into an inode block: no slot moves, no bit changes. */
  lemma StoreOwned(sb: Super, fs: Fs, owner: map<nat, Slot>, b: nat, data: Block)
    requires Owned(sb, fs, owner, {}, {})
    requires 0 < b < sb.bmapstart || (b in owner && owner[b] != Addr(owner[b].inum, NDIRECT))
    ensures b < |fs.blocks|
    ensures Owned(sb, SetBlock(fs, b, data), owner, {}, {})
    ensures forall t :: At(SetBlock(fs, b, data), t) == At(fs, t)
  {
    assert b in owner ==> Holds(sb, fs, owner[b], b);
    var fs' := SetBlock(fs, b, data);
    forall t ensures At(fs', t) == At(fs, t) {
      forall x | x in owner && owner[x].Addr? && owner[x].k == NDIRECT && x < sb.size
        ensures fs'.blocks[x] == fs.blocks[x]
      {
        assert Holds(sb, fs, owner[x], x);
      }
      AtKept(sb, fs, fs', owner, {}, {}, t);
    }
    BitmapUntouched(sb, fs, fs', b);
    StillOwned(sb, fs, fs', owner, {}, {}, {});
  }

  /** A change of the other inode fields moves no slot. */
  lemma ResizeOwned(sb: Super, fs: Fs, owner: map<nat, Slot>, i: nat, ip: Inode)
    requires Owned(sb, fs, owner, {}, {}) && i < |fs.inodes| && GoodInode(ip) && ip.addrs == fs.inodes[i].addrs
    ensures Owned(sb, SetInode(fs, i, ip), owner, {}, {})
    ensures forall t :: At(SetInode(fs, i, ip), t) == At(fs, t)
  {
    var fs' := SetInode(fs, i, ip);
    forall x: nat | x < sb.size ensures (Used(sb, fs', x) <==> Used(sb, fs, x)) {
    }
    StillOwned(sb, fs, fs', owner, {}, {}, {});
  }

  // ----- freeing -----

  /** bfree's effect. */
  function Free(sb: Super, fs: Fs, b: nat): Fs
    requires sb.BBlock(b) < |fs.blocks|
  {
    Fs(fs.blocks[sb.BBlock(b) := ClearBit(fs.blocks[sb.BBlock(b)], b % BPB)], fs.inodes)
  }

  /** bfree of a held block: it was marked used; its slot is dead until the caller clears it. */
  lemma FreeOwned(sb: Super, fs: Fs, owner: map<nat, Slot>, dead: set<Slot>, b: nat)
    requires Owned(sb, fs, owner, {}, dead) && b in owner
    requires forall i :: 0 <= i < sb.ninodes ==> Addr(i, NDIRECT) !in dead
    ensures sb.datastart <= b < sb.size && sb.BBlock(b) < sb.datastart <= |fs.blocks| && Used(sb, fs, b)
    ensures Owned(sb, Free(sb, fs, b), owner - {b}, {}, dead + {owner[b]})
    ensures forall t :: At(Free(sb, fs, b), t) == At(fs, t)
  {
    assert Holds(sb, fs, owner[b], b);
    BitmapInRange(sb, b);
    var fs' := Free(sb, fs, b);
    forall t ensures At(fs', t) == At(fs, t) {
      forall x | x in owner && owner[x].Addr? && owner[x].k == NDIRECT && x < sb.size
        ensures fs'.blocks[x] == fs.blocks[x]
      {
        assert Holds(sb, fs, owner[x], x);
      }
      AtKept(sb, fs, fs', owner, {}, dead, t);
    }
    forall x: nat | x < sb.size ensures Used(sb, fs', x) == (x != b && Used(sb, fs, x)) {
      BitmapInRange(sb, x);
      BitsAfter(sb, fs, fs', b, x, false);
    }
    LostOwned(sb, fs, fs', owner, dead, b);
  }

  lemma LostOwned(sb: Super, fs: Fs, fs': Fs, owner: map<nat, Slot>, dead: set<Slot>, b: nat)
    requires Owned(sb, fs, owner, {}, dead) && b in owner && Shape(sb, fs')
    requires forall t :: At(fs', t) == At(fs, t)
    requires forall x: nat :: x < sb.size ==> Used(sb, fs', x) == (x != b && Used(sb, fs, x))
    ensures Owned(sb, fs', owner - {b}, {}, dead + {owner[b]})
  {
    hide At, Used, Shape;
    var owner', dead' := owner - {b}, dead + {owner[b]};
    assert Holds(sb, fs, owner[b], b);
    forall u | IsSlot(sb, u) && u !in dead' && At(fs', u) != 0 ensures At(fs', u) in owner' && owner'[At(fs', u)] == u {
      assert owner[At(fs, u)] == u;
    }
    forall x | x in owner' ensures Holds(sb, fs', owner'[x], x) && owner'[x] !in dead' {
      assert Holds(sb, fs, owner[x], x);
    }
  }

  /** Clearing a dead slot; with the indirect block's slot go its entries. */
  lemma ClearOwned(sb: Super, fs: Fs, owner: map<nat, Slot>, dead: set<Slot>, dead': set<Slot>, i: nat, k: nat)
    requires Owned(sb, fs, owner, {}, dead) && i < |fs.inodes| && k <= NDIRECT && |fs.inodes[i].addrs| == NDIRECT + 1
    requires Addr(i, k) in dead && dead' <= dead
    requires forall t :: t in dead && t !in dead' ==> t == Addr(i, k) || (k == NDIRECT && t.Entry? && t.inum == i)
    requires k == NDIRECT ==> forall j: nat :: j < NINDIRECT && At(fs, Entry(i, j)) != 0 ==> Entry(i, j) in dead
    ensures Owned(sb, SetAddr(fs, i, k, 0), owner, {}, dead')
    ensures forall t :: At(SetAddr(fs, i, k, 0), t) ==
                        if t == Addr(i, k) || (k == NDIRECT && t.Entry? && t.inum == i) then 0 else At(fs, t)
  {
    var fs' := SetAddr(fs, i, k, 0);
    assert GoodInode(fs.inodes[i]);
    forall t
      ensures At(fs', t) == if t == Addr(i, k) || (k == NDIRECT && t.Entry? && t.inum == i) then 0 else At(fs, t)
    {
    }
    forall x: nat | x < sb.size ensures (Used(sb, fs', x) <==> Used(sb, fs, x)) {
    }
    forall x | x in owner ensures Holds(sb, fs', owner[x], x) && owner[x] !in dead' {
      assert Holds(sb, fs, owner[x], x);
    }
  }

  // ----- what a call leaves alone -----

  /** Blocks outside the free map are as before. */
  predicate DataKept(sb: Super, fs: Fs, fs': Fs) {
    && |fs'.blocks| == |fs.blocks|
    && forall b: nat :: b < |fs.blocks| && (b < sb.bmapstart || sb.datastart <= b) ==> fs'.blocks[b] == fs.blocks[b]
  }

  /** A file none of whose slots moved, with the data area untouched, is kept. */
  lemma KeptByData(sb: Super, fs: Fs, fs': Fs, owner: map<nat, Slot>, dead: set<Slot>, loose: set<nat>, o: nat)
    requires Owned(sb, fs, owner, loose, dead) && DataKept(sb, fs, fs') && o < sb.ninodes
    requires forall t :: t in dead ==> t.inum != o
    requires forall t: Slot :: t.inum == o ==> At(fs', t) == At(fs, t) || At(fs, t) == 0
    ensures BlocksKept(fs, fs', o)
  {
    hide At, Used;
    forall bn: nat | bn < MAXFILE ensures BlockKept(fs, fs', o, bn) {
      var b := FileBlock(fs, o, bn);
      assert IsSlot(sb, SlotOf(o, bn));
      if b != 0 {
        assert Holds(sb, fs, owner[b], b);
      }
    }
  }

  /** What bmap may do: fill empty slots of one inode, leaving every block a file has as it was. */
  ghost predicate Grown(sb: Super, fs: Fs, fs': Fs, inum: nat) {
    && |fs'.blocks| == |fs.blocks| && inum < |fs'.inodes| == |fs.inodes|
    && SameMeta(fs.inodes[inum], fs'.inodes[inum])
    && (forall o: nat :: o < |fs.inodes| && o != inum ==> fs'.inodes[o] == fs.inodes[o])
    && (forall o: nat :: o < |fs.inodes| ==> BlocksKept(fs, fs', o))
    && (forall b: nat :: b < sb.bmapstart && b < |fs.blocks| ==> fs'.blocks[b] == fs.blocks[b])
  }

  predicate SameMeta(ip: Inode, ip': Inode) {
    ip'.kind == ip.kind && ip'.links == ip.links && ip'.size == ip.size
  }

  /** Every inode has its type, device and links as before, and all but inum have everything as before. */
  ghost predicate InodesKept(before: seq<Inode>, after: seq<Inode>, inum: nat) {
    && |after| == |before|
    && forall o: nat :: o < |before| ==>
         && after[o].kind == before[o].kind && after[o].links == before[o].links
         && (o != inum ==> after[o] == before[o])
  }

  lemma GrownTrans(sb: Super, fs0: Fs, fs1: Fs, fs2: Fs, inum: nat)
    requires Grown(sb, fs0, fs1, inum) && Grown(sb, fs1, fs2, inum)
    ensures Grown(sb, fs0, fs2, inum)
  {
    hide BlocksKept;
    forall o: nat | o < |fs0.inodes| ensures BlocksKept(fs0, fs2, o) {
      BlocksTrans(fs0, fs1, fs2, o);
    }
  }

  lemma AllocateGrows(sb: Super, fs: Fs, owner: map<nat, Slot>, b: nat, inum: nat)
    requires Owned(sb, fs, owner, {}, {}) && b < sb.size && !Used(sb, fs, b) && inum < |fs.inodes|
    ensures sb.BBlock(b) < |fs.blocks| && b < |fs.blocks| && Grown(sb, fs, Allocate(sb, fs, b), inum)
  {
    AllocateOwned(sb, fs, owner, b);
    BitmapInRange(sb, b);
    forall o: nat | o < |fs.inodes| ensures BlocksKept(fs, Allocate(sb, fs, b), o) {
      KeptButOne(sb, fs, Allocate(sb, fs, b), owner, {}, b, o);
    }
  }

  /** One block outside every file changes. */
  lemma KeptButOne(sb: Super, fs: Fs, fs': Fs, owner: map<nat, Slot>, loose: set<nat>, w: nat, o: nat)
    requires Owned(sb, fs, owner, loose, {}) && |fs'.blocks| == |fs.blocks| && o < sb.ninodes
    requires forall b: nat :: sb.datastart <= b < |fs.blocks| && b != w ==> fs'.blocks[b] == fs.blocks[b]
    requires w in owner ==> owner[w].Addr? && owner[w].k == NDIRECT
    requires forall t :: At(fs, t) != 0 ==> At(fs', t) == At(fs, t)
    ensures BlocksKept(fs, fs', o)
  {
    hide At, Used;
    forall bn: nat | bn < MAXFILE ensures BlockKept(fs, fs', o, bn) {
      var b := FileBlock(fs, o, bn);
      assert IsSlot(sb, SlotOf(o, bn));
      if b != 0 {
        assert Holds(sb, fs, owner[b], b);
      }
    }
  }

  lemma AttachGrows(sb: Super, fs: Fs, owner: map<nat, Slot>, i: nat, k: nat, b: nat)
    requires Owned(sb, fs, owner, {b}, {}) && i < |fs.inodes| && k <= NDIRECT && At(fs, Addr(i, k)) == 0
    requires |fs.inodes[i].addrs| == NDIRECT + 1 && b < |fs.blocks| && fs.blocks[b] == Zeroed()
    ensures Grown(sb, fs, SetAddr(fs, i, k, b), i)
  {
    AttachOwned(sb, fs, owner, i, k, b);
    forall o: nat | o < |fs.inodes| ensures BlocksKept(fs, SetAddr(fs, i, k, b), o) {
      assert b in {b};
      KeptButOne(sb, fs, SetAddr(fs, i, k, b), owner, {b}, b, o);
    }
  }

  lemma EntryGrows(sb: Super, fs: Fs, owner: map<nat, Slot>, i: nat, j: nat, b: nat, ind: nat)
    requires Owned(sb, fs, owner, {b}, {}) && i < |fs.inodes| && j < NINDIRECT && At(fs, Entry(i, j)) == 0
    requires ind == At(fs, Addr(i, NDIRECT)) && ind != 0 && b < WORD_LIMIT
    ensures ind < |fs.blocks| && Grown(sb, fs, SetBlock(fs, ind, SetWord(fs.blocks[ind], j, b)), i)
  {
    EntryOwned(sb, fs, owner, i, j, b, ind);
    assert IsSlot(sb, Addr(i, NDIRECT));
    forall o: nat | o < |fs.inodes| ensures BlocksKept(fs, SetBlock(fs, ind, SetWord(fs.blocks[ind], j, b)), o) {
      KeptButOne(sb, fs, SetBlock(fs, ind, SetWord(fs.blocks[ind], j, b)), owner, {b}, ind, o);
    }
  }

  // ----- inodes on disk -----

  function InodeWords(ip: Inode): seq<nat> {
    [ip.kind, ip.links, ip.size] + ip.addrs
  }

  /** In the order of struct dinode: type, links and size, then the thirteen block numbers. */
  lemma InodeLayout(ip: Inode, j: nat)
    requires GoodInode(ip) && j < 16
    ensures |InodeWords(ip)| == 16
    ensures InodeWords(ip)[j] ==
            if j == 0 then ip.kind else if j == 1 then ip.links else if j == 2 then ip.size else ip.addrs[j - 3]
  {
  }

  /** The disk copy of the inode reads back as the copy in memory. */
  predicate Synced(sb: Super, fs: Fs, i: nat) {
    && i < |fs.inodes| && GoodInode(fs.inodes[i]) && sb.IBlock(i) < |fs.blocks|
    && forall k: nat :: k < 16 ==> Word(fs.blocks[sb.IBlock(i)], 16 * (i % IPB) + k) == InodeWords(fs.inodes[i])[k]
  }

  predicate AllSynced(sb: Super, fs: Fs) {
    forall i: nat :: i < |fs.inodes| ==> Synced(sb, fs, i)
  }

  /** iupdate's effect. */
  function Updated(sb: Super, fs: Fs, i: nat): Fs
    requires i < |fs.inodes| && GoodInode(fs.inodes[i]) && sb.IBlock(i) < |fs.blocks|
  {
    SetBlock(fs, sb.IBlock(i), SetWords(fs.blocks[sb.IBlock(i)], 16 * (i % IPB), InodeWords(fs.inodes[i])))
  }

  /** Writing an inode into its block puts it in its place and moves no other inode of the block. */
  lemma UpdateSyncs(sb: Super, fs: Fs, i: nat, o: nat)
    requires Shape(sb, fs) && i < |fs.inodes| && o < |fs.inodes| && sb.IBlock(i) < |fs.blocks|
    requires GoodInode(fs.inodes[i]) && (o == i || Synced(sb, fs, o))
    ensures Synced(sb, Updated(sb, fs, i), o)
  {
    assert GoodInode(fs.inodes[o]);
    var ws := InodeWords(fs.inodes[i]);
    if sb.IBlock(o) == sb.IBlock(i) {
      assert o != i ==> o % IPB != i % IPB;
      forall k: nat | k < 16
        ensures Word(Updated(sb, fs, i).blocks[sb.IBlock(o)], 16 * (o % IPB) + k) == InodeWords(fs.inodes[o])[k]
      {
        WordOfSetWords(fs.blocks[sb.IBlock(i)], 16 * (i % IPB), ws, 16 * (o % IPB) + k);
      }
    }
  }
}
