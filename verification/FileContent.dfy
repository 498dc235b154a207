/** A file as a byte array, while writei fills it block by block. */
module FileContent {
  import opened Blocks
  import opened ByteArrays
  import opened FileState

  /** memmove into a block. */
  function Overlay(data: Block, at: nat, bytes: seq<Byte>): Block
    requires at + |bytes| <= BSIZE
  {
    data[..at] + bytes + data[at + |bytes|..]
  }

  /** Below its reach the file reads as before, except for the bytes copied so far. */
  ghost predicate Spliced(fs0: Fs, fs: Fs, inum: nat, size: nat, off: nat, bytes: seq<Byte>) {
    forall i: nat :: i < Reach(size, off + |bytes|) ==>
                     ByteAt(fs, inum, i) == if off <= i < off + |bytes| then bytes[i - off] else ByteAt(fs0, inum, i)
  }

  lemma SpliceGrown(sb: Super, fs0: Fs, fs1: Fs, fs2: Fs, inum: nat, size: nat, off: nat, bytes: seq<Byte>)
    requires Spliced(fs0, fs1, inum, size, off, bytes) && Grown(sb, fs1, fs2, inum)
    requires Reach(size, off + |bytes|) <= MAXSIZE && NoHoles(fs1, inum, Reach(size, off + |bytes|))
    ensures Spliced(fs0, fs2, inum, size, off, bytes) && NoHoles(fs2, inum, Reach(size, off + |bytes|))
  {
    hide At;
    forall i: nat | i < Reach(size, off + |bytes|) ensures ByteAt(fs2, inum, i) == ByteAt(fs1, inum, i) {
      assert i / BSIZE * BSIZE < Reach(size, off + |bytes|);
      SameBytes(fs1, fs2, inum, i);
    }
    forall bn: nat | bn * BSIZE < Reach(size, off + |bytes|) ensures FileBlock(fs2, inum, bn) != 0 {
      SameBytes(fs1, fs2, inum, bn * BSIZE);
    }
  }

  /** Writing a data block of a file: this block of this file, and no other block of any. */
  lemma StoreKeeps(sb: Super, fs: Fs, owner: map<nat, Slot>, inum: nat, bn: nat, data: Block, o: nat, bn': nat)
    requires Owned(sb, fs, owner, {}, {}) && inum < sb.ninodes && bn < MAXFILE && o < sb.ninodes && bn' < MAXFILE
    requires FileBlock(fs, inum, bn) != 0
    ensures FileBlock(fs, inum, bn) < |fs.blocks|
    ensures FileBlock(SetBlock(fs, FileBlock(fs, inum, bn), data), o, bn') == FileBlock(fs, o, bn')
    ensures (o, bn') != (inum, bn) ==> BlockKept(fs, SetBlock(fs, FileBlock(fs, inum, bn), data), o, bn')
  {
    hide At, Used;
    assert IsSlot(sb, SlotOf(inum, bn)) && IsSlot(sb, SlotOf(o, bn'));
    var b := FileBlock(fs, inum, bn);
    assert Holds(sb, fs, owner[b], b);
    StoreOwned(sb, fs, owner, b, data);
  }

  /** One round of writei's loop: m more bytes, within one block. */
  lemma SpliceStored(sb: Super, fs0: Fs, fs: Fs, fs': Fs, owner: map<nat, Slot>, inum: nat, size: nat, off: nat,
                     bytes: seq<Byte>, more: seq<Byte>)
    requires Owned(sb, fs, owner, {}, {}) && inum < sb.ninodes && 0 < |more|
    requires Spliced(fs0, fs, inum, size, off, bytes) && NoHoles(fs, inum, Reach(size, off + |bytes|))
    requires off <= size <= MAXSIZE && off + |bytes| + |more| <= MAXSIZE
    requires (off + |bytes|) % BSIZE + |more| <= BSIZE
    requires FileBlock(fs, inum, (off + |bytes|) / BSIZE) != 0
    requires FileBlock(fs, inum, (off + |bytes|) / BSIZE) < |fs.blocks|
    requires fs' == SetBlock(fs, FileBlock(fs, inum, (off + |bytes|) / BSIZE),
                             Overlay(fs.blocks[FileBlock(fs, inum, (off + |bytes|) / BSIZE)], (off + |bytes|) % BSIZE,
                                 more))
    ensures Spliced(fs0, fs', inum, size, off, bytes + more)
    ensures NoHoles(fs', inum, Reach(size, off + |bytes| + |more|))
  {
    hide At, Owned;
    var at := off + |bytes|;
    var bn := at / BSIZE;
    var data := fs'.blocks[FileBlock(fs, inum, bn)];
    forall i: nat | i < Reach(size, at + |more|)
      ensures ByteAt(fs', inum, i) == if off <= i < at + |more| then (bytes + more)[i - off] else ByteAt(fs0, inum, i)
    {
      StoreKeeps(sb, fs, owner, inum, bn, data, inum, i / BSIZE);
      OneByte(fs, fs', inum, at, i, more);
    }
    forall b: nat | b * BSIZE < Reach(size, at + |more|) ensures FileBlock(fs', inum, b) != 0 {
      StoreKeeps(sb, fs, owner, inum, bn, data, inum, b);
    }
  }

  lemma OneByte(fs: Fs, fs': Fs, inum: nat, at: nat, i: nat, more: seq<Byte>)
    requires at % BSIZE + |more| <= BSIZE
    requires FileBlock(fs, inum, at / BSIZE) != 0 && FileBlock(fs, inum, at / BSIZE) < |fs.blocks|
    requires |fs'.blocks| == |fs.blocks|
    requires fs'.blocks[FileBlock(fs, inum, at / BSIZE)] ==
             Overlay(fs.blocks[FileBlock(fs, inum, at / BSIZE)], at % BSIZE, more)
    requires FileBlock(fs', inum, i / BSIZE) == FileBlock(fs, inum, i / BSIZE)
    requires i / BSIZE != at / BSIZE ==> BlockKept(fs, fs', inum, i / BSIZE) && FileBlock(fs, inum, i / BSIZE) != 0
    ensures ByteAt(fs', inum, i) == if at <= i < at + |more| then more[i - at] else ByteAt(fs, inum, i)
  {
    hide At;
    if i / BSIZE == at / BSIZE {
      assert i - at == i % BSIZE - at % BSIZE;
    } else {
      assert !(at <= i < at + |more|);
    }
  }

  /** The loop's result, once the size is set, is one splice of the file. */
  lemma SplicedContent(fs0: Fs, fs: Fs, inum: nat, off: nat, bytes: seq<Byte>)
    requires inum < |fs0.inodes| && inum < |fs.inodes| && off <= fs0.inodes[inum].size
    requires Spliced(fs0, fs, inum, fs0.inodes[inum].size, off, bytes)
    requires fs.inodes[inum].size == Reach(fs0.inodes[inum].size, off + |bytes|)
    ensures Content(fs, inum) == Splice(Content(fs0, inum), off, bytes)
  {
    hide At;
    var c, d := Splice(Content(fs0, inum), off, bytes), Content(fs, inum);
    assert |c| == |d|;
    forall i: nat | i < |d| ensures d[i] == c[i] {
      SpliceAt(Content(fs0, inum), off, bytes, i);
    }
  }

  // ----- how many blocks a write touches -----

  /** The number of blocks that hold bytes off .. off + n. */
  function Touched(off: nat, n: nat): nat {
    if n == 0 then 0 else (off + n - 1) / BSIZE - off / BSIZE + 1
  }

  /** One round of writei ends at a block boundary or at the end, so it adds one block. */
  lemma TouchedStep(off: nat, tot: nat, m: nat)
    requires m > 0 && (off + tot) % BSIZE + m <= BSIZE
    requires tot == 0 || (off + tot) % BSIZE == 0
    ensures Touched(off, tot + m) == Touched(off, tot) + 1
  {
    assert (off + tot + m - 1) / BSIZE == (off + tot) / BSIZE;
  }

  lemma TouchedGrows(off: nat, a: nat, b: nat)
    requires a <= b
    ensures Touched(off, a) <= Touched(off, b)
  {
  }

  /** filewrite's chunk of ((MAXOPBLOCKS-1-1-2)/2)*BSIZE bytes: three blocks, or four if unaligned. */
  lemma ChunkTouches(off: nat, n: nat)
    requires n <= 3 * BSIZE
    ensures Touched(off, n) <= if off % BSIZE == 0 then 3 else 4
  {
  }

  // ----- the state of writei's loop -----

  /** Every file but inum, and every inode block, is as at the start of the call. */
  ghost predicate OthersKept(sb: Super, fs0: Fs, fs: Fs, inum: nat) {
    && |fs.blocks| == |fs0.blocks| && inum < |fs.inodes| == |fs0.inodes|
    && SameMeta(fs0.inodes[inum], fs.inodes[inum])
    && (forall o: nat :: o < |fs.inodes| && o != inum ==> fs.inodes[o] == fs0.inodes[o] && BlocksKept(fs0, fs, o))
    && (forall b: nat :: b < sb.bmapstart && b < |fs.blocks| ==> fs.blocks[b] == fs0.blocks[b])
  }

  /** bytes have been copied to off. */
  ghost predicate Writing(sb: Super, fs0: Fs, fs: Fs, owner: map<nat, Slot>, inum: nat, off: nat, bytes: seq<Byte>) {
    && Owned(sb, fs, owner, {}, {}) && OthersKept(sb, fs0, fs, inum)
    && off <= fs0.inodes[inum].size <= MAXSIZE && off + |bytes| <= MAXSIZE
    && Spliced(fs0, fs, inum, fs0.inodes[inum].size, off, bytes)
    && NoHoles(fs, inum, Reach(fs0.inodes[inum].size, off + |bytes|))
  }

  lemma WriteStarts(sb: Super, fs: Fs, owner: map<nat, Slot>, inum: nat, off: nat)
    requires Owned(sb, fs, owner, {}, {}) && AllFilled(fs) && inum < |fs.inodes| && off <= fs.inodes[inum].size
    ensures Writing(sb, fs, fs, owner, inum, off, [])
  {
    hide At, Used;
    assert GoodInode(fs.inodes[inum]) && NoHoles(fs, inum, fs.inodes[inum].size);
  }

  lemma WriteGrown(sb: Super, fs0: Fs, fs1: Fs, fs2: Fs, owner1: map<nat, Slot>, owner2: map<nat, Slot>, inum: nat,
                   off: nat, bytes: seq<Byte>)
    requires Writing(sb, fs0, fs1, owner1, inum, off, bytes)
    requires Grown(sb, fs1, fs2, inum) && Owned(sb, fs2, owner2, {}, {})
    ensures Writing(sb, fs0, fs2, owner2, inum, off, bytes)
  {
    hide At, Owned, BlocksKept, Spliced, NoHoles;
    SpliceGrown(sb, fs0, fs1, fs2, inum, fs0.inodes[inum].size, off, bytes);
    forall o: nat | o < |fs0.inodes| && o != inum ensures BlocksKept(fs0, fs2, o) {
      BlocksTrans(fs0, fs1, fs2, o);
    }
  }

  /** A block of a file is in the data area and is no indirect block. */
  lemma FileBlockIs(sb: Super, fs: Fs, owner: map<nat, Slot>, inum: nat, bn: nat)
    requires Owned(sb, fs, owner, {}, {}) && inum < sb.ninodes && bn < MAXFILE && FileBlock(fs, inum, bn) != 0
    ensures sb.datastart <= FileBlock(fs, inum, bn) < |fs.blocks|
    ensures FileBlock(fs, inum, bn) in owner && owner[FileBlock(fs, inum, bn)] == SlotOf(inum, bn)
  {
    hide At, Used;
    assert IsSlot(sb, SlotOf(inum, bn));
    assert Holds(sb, fs, owner[FileBlock(fs, inum, bn)], FileBlock(fs, inum, bn));
  }

  lemma WriteStored(sb: Super, fs0: Fs, fs: Fs, fs': Fs, owner: map<nat, Slot>, inum: nat, off: nat,
                    bytes: seq<Byte>, more: seq<Byte>, b: nat)
    requires Writing(sb, fs0, fs, owner, inum, off, bytes)
    requires 0 < |more| && off + |bytes| + |more| <= MAXSIZE && (off + |bytes|) % BSIZE + |more| <= BSIZE
    requires b == FileBlock(fs, inum, (off + |bytes|) / BSIZE) && 0 < b < |fs.blocks|
    requires fs' == SetBlock(fs, b, Overlay(fs.blocks[b], (off + |bytes|) % BSIZE, more))
    ensures Writing(sb, fs0, fs', owner, inum, off, bytes + more)
    ensures forall t :: At(fs', t) == At(fs, t)
  {
    hide At, Used, Spliced, NoHoles;
    var bn := (off + |bytes|) / BSIZE;
    FileBlockIs(sb, fs, owner, inum, bn);
    StoreOwned(sb, fs, owner, b, fs'.blocks[b]);
    SpliceStored(sb, fs0, fs, fs', owner, inum, fs0.inodes[inum].size, off, bytes, more);
    forall o: nat | o < |fs0.inodes| && o != inum ensures BlocksKept(fs0, fs', o) {
      StoreOthers(sb, fs, owner, inum, bn, fs'.blocks[b], o);
      BlocksTrans(fs0, fs, fs', o);
    }
  }

  lemma StoreOthers(sb: Super, fs: Fs, owner: map<nat, Slot>, inum: nat, bn: nat, data: Block, o: nat)
    requires Owned(sb, fs, owner, {}, {}) && inum < sb.ninodes && bn < MAXFILE && o < sb.ninodes && o != inum
    requires FileBlock(fs, inum, bn) != 0 && FileBlock(fs, inum, bn) < |fs.blocks|
    ensures BlocksKept(fs, SetBlock(fs, FileBlock(fs, inum, bn), data), o)
  {
    hide At, Owned;
    forall bn': nat | bn' < MAXFILE ensures BlockKept(fs, SetBlock(fs, FileBlock(fs, inum, bn), data), o, bn') {
      StoreKeeps(sb, fs, owner, inum, bn, data, o, bn');
    }
  }

  function SetSize(fs: Fs, inum: nat, size: nat): Fs
    requires inum < |fs.inodes|
  {
    SetInode(fs, inum, fs.inodes[inum].(size := size))
  }

  /** The end of writei: the size is set and the inode written back. */
  lemma WriteEnds(sb: Super, fs0: Fs, fs: Fs, fs1: Fs, owner: map<nat, Slot>, inum: nat, off: nat, bytes: seq<Byte>)
    requires Writing(sb, fs0, fs, owner, inum, off, bytes) && AllFilled(fs0) && AllSynced(sb, fs0)
    requires fs1 == SetSize(fs, inum, Reach(fs0.inodes[inum].size, off + |bytes|))
    ensures Owned(sb, fs1, owner, {}, {}) && GoodInode(fs1.inodes[inum]) && sb.IBlock(inum) < |fs1.blocks|
    ensures AllFilled(fs1)
    ensures forall o: nat :: o < |fs1.inodes| && o != inum ==> Synced(sb, fs1, o)
    ensures Content(fs1, inum) == Splice(Content(fs0, inum), off, bytes)
    ensures forall o: nat :: o < |fs1.inodes| && o != inum ==> Content(fs1, o) == Content(fs0, o)
  {
    hide At, Used;
    assert GoodInode(fs.inodes[inum]);
    ResizeOwned(sb, fs, owner, inum, fs1.inodes[inum]);
    forall i: nat ensures ByteAt(fs1, inum, i) == ByteAt(fs, inum, i) {
    }
    SplicedContent(fs0, fs1, inum, off, bytes);
    forall o: nat | o < |fs1.inodes| && o != inum
      ensures Content(fs1, o) == Content(fs0, o) && NoHoles(fs1, o, fs1.inodes[o].size) && Synced(sb, fs1, o)
    {
      OtherFile(sb, fs0, fs, fs1, inum, o);
    }
    forall bn: nat | bn * BSIZE < fs1.inodes[inum].size ensures FileBlock(fs1, inum, bn) != 0 {
      assert FileBlock(fs1, inum, bn) == FileBlock(fs, inum, bn);
    }
  }

  lemma OtherFile(sb: Super, fs0: Fs, fs: Fs, fs1: Fs, inum: nat, o: nat)
    requires OthersKept(sb, fs0, fs, inum) && AllFilled(fs0) && AllSynced(sb, fs0) && Shape(sb, fs) && Shape(sb, fs1)
    requires fs1.blocks == fs.blocks && o < |fs.inodes| == |fs1.inodes| && o != inum && fs1.inodes[o] == fs.inodes[o]
    requires forall t :: At(fs1, t) == At(fs, t)
    ensures Content(fs1, o) == Content(fs0, o) && NoHoles(fs1, o, fs1.inodes[o].size) && Synced(sb, fs1, o)
  {
    hide At, NoHoles, Content, SlotOf;
    assert NoHoles(fs0, o, fs0.inodes[o].size) && Synced(sb, fs0, o) && GoodInode(fs.inodes[o]);
    forall bn: nat | bn < MAXFILE ensures BlockKept(fs0, fs1, o, bn) {
      assert BlockKept(fs0, fs, o, bn);
    }
    SameContent(fs0, fs1, o);
  }
}
