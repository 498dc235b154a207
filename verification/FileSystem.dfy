/** kernel/fs.c and the inode branch of kernel/file.c's filewrite, over the block map that the
    log and the cache provide. `logged` lists what has been passed to log_write since begin_op. */
module FileSystem {
  import opened Blocks
  import opened Bitmap
  import opened ByteArrays
  import opened FileState
  import opened FileContent
  import opened FileSpace
  import opened Truncation
  import opened Journal
  import LogMachine

  /** Between calls: block ownership, no holes, inodes on disk up to date. */
  ghost predicate Sound(sb: Super, fs: Fs, owner: map<nat, Slot>) {
    Owned(sb, fs, owner, {}, {}) && AllFilled(fs) && AllSynced(sb, fs)
  }

  /** A file system of empty inodes whose free map marks exactly the metadata, as mkfs leaves it
      before the root directory, is sound: nobody holds a block. */
  lemma EmptySound(sb: Super, fs: Fs)
    requires Shape(sb, fs) && AllSynced(sb, fs)
    requires forall i: nat, k: nat :: i < |fs.inodes| && k <= NDIRECT ==>
               fs.inodes[i].size == fs.inodes[i].addrs[k] == 0
    requires forall b: nat :: b < sb.size ==> (Used(sb, fs, b) <==> b < sb.datastart)
    ensures Sound(sb, fs, map[])
  {
    hide Used, Synced;
    forall t | IsSlot(sb, t) ensures At(fs, t) == 0 {
      assert fs.inodes[t.inum].addrs[NDIRECT] == 0;
    }
    forall i: nat | i < |fs.inodes| ensures NoHoles(fs, i, fs.inodes[i].size) {
      assert fs.inodes[i].addrs[0] == fs.inodes[i].size;
    }
  }

  /** Write-ahead: the disk is what the writes logged make of it, and only blocks past the log are
      written. */
  ghost predicate Journaled(sb: Super, fs0: Fs, fs: Fs, log0: seq<BlockWrite>, log: seq<BlockWrite>) {
    && log0 <= log && fs.blocks == Replay(fs0.blocks, log[|log0|..])
    && forall k :: |log0| <= k < |log| ==> sb.inodestart <= log[k].b < |fs.blocks|
  }

  /** The only slots that bmap fills are those of the block asked for and of the indirect block
      on the way to it. */
  ghost predicate FilledFor(fs0: Fs, fs: Fs, inum: nat, bn: nat) {
    forall t :: At(fs, t) == At(fs0, t)
                || (At(fs0, t) == 0 && (t == SlotOf(inum, bn) || (t == Addr(inum, NDIRECT) && bn >= NDIRECT)))
  }

  /** What a write may do: fill empty slots of one inode, with every change and every block
      newly in use logged. No block of any file moves. */
  ghost predicate Extends(sb: Super, fs0: Fs, fs: Fs, log0: seq<BlockWrite>, log: seq<BlockWrite>, inum: nat) {
    && Journaled(sb, fs0, fs, log0, log)
    && (forall t :: At(fs, t) == At(fs0, t) || (At(fs0, t) == 0 && t.inum == inum))
    && (forall b: nat :: b < sb.size && Used(sb, fs, b) && !Used(sb, fs0, b) ==> b in Numbers(log))
    && InodesKept(fs0.inodes, fs.inodes, inum)
  }

  /** The last block logged. */
  predicate Last(log: seq<BlockWrite>, b: nat) {
    log != [] && log[|log| - 1].b == b
  }

  /** The log writes of balloc, bfree and iupdate. */
  function AllocWrites(sb: Super, fs: Fs, b: nat): seq<BlockWrite>
    requires sb.BBlock(b) < |fs.blocks|
  {
    [BlockWrite(sb.BBlock(b), SetBit(fs.blocks[sb.BBlock(b)], b % BPB)), BlockWrite(b, Zeroed())]
  }

  function FreeWrites(sb: Super, fs: Fs, b: nat): seq<BlockWrite>
    requires sb.BBlock(b) < |fs.blocks|
  {
    [BlockWrite(sb.BBlock(b), ClearBit(fs.blocks[sb.BBlock(b)], b % BPB))]
  }

  function UpdateWrites(sb: Super, fs: Fs, i: nat): seq<BlockWrite>
    requires i < |fs.inodes| && GoodInode(fs.inodes[i]) && sb.IBlock(i) < |fs.blocks|
  {
    [BlockWrite(sb.IBlock(i), Updated(sb, fs, i).blocks[sb.IBlock(i)])]
  }

  lemma TwoNumbers(v: BlockWrite, w: BlockWrite)
    ensures Numbers([v, w]) == {v.b, w.b}
  {
    assert [v, w] == [v] + [w];
    NumbersPlus([v], [w]);
    NumbersOne(v);
    NumbersOne(w);
  }

  class FileSystem {
    const sb: Super
    var blocks: seq<Block>
    var inodes: seq<Inode>
    ghost var owner: map<nat, Slot>
    ghost var logged: seq<BlockWrite>

    ghost function State(): Fs
      reads this
    {
      Fs(blocks, inodes)
    }

    ghost predicate Valid()
      reads this
    {
      Sound(sb, State(), owner)
    }

    constructor (sb: Super, blocks: seq<Block>, inodes: seq<Inode>, ghost owner: map<nat, Slot>)
      ensures this.sb == sb && State() == Fs(blocks, inodes) && this.owner == owner && logged == []
    {
      this.sb, this.blocks, this.inodes, this.owner, this.logged := sb, blocks, inodes, owner, [];
    }

    /** Change a cached block and log_write it. */
    method LogBlock(b: nat, data: Block)
      requires b < |blocks|
      modifies this`blocks, this`logged
      ensures State() == SetBlock(old(State()), b, data) && logged == old(logged) + [BlockWrite(b, data)]
      ensures Numbers(logged) == Numbers(old(logged)) + {b}
    {
      blocks := blocks[b := data];
      logged := logged + [BlockWrite(b, data)];
      NumbersPlus(old(logged), [BlockWrite(b, data)]);
      NumbersOne(BlockWrite(b, data));
    }

    method Bzero(b: nat)
      requires b < |blocks|
      modifies this`blocks, this`logged
      ensures State() == SetBlock(old(State()), b, Zeroed()) && logged == old(logged) + [BlockWrite(b, Zeroed())]
      ensures Numbers(logged) == Numbers(old(logged)) + {b}
    {
      LogBlock(b, Zeroed());
    }

    /** The lowest free block, marked and zeroed; 0 exactly when every block is in use. */
    method Balloc() returns (r: nat)
      requires Owned(sb, State(), owner, {}, {})
      modifies this`blocks, this`logged
      ensures r == 0 ==> State() == old(State()) && logged == old(logged)
      ensures r == 0 <==> Full(sb, old(State()))
      ensures r != 0 ==> r < sb.size && sb.BBlock(r) < |old(blocks)| && !Used(sb, old(State()), r)
      ensures r != 0 ==> forall b: nat :: b < r ==> Used(sb, old(State()), b)
      ensures r != 0 ==>
                State() == Allocate(sb, old(State()), r) && logged == old(logged) + AllocWrites(sb, old(State()), r)
      ensures r != 0 ==> Numbers(logged) == Numbers(old(logged)) + {sb.BBlock(r), r}
    {
      hide Owned, Used, TestBit;
      ghost var fs := State();
      SuperOf(sb, fs, owner);
      var b := 0;
      while b < sb.size
        invariant blocks == fs.blocks && inodes == fs.inodes && logged == old(logged)
        invariant b % BPB == 0
        invariant forall x: nat :: x < b && x < sb.size ==> Used(sb, fs, x)
      {
        BitmapInRange(sb, b);
        var data := blocks[sb.BBlock(b)];
        var bi := ScanBits(data, b);
        ScannedUsed(sb, fs, b, bi);
        if bi < BPB && b + bi < sb.size {
          FreeIsData(sb, fs, owner, b + bi);
          LogBlock(sb.BBlock(b), SetBit(data, bi));
          Bzero(b + bi);
          return b + bi;
        }
        b := b + BPB;
      }
      r := 0;
    }

    /** balloc's inner loop: the first clear bit of one block of the free map. */
    method ScanBits(data: Block, b: nat) returns (bi: nat)
      ensures bi <= BPB && (bi < BPB && b + bi < sb.size ==> !TestBit(data, bi))
      ensures forall k: nat :: k < bi ==> TestBit(data, k)
    {
      hide TestBit;
      bi := 0;
      while bi < BPB && b + bi < sb.size
        invariant 0 <= bi <= BPB
        invariant forall k: nat :: k < bi ==> TestBit(data, k)
      {
        if !TestBit(data, bi) {
          return;
        }
        bi := bi + 1;
      }
    }

    /** Clear the bit of b; panics on a block that is free already. */
    method Bfree(b: nat) returns (panic: bool)
      requires Shape(sb, State()) && b < sb.size
      modifies this`blocks, this`logged
      ensures panic <==> !Used(sb, old(State()), b)
      ensures panic ==> State() == old(State()) && logged == old(logged)
      ensures !panic ==> sb.BBlock(b) < |old(blocks)| && State() == Free(sb, old(State()), b)
      ensures !panic ==> logged == old(logged) + FreeWrites(sb, old(State()), b)
      ensures !panic ==> Numbers(logged) == Numbers(old(logged)) + {sb.BBlock(b)}
    {
      BitmapInRange(sb, b);
      var data := blocks[sb.BBlock(b)];
      if !TestBit(data, b % BPB) {
        return true;
      }
      LogBlock(sb.BBlock(b), ClearBit(data, b % BPB));
      return false;
    }

    /** Store a block number in the inode. */
    method StoreAddr(inum: nat, k: nat, b: nat)
      requires inum < |inodes| && k < |inodes[inum].addrs|
      modifies this`inodes
      ensures State() == SetAddr(old(State()), inum, k, b)
    {
      inodes := inodes[inum := inodes[inum].(addrs := inodes[inum].addrs[k := b])];
    }

    /** balloc, and store the new block in addrs[k]. */
    method BallocAddr(inum: nat, k: nat) returns (addr: nat)
      requires Owned(sb, State(), owner, {}, {}) && inum < |inodes| && k <= NDIRECT && At(State(), Addr(inum, k)) == 0
      modifies this
      ensures addr == 0 ==> State() == old(State()) && logged == old(logged) && owner == old(owner)
      ensures addr == 0 <==> Full(sb, old(State()))
      ensures Owned(sb, State(), owner, {}, {}) && Grown(sb, old(State()), State(), inum)
      ensures addr != 0 ==> Numbers(logged) == Numbers(old(logged)) + {sb.BBlock(addr), addr}
      ensures addr != 0 ==> forall t :: At(State(), t) == if t == Addr(inum, k) then addr else At(old(State()), t)
      ensures Extends(sb, old(State()), State(), old(logged), logged, inum)
      ensures addr != 0 ==> addr < |blocks| && blocks[addr] == Zeroed()
    {
      hide At, Owned, Used, Grown;
      ghost var fs := State();
      OwnedInode(sb, fs, owner, inum);
      GrownRefl(sb, fs, inum);
      ExtendsRefl(sb, fs, logged, inum);
      addr := Balloc();
      if addr == 0 {
        return;
      }
      AllocateOwned(sb, fs, owner, addr);
      AllocateGrows(sb, fs, owner, addr, inum);
      ghost var fs1 := State();
      AttachOwned(sb, fs1, owner, inum, k, addr);
      AttachGrows(sb, fs1, owner, inum, k, addr);
      StoreAddr(inum, k, addr);
      owner := owner[addr := Addr(inum, k)];
      GrownTrans(sb, fs, fs1, State(), inum);
      AttachExtends(sb, fs, State(), inum, k, addr, old(logged));
    }

    /** balloc, and store the new block in the indirect block. */
    method BallocEntry(inum: nat, j: nat) returns (addr: nat)
      requires Owned(sb, State(), owner, {}, {}) && inum < |inodes| && j < NINDIRECT && At(State(), Entry(inum, j)) == 0
      requires At(State(), Addr(inum, NDIRECT)) != 0
      modifies this
      ensures addr == 0 ==> State() == old(State()) && logged == old(logged) && owner == old(owner)
      ensures addr == 0 <==> Full(sb, old(State()))
      ensures Owned(sb, State(), owner, {}, {}) && Grown(sb, old(State()), State(), inum)
      ensures addr != 0 ==>
                Numbers(logged) == Numbers(old(logged)) + {sb.BBlock(addr), addr, At(old(State()), Addr(inum, NDIRECT))}
      ensures addr != 0 ==> forall t :: At(State(), t) == if t == Entry(inum, j) then addr else At(old(State()), t)
      ensures Extends(sb, old(State()), State(), old(logged), logged, inum)
      ensures addr != 0 ==> addr < |blocks| && blocks[addr] == Zeroed()
    {
      hide At, Owned, Used, Grown, Extends, Full;
      ghost var fs := State();
      OwnedInode(sb, fs, owner, inum);
      GrownRefl(sb, fs, inum);
      ExtendsRefl(sb, fs, logged, inum);
      var ind := inodes[inum].addrs[NDIRECT];
      addr := Balloc();
      if addr == 0 {
        return;
      }
      AllocateOwned(sb, fs, owner, addr);
      AllocateGrows(sb, fs, owner, addr, inum);
      ghost var fs1 := State();
      EntryOwned(sb, fs1, owner, inum, j, addr, ind);
      EntryGrows(sb, fs1, owner, inum, j, addr, ind);
      AllocateExtends(sb, fs, inum, addr, old(logged));
      ghost var log1 := logged;
      StoreExtends(sb, fs1, SetBlock(fs1, ind, SetWord(blocks[ind], j, addr)), ind, SetWord(blocks[ind], j, addr),
          log1, inum);
      LogBlock(ind, SetWord(blocks[ind], j, addr));
      ExtendsTrans(sb, fs, fs1, State(), old(logged), log1, logged, inum);
      owner := owner[addr := Entry(inum, j)];
      GrownTrans(sb, fs, fs1, State(), inum);
    }

    /** The block number of the bn-th block of a file, allocating what is missing; 0 when out of blocks. */
    method Bmap(inum: nat, bn: nat) returns (addr: nat)
      requires Owned(sb, State(), owner, {}, {}) && inum < |inodes| && bn < MAXFILE
      modifies this
      ensures FileBlock(old(State()), inum, bn) != 0 ==>
                State() == old(State()) && logged == old(logged) && owner == old(owner)
      ensures Owned(sb, State(), owner, {}, {}) && Grown(sb, old(State()), State(), inum)
      ensures addr == FileBlock(State(), inum, bn)
      ensures FilledFor(old(State()), State(), inum, bn)
      ensures addr != 0 && FileBlock(old(State()), inum, bn) == 0 ==> addr < |blocks| && blocks[addr] == Zeroed()
      ensures Extends(sb, old(State()), State(), old(logged), logged, inum)
      ensures addr == 0 ==> Full(sb, State())
      ensures Numbers(logged) <= Numbers(old(logged)) + IndirectBlocks(sb, State(), inum) + {sb.BBlock(addr), addr}
      ensures addr == 0 ==> Numbers(logged) <= Numbers(old(logged)) + IndirectBlocks(sb, State(), inum)
      ensures IndirectBlocks(sb, old(State()), inum) <= IndirectBlocks(sb, State(), inum)
    {
      hide At, Owned, Used, Grown, Extends, FilledFor, Word, Full, Numbers;
      ghost var fs := State();
      OwnedInode(sb, fs, owner, inum);
      GrownRefl(sb, fs, inum);
      ExtendsRefl(sb, fs, logged, inum);
      FilledNone(fs, inum, bn);
      if bn < NDIRECT {
        addr := inodes[inum].addrs[bn];
        if addr == 0 {
          addr := BallocAddr(inum, bn);
          if addr != 0 { FilledOne(fs, State(), inum, bn, Addr(inum, bn), addr); }
        }
        return;
      }
      addr := inodes[inum].addrs[NDIRECT];
      if addr == 0 {
        NoIndirect(fs, inum);
        addr := BallocAddr(inum, NDIRECT);
        if addr == 0 {
          return;
        }
        FilledOne(fs, State(), inum, bn, Addr(inum, NDIRECT), addr);
      }
      ghost var fs1, log1 := State(), logged;
      GrownLengths(sb, fs, fs1, inum);
      OwnedInode(sb, fs1, owner, inum);
      IndirectInRange(sb, fs1, owner, inum, bn - NDIRECT);
      var a := blocks[addr];
      addr := Word(a, bn - NDIRECT);
      if addr == 0 {
        addr := BallocEntry(inum, bn - NDIRECT);
        ExtendsTrans(sb, fs, fs1, State(), old(logged), log1, logged, inum);
        if addr != 0 {
          FilledOne(fs1, State(), inum, bn, Entry(inum, bn - NDIRECT), addr);
          FilledTrans(fs, fs1, State(), inum, bn);
        }
        GrownTrans(sb, fs, fs1, State(), inum);
      }
    }

    /** Copy the in-memory inode to its block. */
    method Iupdate(inum: nat)
      requires Shape(sb, State()) && inum < |inodes|
      modifies this`blocks, this`logged
      ensures GoodInode(old(inodes)[inum]) && sb.IBlock(inum) < |old(blocks)|
      ensures State() == Updated(sb, old(State()), inum) && logged == old(logged) + UpdateWrites(sb, old(State()), inum)
      ensures Numbers(logged) == Numbers(old(logged)) + {sb.IBlock(inum)}
    {
      assert GoodInode(inodes[inum]);
      var b := sb.IBlock(inum);
      LogBlock(b, SetWords(blocks[b], 16 * (inum % IPB), InodeWords(inodes[inum])));
    }

    /** m bytes of a file, inside one block. The test for a missing block never stops the loop. */
    method ReadBlock(inum: nat, ghost off: nat, at: nat, m: nat) returns (data: seq<Byte>)
      requires Valid() && inum < |inodes| && at % BSIZE + m <= BSIZE && m > 0
      requires off <= at && at + m <= inodes[inum].size <= MAXSIZE
      modifies this
      ensures State() == old(State()) && owner == old(owner) && logged == old(logged)
      ensures |data| == m && at + m <= |Content(State(), inum)|
      ensures Content(State(), inum)[off..at] + data == Content(State(), inum)[off..at + m]
    {
      hide At, Owned, Used, AllSynced, Content, AllFilled, Grown, Extends, FilledFor, IndirectBlocks, FileBlock;
      ReadMore(sb, State(), owner, inum, off, at, m);
      var addr := Bmap(inum, at / BSIZE);
      if addr == 0 {
        assert false;
        return [];
      }
      data := blocks[addr][at % BSIZE..at % BSIZE + m];
    }

    /** Exactly the bytes off .. min(off + n, size) of the file; nothing for an offset past its end or
        a range that wraps. If only the first `good` bytes of the user's destination can be written,
        it gets those and the result is -1. No block is allocated on the way. */
    method Readi(inum: nat, off: nat, n: nat, good: nat) returns (r: int, dst: seq<Byte>)
      requires Valid() && inum < |inodes| && off < WORD_LIMIT && n < WORD_LIMIT
      modifies this
      ensures State() == old(State()) && owner == old(owner) && logged == old(logged)
      ensures off > old(inodes)[inum].size || off + n >= WORD_LIMIT ==> r == 0 && dst == []
      ensures off <= old(inodes)[inum].size && off + n < WORD_LIMIT ==>
                CopiedOut(Content(old(State()), inum), off, Least(off + n, old(inodes)[inum].size), good, r, dst)
    {
      hide At, Owned, Used, AllSynced, Room, Content, AllFilled, CopiedOut, OnEdge, Sound;
      ghost var fs := State();
      SoundParts(sb, fs, owner, inum);
      if off > inodes[inum].size || (off + n) % WORD_LIMIT < off {
        return 0, [];
      }
      var n' := if off + n > inodes[inum].size then inodes[inum].size - off else n;
      dst := [];
      var tot, at := 0, off;
      while tot < n'
        invariant State() == fs && owner == old(owner) && logged == old(logged)
        invariant 0 <= tot <= n' && tot <= good && at == off + tot <= |Content(fs, inum)|
        invariant dst == Content(fs, inum)[off..at]
      {
        var m := Room(at, n' - tot);
        var data := ReadBlock(inum, off, at, m);
        if good - tot < m {
          CopyFails(Content(fs, inum), off, at, data, good - tot, off + n', good);
          return -1, dst + data[..good - tot];
        }
        dst := dst + data;
        tot, at := tot + m, at + m;
      }
      r := tot;
      CopyEnds(Content(fs, inum), off, off + n', good);
    }

    /** One round of writei's loop: as much of rest as fits in the block of byte at, or nothing when no
        block is free, or when the source cannot be read so far (`good` is how far it can). done has
        been written from off on. */
    method WriteBlock(inum: nat, at: nat, rest: seq<Byte>, good: nat, ghost fs0: Fs, ghost off: nat,
                      ghost done: seq<Byte>)
      returns (m: nat, fault: bool, addr: nat, ghost data: set<nat>, ghost maps: set<nat>)
      requires Writing(sb, fs0, State(), owner, inum, off, done)
      requires at == off + |done| && 0 < |rest| && at + |rest| <= MAXSIZE
      modifies this
      ensures m <= |rest| && Writing(sb, fs0, State(), owner, inum, off, done + rest[..m])
      ensures addr == FileBlock(State(), inum, at / BSIZE) && (fault ==> addr < |blocks|)
      ensures m == 0 && !fault ==> Full(sb, State()) && addr == 0
      ensures fault ==> m == 0 && addr != 0 && good < Room(at, |rest|)
      ensures m != 0 ==> m == Room(at, |rest|) <= good && !fault
      ensures FilledWithin(old(State()), State(), inum, at, 1)
      ensures WritesOnly(sb, old(State()), State(), old(logged), logged, inum, at, m)
      ensures Numbers(logged) <= Numbers(old(logged)) + IndirectBlocks(sb, State(), inum) + data + maps
      ensures IndirectBlocks(sb, old(State()), inum) <= IndirectBlocks(sb, State(), inum)
      ensures |data| <= 1 && |maps| <= 1 && (m == 0 && !fault ==> data == {} && maps == {})
      ensures FileBlock(old(State()), inum, at / BSIZE) != 0 ==> maps == {}
      ensures Extends(sb, old(State()), State(), old(logged), logged, inum)
    {
      hide At, Owned, Used, Grown, Writing, Extends, FilledFor, FilledWithin, WritesOnly, Numbers, Room;
      ghost var fs1, owner1 := State(), owner;
      WritingParts(sb, fs0, fs1, owner1, inum, off, done);
      addr := Bmap(inum, at / BSIZE);
      WriteGrown(sb, fs0, fs1, State(), owner1, owner, inum, off, done);
      FilledByte(fs1, State(), inum, at, 1, at);
      WritesBmap(sb, fs1, State(), owner, old(logged), logged, inum, at, addr);
      if addr == 0 {
        assert done + rest[..0] == done;
        return 0, false, 0, {}, {};
      }
      m := Room(at, |rest|);
      data := {addr};
      maps := if FileBlock(fs1, inum, at / BSIZE) != 0 then {} else {sb.BBlock(addr)};
      ghost var fs2, log2 := State(), logged;
      GrownLengths(sb, fs1, fs2, inum);
      FileBlockIs(sb, fs2, owner, inum, at / BSIZE);
      fault := good < m;
      if fault {
        assert done + rest[..0] == done;
        m := 0;
        return;
      }
      DataPastLog(sb, fs2, owner);
      OwnedInode(sb, fs2, owner, inum);
      LogBlock(addr, Overlay(blocks[addr], at % BSIZE, rest[..m]));
      WriteStored(sb, fs0, fs2, State(), owner, inum, off, done, rest[..m], addr);
      FilledSame(fs1, fs2, State(), inum, at, 1);
      WritesStore(sb, fs1, fs2, State(), old(logged), log2, inum, at, m, blocks[addr]);
      StoreExtends(sb, fs2, State(), addr, blocks[addr], log2, inum);
      ExtendsTrans(sb, fs1, fs2, State(), old(logged), log2, logged, inum);
    }

    /** The end of writei: the inode takes its new size and is written back. */
    method WriteBack(inum: nat, at: nat)
      requires Shape(sb, State()) && inum < |inodes| && at <= MAXSIZE
      modifies this`blocks, this`inodes, this`logged
      ensures CanWriteBack(sb, old(State()), inum, at) && State() == WrittenBack(sb, old(State()), inum, at)
      ensures logged == old(logged) + UpdateWrites(sb, Resized(old(State()), inum, at), inum)
      ensures Last(logged, sb.IBlock(inum)) && logged[..|logged| - 1] == old(logged)
      ensures Numbers(logged) == Numbers(old(logged)) + {sb.IBlock(inum)}
    {
      assert GoodInode(inodes[inum]);
      if at > inodes[inum].size {
        inodes := inodes[inum := inodes[inum].(size := at)];
      }
      assert inodes[inum := inodes[inum]] == inodes;
      Iupdate(inum);
    }

    /** writei's loop; addr is the block whose copy failed. */
    method WriteBlocks(inum: nat, off: nat, src: seq<Byte>, good: nat, ghost fs0: Fs)
      returns (tot: nat, fault: bool, addr: nat, ghost data: set<nat>, ghost maps: set<nat>)
      requires Writing(sb, fs0, State(), owner, inum, off, []) && off + |src| <= MAXSIZE
      modifies this
      ensures tot <= |src| && tot <= good && Writing(sb, fs0, State(), owner, inum, off, src[..tot])
      ensures !fault && tot < |src| ==> Full(sb, State()) && FileBlock(State(), inum, (off + tot) / BSIZE) == 0
      ensures fault ==> tot < |src| && good < tot + Room(off + tot, |src| - tot)
      ensures fault ==> addr == FileBlock(State(), inum, (off + tot) / BSIZE) && 0 < addr < |blocks|
      ensures tot == 0 || tot == |src| || OnEdge(off + tot)
      ensures Logging(sb, old(State()), State(), old(logged), logged, inum, off, |src|, Tried(tot, |src|), tot, data,
              maps)
    {
      hide At, Owned, Used, Full, Writing, IndirectBlocks, Logging, Room, OnEdge, Extends, FilledFor, FilledWithin,
        FileBlock, WritesOnly, Numbers;
      data, maps, fault, addr := {}, {}, false, 0;
      ghost var fs, log := State(), logged;
      LoggingNone(sb, fs, log, inum, off);
      assert src[..0] == [];
      tot := 0;
      var at := off;
      while tot < |src|
        invariant 0 <= tot <= |src| && tot <= good && at == off + tot && !fault
        invariant tot == 0 || tot == |src| || OnEdge(at)
        invariant Writing(sb, fs0, State(), owner, inum, off, src[..tot])
        invariant Logging(sb, fs, State(), log, logged, inum, off, tot, tot, tot, data, maps)
      {
        ghost var fs1, log1 := State(), logged;
        WritingParts(sb, fs0, fs1, owner, inum, off, src[..tot]);
        FirstBlock(sb, fs0, fs1, owner, inum, off, src[..tot]);
        var m;
        ghost var data', maps';
        m, fault, addr, data', maps' := WriteBlock(inum, at, src[tot..], good - tot, fs0, off, src[..tot]);
        TakeMore(src, tot, m);
        ghost var step := if fault then Room(at, |src| - tot) else m;
        LoggingMore(sb, fs, fs1, State(), log, log1, logged, inum, off, |src|, tot, step, m, data, maps, data', maps');
        data, maps := data + data', maps + maps';
        if m == 0 {
          return;
        }
        tot, at := tot + m, at + m;
      }
    }

    /** Write src at off; only its first `good` bytes can be read. But for the stray bytes of a copy that
        failed, the file system is then `clean`, where the file has its old bytes with the first r of src
        spliced in and no other file changed. r falls short only when no block is free or a copy fails.
        A call logs the touched data blocks, a bitmap block for each that was missing, the indirect block
        and its bitmap block (`extra`), and last of all the inode's block. */
    method Writei(inum: nat, off: nat, src: seq<Byte>, good: nat)
      returns (r: int, ghost clean: Fs, ghost stray: seq<Byte>, ghost extra: set<nat>)
      requires Valid() && inum < |inodes| && off < WORD_LIMIT && |src| < WORD_LIMIT
      modifies this
      ensures Valid() && |inodes| == |old(inodes)| == |clean.inodes| && Sound(sb, clean, owner)
      ensures r == -1 <==> off > old(inodes)[inum].size || off + |src| > MAXSIZE
      ensures r == -1 ==>
                State() == clean == old(State()) && owner == old(owner) && logged == old(logged) && stray == []
      ensures r != -1 ==> 0 <= r <= |src| && r <= good && (r == |src| ==> stray == [])
      ensures r != -1 ==> EndsAs(sb, clean, inum, off, src, good, r, stray)
      ensures r != -1 ==> Content(clean, inum) == Splice(Content(old(State()), inum), off, src[..r])
      ensures forall o: nat :: o < |inodes| && o != inum ==> Content(clean, o) == Content(old(State()), o)
      ensures StrayOf(clean, State(), inum, if r > 0 then off + r else off, stray) && (stray == [] ==> State() == clean)
      ensures InodesKept(old(inodes), clean.inodes, inum) && inodes == clean.inodes
      ensures FilledWithin(old(State()), clean, inum, off, Tried(r, |src|))
      ensures r != -1 ==> WritesOnly(sb, old(State()), clean, old(logged), logged, inum, off, r)
      ensures Numbers(logged) <= Numbers(old(logged)) + extra + {sb.IBlock(inum)}
      ensures r != -1 ==>
                Last(logged, sb.IBlock(inum)) && Numbers(logged[..|logged| - 1]) <= Numbers(old(logged)) + extra
      ensures |extra| <= 2 * Touched(off, |src|) + 2 - (if off % BSIZE != 0 && |src| > 0 then 1 else 0)
      ensures Extends(sb, old(State()), clean, old(logged), logged, inum)
    {
      hide At, Owned, Used, AllSynced, Writing, AllFilled, Content, Logging, Touched, Splice, Extends, FilledWithin,
        Full, Room, WrittenBack, Overlay, Resized, UpdateWrites, CanWriteBack, StrayOf, EndsAs, FileBlock, Sound,
        GoodInode, WritesOnly, OnEdge, Numbers, Last;
      ghost var fs0 := State();
      clean, stray, extra := fs0, [], {};
      ExtendsRefl(sb, fs0, logged, inum);
      FilledRefl(fs0, inum, off, 0);
      SoundParts(sb, fs0, owner, inum);
      if off > inodes[inum].size || (off + |src|) % WORD_LIMIT < off {
        NoStrayOf(clean, inum, off);
        return -1, clean, [], {};
      }
      if (off + |src|) % WORD_LIMIT > MAXSIZE {
        NoStrayOf(clean, inum, off);
        return -1, clean, [], {};
      }
      WriteStarts(sb, fs0, owner, inum, off);
      var tot, fault, addr, data, maps := WriteBlocks(inum, off, src, good, fs0);
      ghost var fs1, log1 := State(), logged;
      if fault {
        stray := src[tot..good];
        blocks := blocks[addr := Overlay(blocks[addr], (off + tot) % BSIZE, src[tot..good])];
      }
      ghost var fs2 := State();
      StrayIs(fs1, fs2, inum, off + tot, stray, addr);
      StrayShape(sb, fs0, fs1, fs2, owner, inum, off, src[..tot], stray);
      WriteBack(inum, off + tot);
      clean := WriteiEnds(sb, fs0, fs1, fs2, owner, inum, off, src, good, tot, fault, stray, log1, State());
      extra := LoggingEnds(sb, fs0, fs1, clean, owner, old(logged), log1, logged, inum, off, |src|, tot, data, maps);
      r := tot;
    }

    /** itrunc's loop over the direct blocks. */
    method FreeDirect(inum: nat, ghost fs0: Fs, ghost owner0: map<nat, Slot>) returns (panic: bool)
      requires Truncating(sb, fs0, State(), owner0, owner, {}, inum)
      modifies this
      ensures !panic && Truncating(sb, fs0, State(), owner0, owner, {}, inum)
      ensures forall k: nat :: k < NDIRECT ==> At(State(), Addr(inum, k)) == 0
      ensures Freeing(sb, old(State()), State(), old(logged), logged)
    {
      hide At, Used, Owned, DataKept, OtherSlots, Shrinking, Freeing;
      FreeingNone(sb, State(), logged);
      var i := 0;
      while i < NDIRECT
        invariant 0 <= i <= NDIRECT && Truncating(sb, fs0, State(), owner0, owner, {}, inum)
        invariant forall k: nat :: k < i ==> At(State(), Addr(inum, k)) == 0
        invariant Freeing(sb, old(State()), State(), old(logged), logged)
      {
        ghost var fs, log := State(), logged;
        OwnedInode(sb, fs, owner, inum);
        var b := inodes[inum].addrs[i];
        if b != 0 {
          FreeSlot(sb, fs0, fs, owner0, owner, {}, inum, Addr(inum, i), b);
          panic := Bfree(b);
          if panic {
            return;
          }
          owner := owner - {b};
          assert {} + {Addr(inum, i)} == {Addr(inum, i)};
          ClearSlot(sb, fs0, State(), owner0, owner, {Addr(inum, i)}, inum, i);
          StoreAddr(inum, i, 0);
          FreeingMore(sb, old(State()), fs, State(), b, old(logged), log);
        }
        i := i + 1;
      }
      return false;
    }

    /** itrunc's loop over the entries of the indirect block; the entries are not erased, so
        they are dead until the indirect block goes. */
    method FreeEntries(inum: nat, ghost fs0: Fs, ghost owner0: map<nat, Slot>)
      returns (panic: bool, ghost dead: set<Slot>)
      requires Truncating(sb, fs0, State(), owner0, owner, {}, inum) && At(State(), Addr(inum, NDIRECT)) != 0
      modifies this`blocks, this`logged, this`owner
      ensures !panic && Truncating(sb, fs0, State(), owner0, owner, dead, inum)
      ensures forall t :: t in dead ==> t.Entry?
      ensures forall j: nat :: j < NINDIRECT && At(State(), Entry(inum, j)) != 0 ==> Entry(inum, j) in dead
      ensures forall t :: At(State(), t) == At(old(State()), t)
      ensures Freeing(sb, old(State()), State(), old(logged), logged)
    {
      hide At, Used, Owned, DataKept, OtherSlots, Shrinking, Freeing;
      dead := {};
      ghost var fs := State();
      OwnedInode(sb, fs, owner, inum);
      FreeingNone(sb, fs, logged);
      IndirectEntries(sb, fs, owner, inum);
      var a := blocks[inodes[inum].addrs[NDIRECT]];
      var j := 0;
      while j < NINDIRECT
        invariant 0 <= j <= NINDIRECT && Truncating(sb, fs0, State(), owner0, owner, dead, inum)
        invariant forall t :: t in dead ==> t.Entry? && t.j < j
        invariant forall k: nat :: k < j && At(State(), Entry(inum, k)) != 0 ==> Entry(inum, k) in dead
        invariant forall t :: At(State(), t) == At(fs, t)
        invariant Freeing(sb, old(State()), State(), old(logged), logged)
      {
        ShapeOf(sb, State(), owner, dead);
        var b := Word(a, j);
        if b != 0 {
          ghost var fs1, log1 := State(), logged;
          FreeSlot(sb, fs0, fs1, owner0, owner, dead, inum, Entry(inum, j), b);
          panic := Bfree(b);
          if panic {
            return;
          }
          owner := owner - {b};
          dead := dead + {Entry(inum, j)};
          FreeingMore(sb, fs, fs1, State(), b, old(logged), log1);
        }
        j := j + 1;
      }
      panic := false;
    }

    /** itrunc's last block: the entries and then the indirect block itself. */
    method FreeIndirect(inum: nat, ghost fs0: Fs, ghost owner0: map<nat, Slot>) returns (panic: bool)
      requires Truncating(sb, fs0, State(), owner0, owner, {}, inum)
      requires forall k: nat :: k < NDIRECT ==> At(State(), Addr(inum, k)) == 0
      modifies this
      ensures !panic && Truncating(sb, fs0, State(), owner0, owner, {}, inum)
      ensures forall t: Slot :: t.inum == inum ==> At(State(), t) == 0
      ensures Freeing(sb, old(State()), State(), old(logged), logged)
    {
      hide At, Used, Owned, DataKept, OtherSlots, Shrinking, Freeing;
      ghost var fs := State();
      FreeingNone(sb, fs, logged);
      OwnedInode(sb, fs, owner, inum);
      var addr := inodes[inum].addrs[NDIRECT];
      panic := false;
      if addr != 0 {
        ghost var dead;
        panic, dead := FreeEntries(inum, fs0, owner0);
        ghost var fs1, log1 := State(), logged;
        FreeSlot(sb, fs0, fs1, owner0, owner, dead, inum, Addr(inum, NDIRECT), addr);
        ShapeOf(sb, fs1, owner, dead);
        panic := Bfree(addr);
        owner := owner - {addr};
        ClearSlot(sb, fs0, State(), owner0, owner, dead + {Addr(inum, NDIRECT)}, inum, NDIRECT);
        StoreAddr(inum, NDIRECT, 0);
        FreeingMore(sb, fs, fs1, State(), addr, old(logged), log1);
      }
      AllEmpty(State(), inum);
    }

    /** Discard the content of an inode: exactly its blocks are freed, bfree never meets a free
        bit, and no other file changes. */
    method Itrunc(inum: nat) returns (panic: bool)
      requires Valid() && inum < |inodes|
      modifies this
      ensures !panic && Valid() && |inodes| == |old(inodes)|
      ensures Content(State(), inum) == [] && forall t :: IsSlot(sb, t) && t.inum == inum ==> At(State(), t) == 0
      ensures owner == OwnerWithout(old(owner), inum)
      ensures forall o: nat :: o < |inodes| && o != inum ==> Content(State(), o) == Content(old(State()), o)
      ensures InodesKept(old(inodes), inodes, inum)
      ensures OnlyMap(sb, Numbers(old(logged)), Numbers(logged) - {sb.IBlock(inum)})
      ensures Journaled(sb, old(State()), State(), old(logged), logged)
    {
      hide At, Used, Owned, DataKept, OtherSlots, Shrinking, AllSynced, AllFilled, Content, OwnerWithout, Journaled,
        Truncating;
      ghost var fs0, owner0, log0 := State(), owner, logged;
      TruncStarts(sb, fs0, owner, inum);
      panic := FreeDirect(inum, fs0, owner0);
      ghost var fs1, log1 := State(), logged;
      panic := FreeIndirect(inum, fs0, owner0);
      ghost var fs2, log2 := State(), logged;
      JournalTrans(sb, fs0, fs1, fs2, log0, log1, log2);
      TruncLengths(sb, fs0, fs2, owner0, owner, inum);
      FreedExactly(sb, fs0, fs2, owner0, owner, inum);
      inodes := inodes[inum := inodes[inum].(size := 0)];
      ghost var fs3 := State();
      TruncEnds(sb, fs0, fs2, fs3, owner0, owner, inum);
      OwnedInode(sb, fs3, owner, inum);
      InodeBlock(sb, fs3, owner, inum);
      JournalUpdate(sb, fs2, fs3, inum, log2);
      Iupdate(inum);
      JournalTrans(sb, fs0, fs2, State(), log0, log2, logged);
      UpdateEnds(sb, fs3, owner, inum);
      SlotsUpdated(sb, fs2, fs3, owner, inum);
    }

    /** One round of filewrite: begin_op, writei of at most CHUNK bytes, end_op. At most MAXOPBLOCKS
        blocks are logged, the inode's last, and fewer than MAXOPBLOCKS before it. */
    method Transaction(inum: nat, off: nat, src: seq<Byte>, good: nat)
      returns (r: int, ghost clean: Fs, ghost stray: seq<Byte>)
      requires Valid() && inum < |inodes| && off < WORD_LIMIT && |src| <= CHUNK
      modifies this
      ensures Valid() && |inodes| == |old(inodes)| == |clean.inodes| && Sound(sb, clean, owner)
      ensures r == -1 <==> off > old(inodes)[inum].size || off + |src| > MAXSIZE
      ensures r == -1 ==> State() == clean == old(State()) && logged == [] && stray == []
      ensures r != -1 ==> 0 <= r <= |src| && r <= good && (r == |src| ==> stray == [])
      ensures r != -1 ==> EndsAs(sb, clean, inum, off, src, good, r, stray)
      ensures r != -1 ==> Content(clean, inum) == Splice(Content(old(State()), inum), off, src[..r])
      ensures forall o: nat :: o < |inodes| && o != inum ==> Content(clean, o) == Content(old(State()), o)
      ensures StrayOf(clean, State(), inum, if r > 0 then off + r else off, stray) && (stray == [] ==> State() == clean)
      ensures InodesKept(old(inodes), clean.inodes, inum) && inodes == clean.inodes
      ensures FilledWithin(old(State()), clean, inum, off, Tried(r, |src|))
      ensures r != -1 ==> WritesOnly(sb, old(State()), clean, [], logged, inum, off, r)
      ensures Extends(sb, old(State()), clean, [], logged, inum) && InReservation(logged)
      ensures r != -1 ==> Last(logged, sb.IBlock(inum))
    {
      hide Sound, Content, Splice, Full, Extends, FilledWithin, StrayOf, EndsAs, WritesOnly;
      logged := [];
      ghost var extra;
      r, clean, stray, extra := Writei(inum, off, src, good);
      ChunkTouches(off, |src|);
      Fewer(Numbers(logged), extra + {sb.IBlock(inum)});
      if r != -1 {
        BeforeLast(logged, extra);
      }
    }

    /** The inode branch of filewrite: chunks of CHUNK bytes, one transaction each. Where the source can
        be read, all n bytes are written exactly when the blocks that are missing on the way to them are
        no more than there are free ones. */
    method Filewrite(inum: nat, off0: nat, src: seq<Byte>, n: int, good: nat)
      returns (ret: int, off: nat, ghost tot: nat, ghost clean: Fs, ghost stray: seq<Byte>, ghost chunks: seq<Chunk>)
      requires Valid() && inum < |inodes| && off0 < WORD_LIMIT && n <= |src| && n < 0x8000_0000
      modifies this
      ensures Valid() && |inodes| == |old(inodes)| == |clean.inodes| && Sound(sb, clean, owner)
      ensures tot <= |src| && tot <= good && off == off0 + tot && ret == (if tot == n then n else -1)
      ensures off0 > old(inodes)[inum].size ==> tot == 0 && clean == old(State())
      ensures off0 <= old(inodes)[inum].size ==>
                Content(clean, inum) == Splice(Content(old(State()), inum), off0, src[..tot])
      ensures forall o: nat :: o < |inodes| && o != inum ==> Content(clean, o) == Content(old(State()), o)
      ensures InodesKept(old(inodes), clean.inodes, inum) && inodes == clean.inodes
      ensures StrayOf(clean, State(), inum, off, stray)
      ensures CutShort(sb, old(State()), clean, inum, off0, src, n, good, tot, stray)
      ensures 0 <= n <= good && off0 <= old(inodes)[inum].size && off0 + n <= MAXSIZE ==>
                (tot == n <==> |Missing(old(State()), inum, off0, n)| <= |FreeBlocks(sb, old(State()))|)
      ensures History(sb, old(State()), inum, off0, src, chunks)
      ensures FsAfter(old(State()), chunks, |chunks|) == clean && MarkAfter(chunks, |chunks|) == tot
      ensures |chunks| <= MostChunks(n)
    {
      hide Sound, Content, Splice, Full, Extends, Advanced, Missing, FilledWithin, FreeBlocks, History, FileBlock,
        InReservation, Last, FsAfter, MarkAfter, Paced, MostChunks, StrayOf, EndsAs, CutShort,
        WritesOnly, Tried, Room, ChunkLeft, InodesKept;
      ghost var fs0, owner0 := State(), owner;
      off, tot, chunks := off0, 0, [];
      var i := 0;
      NotAdvanced(sb, fs0, owner, inum, off0, src, Nat(n));
      PacedNone(n);
      while i < n
        invariant Valid() && |inodes| == |fs0.inodes| && 0 <= i == tot && (i <= n || i == 0) && off == off0 + i
                  && i <= good
        invariant Advanced(sb, fs0, State(), owner, inum, off0, src, Nat(n), tot, chunks)
        invariant Paced(|chunks|, i, n) && |chunks| <= MostChunks(n)
      {
        var n1 := if n - i > CHUNK then CHUNK else n - i;
        PacedMore(|chunks|, i, n, n1);
        ghost var fs1, owner1, chunks1 := State(), owner, chunks;
        AdvancedParts(sb, fs0, fs1, owner, inum, off0, src, n, tot, chunks);
        var r;
        r, clean, stray := Transaction(inum, off, src[i..i + n1], good - i);
        Advance(sb, fs0, fs1, clean, owner1, owner, inum, off0, src, n, tot, n1, chunks1, logged, r);
        if r > 0 {
          off := off + r;
          tot := tot + r;
        }
        chunks := chunks + [Chunk(logged, clean, tot)];
        if r != n1 {
          Cut(sb, fs0, fs1, clean, inum, off0, src, n, good, i, n1, r, stray);
          Outcome(sb, fs0, clean, owner0, owner, inum, off0, src, n, good, tot, chunks, stray);
          return -1, off, tot, clean, stray, chunks;
        }
        i := i + r;
      }
      clean, stray := State(), [];
      NoStrayOf(clean, inum, off);
      NotCut(sb, fs0, clean, inum, off0, src, n, good, tot);
      Outcome(sb, fs0, clean, owner0, owner, inum, off0, src, Nat(n), good, tot, chunks, stray);
      ret := if i == n then n else -1;
    }
  }

  /** ((MAXOPBLOCKS-1-1-2) / 2) * BSIZE */
  const CHUNK: nat := ((LogMachine.MAXOPBLOCKS - 1 - 1 - 2) / 2) * BSIZE

  /** No more transactions than the n bytes need. */
  function MostChunks(n: int): nat {
    if n <= 0 then 0 else (n - 1) / CHUNK + 1
  }

  /** k transactions have written i of n bytes, all but the last one CHUNK bytes. */
  predicate Paced(k: nat, i: nat, n: int) {
    i < n ==> i == k * CHUNK
  }

  lemma PacedNone(n: int)
    ensures Paced(0, 0, n) && 0 <= MostChunks(n)
  {
  }

  lemma PacedMore(k: nat, i: nat, n: int, n1: nat)
    requires Paced(k, i, n) && i < n && n1 == if n - i > CHUNK then CHUNK else n - i
    ensures i == k * CHUNK && Paced(k + 1, i + n1, n) && k + 1 <= MostChunks(n)
  {
  }

  function Nat(n: int): nat {
    if n < 0 then 0 else n
  }

  /** What a transaction logs is within the reservation, also just before the last
      log_write. */
  ghost predicate InReservation(log: seq<BlockWrite>) {
    && |Numbers(log)| <= LogMachine.MAXOPBLOCKS
    && forall k :: 0 <= k < |log| ==> |Numbers(log[..k])| < LogMachine.MAXOPBLOCKS
  }

  // ----- the history of a call of filewrite -----

  /** One transaction: what it logged, the file system afterwards, and how many bytes of the source
      are in place by then. */
  datatype Chunk = Chunk(log: seq<BlockWrite>, fs: Fs, mark: nat)

  ghost function FsAfter(fs0: Fs, chunks: seq<Chunk>, t: nat): Fs
    requires t <= |chunks|
  {
    if t == 0 then fs0 else chunks[t - 1].fs
  }

  ghost function MarkAfter(chunks: seq<Chunk>, t: nat): nat
    requires t <= |chunks|
  {
    if t == 0 then 0 else chunks[t - 1].mark
  }

  /** The bytes c with the given ones at off, as writei leaves them: it refuses to start past the end. */
  function Written(c: seq<Byte>, off: nat, bytes: seq<Byte>): seq<Byte> {
    if off <= |c| then Splice(c, off, bytes) else c
  }

  /** A consistent file system that has the first m bytes of src in file inum and else what fs0 has, in
      its inodes as well. */
  ghost predicate Boundary(sb: Super, fs0: Fs, fs: Fs, inum: nat, off: nat, src: seq<Byte>, m: nat)
    requires inum < |fs0.inodes|
  {
    && (exists owner :: Sound(sb, fs, owner)) && InodesKept(fs0.inodes, fs.inodes, inum) && m <= |src|
    && Content(fs, inum) == Written(Content(fs0, inum), off, src[..m])
    && forall o: nat :: o < |fs.inodes| && o != inum ==> Content(fs, o) == Content(fs0, o)
  }

  /** The transactions of a call: each starts from the disk that the one before left, moves no block of
      any file, stays in its reservation, and ends at a boundary CHUNK bytes further on; only the last
      may fall short. */
  ghost predicate History(sb: Super, fs0: Fs, inum: nat, off: nat, src: seq<Byte>, chunks: seq<Chunk>)
    requires inum < |fs0.inodes|
  {
    forall t: nat :: t < |chunks| ==>
        Step(sb, fs0, FsAfter(fs0, chunks, t), MarkAfter(chunks, t), inum, off, src, t, chunks[t])
  }

  /** The t-th transaction, on the file system fs with m bytes in place. */
  ghost predicate Step(sb: Super, fs0: Fs, fs: Fs, m: nat, inum: nat, off: nat, src: seq<Byte>, t: nat, c: Chunk)
    requires inum < |fs0.inodes|
  {
    && Journaled(sb, fs, c.fs, [], c.log) && InReservation(c.log)
    && Boundary(sb, fs0, c.fs, inum, off, src, c.mark)
    && (forall u :: At(fs, u) != 0 ==> At(c.fs, u) == At(fs, u))
    && m == t * CHUNK && c.mark <= (t + 1) * CHUNK
  }

  lemma NoChunks(sb: Super, fs0: Fs, inum: nat, off: nat, src: seq<Byte>)
    requires inum < |fs0.inodes|
    ensures History(sb, fs0, inum, off, src, [])
  {
  }

  lemma MoreChunks(sb: Super, fs0: Fs, inum: nat, off: nat, src: seq<Byte>, chunks: seq<Chunk>, c: Chunk,
                   owner: map<nat, Slot>)
    requires inum < |fs0.inodes| && InodesKept(fs0.inodes, c.fs.inodes, inum)
             && History(sb, fs0, inum, off, src, chunks)
    requires Extends(sb, FsAfter(fs0, chunks, |chunks|), c.fs, [], c.log, inum) && InReservation(c.log)
    requires Sound(sb, c.fs, owner) && c.mark <= |src|
    requires Content(c.fs, inum) == Written(Content(fs0, inum), off, src[..c.mark])
    requires forall o: nat :: o < |c.fs.inodes| && o != inum ==> Content(c.fs, o) == Content(fs0, o)
    requires MarkAfter(chunks, |chunks|) == |chunks| * CHUNK && c.mark <= |chunks| * CHUNK + CHUNK
    ensures History(sb, fs0, inum, off, src, chunks + [c])
    ensures FsAfter(fs0, chunks + [c], |chunks + [c]|) == c.fs && MarkAfter(chunks + [c], |chunks + [c]|) == c.mark
  {
    hide Sound, Content, Written, InReservation, Extends, Step;
    var all := chunks + [c];
    StepIs(sb, fs0, FsAfter(fs0, chunks, |chunks|), MarkAfter(chunks, |chunks|), inum, off, src, |chunks|, c, owner);
    forall t: nat | t < |all|
      ensures Step(sb, fs0, FsAfter(fs0, all, t), MarkAfter(all, t), inum, off, src, t, all[t])
    {
      assert FsAfter(fs0, all, t) == FsAfter(fs0, chunks, t) && MarkAfter(all, t) == MarkAfter(chunks, t);
    }
  }

  lemma StepIs(sb: Super, fs0: Fs, fs: Fs, m: nat, inum: nat, off: nat, src: seq<Byte>, t: nat, c: Chunk,
               owner: map<nat, Slot>)
    requires inum < |fs0.inodes| && InodesKept(fs0.inodes, c.fs.inodes, inum)
    requires Extends(sb, fs, c.fs, [], c.log, inum) && InReservation(c.log)
    requires Sound(sb, c.fs, owner) && c.mark <= |src|
    requires Content(c.fs, inum) == Written(Content(fs0, inum), off, src[..c.mark])
    requires forall o: nat :: o < |c.fs.inodes| && o != inum ==> Content(c.fs, o) == Content(fs0, o)
    requires m == t * CHUNK && c.mark <= t * CHUNK + CHUNK
    ensures Step(sb, fs0, fs, m, inum, off, src, t, c)
  {
    hide At, Used, Sound, Content, Written, InReservation, Journaled;
  }

  /** A write stops short exactly when the blocks it needs are more than the free ones. */
  lemma WholeIff(sb: Super, fs0: Fs, fs: Fs, owner0: map<nat, Slot>, owner: map<nat, Slot>, inum: nat, off: nat, n: nat,
                 bytes: seq<Byte>)
    requires Sound(sb, fs0, owner0) && Sound(sb, fs, owner) && inum < |fs0.inodes| == |fs.inodes|
    requires FilledWithin(fs0, fs, inum, off, n) && off <= fs0.inodes[inum].size && off + n <= MAXSIZE && |bytes| <= n
    requires Content(fs, inum) == Splice(Content(fs0, inum), off, bytes)
    requires |bytes| < n ==> Full(sb, fs) && FileBlock(fs, inum, (off + |bytes|) / BSIZE) == 0
    ensures |bytes| == n <==> |Missing(fs0, inum, off, n)| <= |FreeBlocks(sb, fs0)|
  {
    hide At, Used, AllSynced, Full, Wanted, Slots, FreeBlocks;
    OwnedInode(sb, fs0, owner0, inum);
    SpliceLength(Content(fs0, inum), off, bytes);
    if |bytes| == n {
      assert NoHoles(fs, inum, fs.inodes[inum].size);
      assert off + n <= |Content(fs, inum)| == fs.inodes[inum].size;
      NoneMissing(fs, inum, off, n);
      assert forall t :: t in Missing(fs0, inum, off, n) && At(fs, t) == 0 ==> t in Missing(fs, inum, off, n);
      AllThere(sb, fs0, fs, owner0, owner, inum, off, n);
    } else {
      BlockWanted(inum, off, n, off + |bytes|);
      OneEmpty(sb, fs0, fs, owner0, owner, inum, off, n, SlotOf(inum, (off + |bytes|) / BSIZE));
    }
  }

  /** filewrite with tot of its n bytes written. */
  ghost predicate Advanced(sb: Super, fs0: Fs, fs: Fs, owner: map<nat, Slot>, inum: nat, off: nat, src: seq<Byte>,
                           n: nat, tot: nat, chunks: seq<Chunk>)
    requires inum < |fs0.inodes|
  {
    && Sound(sb, fs, owner) && InodesKept(fs0.inodes, fs.inodes, inum) && tot <= |src|
    && Content(fs, inum) == Written(Content(fs0, inum), off, src[..tot])
    && (forall o: nat :: o < |fs.inodes| && o != inum ==> Content(fs, o) == Content(fs0, o))
    && (off > fs0.inodes[inum].size ==> tot == 0 && fs == fs0) && (tot > 0 ==> off + tot <= MAXSIZE)
    && FilledWithin(fs0, fs, inum, off, n)
    && History(sb, fs0, inum, off, src, chunks)
    && FsAfter(fs0, chunks, |chunks|) == fs && MarkAfter(chunks, |chunks|) == tot
  }

  lemma NotAdvanced(sb: Super, fs: Fs, owner: map<nat, Slot>, inum: nat, off: nat, src: seq<Byte>, n: nat)
    requires Sound(sb, fs, owner) && inum < |fs.inodes|
    ensures Advanced(sb, fs, fs, owner, inum, off, src, n, 0, [])
  {
    hide Sound, Content, History, FilledWithin;
    assert src[..0] == [];
    SpliceNothing(Content(fs, inum), off);
    NoChunks(sb, fs, inum, off, src);
    FilledRefl(fs, inum, off, n);
  }

  lemma AdvancedParts(sb: Super, fs0: Fs, fs: Fs, owner: map<nat, Slot>, inum: nat, off: nat, src: seq<Byte>, n: nat,
                      tot: nat, chunks: seq<Chunk>)
    requires inum < |fs0.inodes| && Advanced(sb, fs0, fs, owner, inum, off, src, n, tot, chunks)
    ensures Sound(sb, fs, owner) && InodesKept(fs0.inodes, fs.inodes, inum)
    ensures off > fs0.inodes[inum].size ==> tot == 0 && fs == fs0
    ensures tot > 0 ==> off + tot <= MAXSIZE
    ensures off + tot > fs.inodes[inum].size ==> off > fs0.inodes[inum].size
  {
    hide Sound, ByteAt, History, FilledWithin, Splice;
    SpliceLength(Content(fs0, inum), off, src[..tot]);
    assert |Content(fs, inum)| == fs.inodes[inum].size && |Content(fs0, inum)| == fs0.inodes[inum].size;
  }

  lemma ExtendsInodes(sb: Super, fs: Fs, fs': Fs, log0: seq<BlockWrite>, log: seq<BlockWrite>, inum: nat)
    requires Extends(sb, fs, fs', log0, log, inum)
    ensures InodesKept(fs.inodes, fs'.inodes, inum)
  {
    hide At, Used, Journaled;
  }

  /** One more transaction. */
  lemma Advance(sb: Super, fs0: Fs, fs: Fs, fs': Fs, owner: map<nat, Slot>, owner': map<nat, Slot>, inum: nat, off: nat,
                src: seq<Byte>, n: nat, tot: nat, n1: nat, chunks: seq<Chunk>, log: seq<BlockWrite>, r: int)
    requires inum < |fs0.inodes| && Advanced(sb, fs0, fs, owner, inum, off, src, n, tot, chunks)
    requires tot == |chunks| * CHUNK && n1 <= CHUNK && tot + n1 <= n <= |src|
    requires Sound(sb, fs', owner') && |fs'.inodes| == |fs.inodes| == |fs0.inodes|
    requires r == -1 <==> off + tot > fs.inodes[inum].size || off + tot + n1 > MAXSIZE
    requires if r == -1 then fs' == fs
             else 0 <= r <= n1 && Content(fs', inum) == Splice(Content(fs, inum), off + tot, src[tot..tot + n1][..r])
    requires forall o: nat :: o < |fs'.inodes| && o != inum ==> Content(fs', o) == Content(fs, o)
    requires FilledWithin(fs, fs', inum, off + tot, Tried(r, n1))
    requires Extends(sb, fs, fs', [], log, inum) && InReservation(log)
    ensures var tot' := if r > 0 then tot + r else tot;
            Advanced(sb, fs0, fs', owner', inum, off, src, n, tot', chunks + [Chunk(log, fs', tot')])
  {
    hide Sound, History, FilledWithin, Extends, InReservation, ByteAt, Splice;
    var tot' := if r > 0 then tot + r else tot;
    if r >= 0 {
      SpliceMore(Content(fs0, inum), off, src, tot, n1, r);
    }
    FilledPart(fs0, fs, fs', inum, off, n, off + tot, Tried(r, n1));
    ExtendsInodes(sb, fs, fs', [], log, inum);
    MoreChunks(sb, fs0, inum, off, src, chunks, Chunk(log, fs', tot'), owner');
  }

  predicate WholeChunks(tot: nat) {
    tot % CHUNK == 0
  }

  /** What is left of n bytes and of the chunk after tot of them. */
  function ChunkLeft(n: nat, tot: nat): nat
    requires tot <= n
  {
    Least(n - tot, CHUNK - tot % CHUNK)
  }

  /** Why filewrite stops after tot of its n bytes, which are whole transactions and rounds: they are all;
      or the offset is past the end of the file, or the next chunk past the largest size; or no block is
      free; or a copy from the source fails, which leaves the bytes that could be read. */
  ghost predicate CutShort(sb: Super, fs0: Fs, fs: Fs, inum: nat, off: nat, src: seq<Byte>, n: int, good: nat, tot: nat,
                           stray: seq<Byte>)
    requires inum < |fs0.inodes| && n <= |src|
  {
    && (tot >= n || WholeChunks(tot) || OnEdge(off + tot))
    && ((stray == [] && (tot >= n || off > fs0.inodes[inum].size || off + tot + Least(n - tot, CHUNK) > MAXSIZE))
        || (stray == [] && Full(sb, fs) && FileBlock(fs, inum, (off + tot) / BSIZE) == 0)
        || (tot < n && tot <= good < tot + Room(off + tot, ChunkLeft(n, tot))
            && stray == src[tot..good]))
  }

  lemma NotCut(sb: Super, fs0: Fs, fs: Fs, inum: nat, off: nat, src: seq<Byte>, n: int, good: nat, tot: nat)
    requires inum < |fs0.inodes| && n <= |src| && tot >= n
    ensures CutShort(sb, fs0, fs, inum, off, src, n, good, tot, [])
    ensures n < 0 ==> CutShort(sb, fs0, fs, inum, off, src, 0, good, tot, [])
  {
  }

  /** The last transaction, on fs, wrote r of the n1 bytes from the i-th on. */
  lemma Cut(sb: Super, fs0: Fs, fs: Fs, fs': Fs, inum: nat, off: nat, src: seq<Byte>, n: nat, good: nat, i: nat,
            n1: nat, r: int, stray: seq<Byte>)
    requires inum < |fs0.inodes| && inum < |fs.inodes| && n <= |src| && i < n && i <= good && n1 == Least(n - i, CHUNK)
    requires i % CHUNK == 0
    requires off + i > fs.inodes[inum].size ==> off > fs0.inodes[inum].size
    requires r == -1 <==> off + i > fs.inodes[inum].size || off + i + n1 > MAXSIZE
    requires if r == -1 then stray == []
             else 0 <= r < n1 && EndsAs(sb, fs', inum, off + i, src[i..i + n1], good - i, r, stray)
    ensures CutShort(sb, fs0, fs', inum, off, src, n, good, if r > 0 then i + r else i, stray)
  {
    hide FileBlock, Full, Room, OnEdge, WholeChunks, ChunkLeft;
    WholeNow(i);
    if r != -1 {
      InChunk(i, r, n, n1);
      if good < i + n1 {
        PartOf(src, i, n1, r, good - i);
      }
    }
  }

  lemma PartOf(src: seq<Byte>, i: nat, n: nat, a: nat, b: nat)
    requires a <= b <= n && i + n <= |src|
    ensures src[i..i + n][a..b] == src[i + a..i + b]
  {
    var c, d := src[i..i + n][a..b], src[i + a..i + b];
    assert |c| == |d|;
    forall k: nat | k < |c| ensures c[k] == d[k] {
      assert c[k] == src[i..i + n][a + k];
    }
  }

  lemma WholeNow(i: nat)
    requires i % CHUNK == 0
    ensures WholeChunks(i)
  {
  }

  lemma InChunk(i: nat, r: nat, n: nat, n1: nat)
    requires i % CHUNK == 0 && i < n && n1 == Least(n - i, CHUNK) && r < n1
    ensures ChunkLeft(n, i + r) == n1 - r
  {
    assert CHUNK == 3072;
    assert i + r == 3072 * (i / 3072) + r;
  }

  /** What filewrite has done when it returns, short or not. */
  lemma Outcome(sb: Super, fs0: Fs, fs: Fs, owner0: map<nat, Slot>, owner: map<nat, Slot>, inum: nat, off: nat,
                src: seq<Byte>, n: nat, good: nat, tot: nat, chunks: seq<Chunk>, stray: seq<Byte>)
    requires Sound(sb, fs0, owner0) && inum < |fs0.inodes| == |fs.inodes|
    requires Advanced(sb, fs0, fs, owner, inum, off, src, n, tot, chunks) && tot <= n <= |src|
    requires CutShort(sb, fs0, fs, inum, off, src, n, good, tot, stray)
    ensures off <= fs0.inodes[inum].size ==> Content(fs, inum) == Splice(Content(fs0, inum), off, src[..tot])
    ensures forall o: nat :: o < |fs.inodes| && o != inum ==> Content(fs, o) == Content(fs0, o)
    ensures off > fs0.inodes[inum].size ==> tot == 0 && fs == fs0
    ensures InodesKept(fs0.inodes, fs.inodes, inum)
    ensures History(sb, fs0, inum, off, src, chunks)
    ensures FsAfter(fs0, chunks, |chunks|) == fs && MarkAfter(chunks, |chunks|) == tot
    ensures n <= good && off <= fs0.inodes[inum].size && off + n <= MAXSIZE ==>
              (tot == n <==> |Missing(fs0, inum, off, n)| <= |FreeBlocks(sb, fs0)|)
  {
    hide At, Sound, History, FilledWithin, Full, ByteAt, Splice, Missing, FreeBlocks;
    if n <= good && off <= fs0.inodes[inum].size && off + n <= MAXSIZE {
      WholeIff(sb, fs0, fs, owner0, owner, inum, off, n, src[..tot]);
    }
  }

  lemma Fewer(a: set<nat>, b: set<nat>)
    requires a <= b
    ensures |a| <= |b|
  {
    if a != {} {
      var x :| x in a;
      Fewer(a - {x}, b - {x});
    }
  }

  /** The blocks newly logged are blocks of the free map. */
  ghost predicate OnlyMap(sb: Super, log0: set<nat>, log1: set<nat>) {
    forall b :: b in log1 && b !in log0 ==> sb.bmapstart <= b < sb.datastart
  }

  /** Only blocks of the free map have been written. */
  ghost predicate Freeing(sb: Super, fs0: Fs, fs: Fs, log0: seq<BlockWrite>, log: seq<BlockWrite>) {
    OnlyMap(sb, Numbers(log0), Numbers(log)) && Journaled(sb, fs0, fs, log0, log)
  }

  lemma FreeingNone(sb: Super, fs: Fs, log: seq<BlockWrite>)
    ensures Freeing(sb, fs, fs, log, log)
  {
    JournalRefl(sb, fs, log);
  }

  /** bfree, and perhaps a change of the inode in memory. */
  lemma FreeingMore(sb: Super, fs0: Fs, fs: Fs, fs': Fs, b: nat, log0: seq<BlockWrite>, log: seq<BlockWrite>)
    requires Freeing(sb, fs0, fs, log0, log) && Shape(sb, fs) && b < sb.size && sb.BBlock(b) < |fs.blocks|
    requires fs'.blocks == Free(sb, fs, b).blocks
    ensures Freeing(sb, fs0, fs', log0, log + FreeWrites(sb, fs, b))
  {
    hide Shape, Journaled, Free, FreeWrites;
    ShapeGood(sb, fs);
    BitmapInRange(sb, b);
    FreeLogged(sb, fs, b, log);
    JournalInode(sb, fs, Free(sb, fs, b), fs', log, log + FreeWrites(sb, fs, b));
    JournalTrans(sb, fs0, fs, fs', log0, log, log + FreeWrites(sb, fs, b));
    NumbersPlus(log, FreeWrites(sb, fs, b));
    FreeNumbers(sb, fs, b);
  }

  lemma ShapeGood(sb: Super, fs: Fs)
    requires Shape(sb, fs)
    ensures sb.Good() && |fs.blocks| == sb.size
  {
  }

  lemma FreeNumbers(sb: Super, fs: Fs, b: nat)
    requires sb.BBlock(b) < |fs.blocks|
    ensures Numbers(FreeWrites(sb, fs, b)) == {sb.BBlock(b)}
  {
    NumbersOne(FreeWrites(sb, fs, b)[0]);
  }

  // ----- the end of writei -----

  /** The inode with the size that writei gives it once it has come to byte at. */
  function Resized(fs: Fs, inum: nat, at: nat): Fs
    requires inum < |fs.inodes|
  {
    SetSize(fs, inum, Reach(fs.inodes[inum].size, at))
  }

  predicate CanWriteBack(sb: Super, fs: Fs, inum: nat, at: nat) {
    inum < |fs.inodes| && GoodInode(Resized(fs, inum, at).inodes[inum]) && sb.IBlock(inum) < |fs.blocks|
  }

  function WrittenBack(sb: Super, fs: Fs, inum: nat, at: nat): Fs
    requires CanWriteBack(sb, fs, inum, at)
  {
    Updated(sb, Resized(fs, inum, at), inum)
  }

  /** The inode written back: everything holds again. */
  lemma WriteBackEnds(sb: Super, fs0: Fs, fs: Fs, owner: map<nat, Slot>, inum: nat, off: nat, done: seq<Byte>,
                      log: seq<BlockWrite>)
    requires Writing(sb, fs0, fs, owner, inum, off, done) && AllFilled(fs0) && AllSynced(sb, fs0)
    ensures CanWriteBack(sb, fs, inum, off + |done|) && off + |done| <= MAXSIZE
    ensures var clean := WrittenBack(sb, fs, inum, off + |done|);
            && Sound(sb, clean, owner) && |clean.inodes| == |fs0.inodes| && off <= |Content(fs0, inum)|
            && Content(clean, inum) == Splice(Content(fs0, inum), off, done)
            && (forall o: nat :: o < |fs0.inodes| && o != inum ==> Content(clean, o) == Content(fs0, o))
            && (Full(sb, fs) ==> Full(sb, clean)) && (forall t :: At(clean, t) == At(fs, t))
            && Extends(sb, fs, clean, log, log + UpdateWrites(sb, Resized(fs, inum, off + |done|), inum), inum)
  {
    hide At, Owned, AllSynced, Writing, AllFilled, TestBit, Spliced, Extends;
    WritingParts(sb, fs0, fs, owner, inum, off, done);
    var fs1 := Resized(fs, inum, off + |done|);
    WriteEnds(sb, fs0, fs, fs1, owner, inum, off, done);
    OwnedInode(sb, fs1, owner, inum);
    UpdateEnds(sb, fs1, owner, inum);
    SlotsUpdated(sb, fs, fs1, owner, inum);
    UpdateExtends(sb, fs, fs1, owner, inum, log);
    FullSame(sb, fs, fs1);
  }

  /** Why writei stops after r of the bytes, which are whole rounds: they are all; or a copy from the
      source fails, which leaves the bytes that could be read; or no block is free. */
  ghost predicate EndsAs(sb: Super, fs: Fs, inum: nat, off: nat, src: seq<Byte>, good: nat, r: nat, stray: seq<Byte>) {
    && r <= good && (r == 0 || r == |src| || OnEdge(off + r))
    && if r >= |src| then stray == []
       else if FileBlock(fs, inum, (off + r) / BSIZE) == 0 then stray == [] && Full(sb, fs)
       else good < r + Room(off + r, |src| - r) && stray == src[r..good]
  }

  lemma EndIs(sb: Super, fs: Fs, fs': Fs, inum: nat, off: nat, src: seq<Byte>, good: nat, r: nat, fault: bool,
              stray: seq<Byte>)
    requires r <= good && r <= |src| && (forall t :: At(fs', t) == At(fs, t)) && (Full(sb, fs) ==> Full(sb, fs'))
    requires r == 0 || r == |src| || OnEdge(off + r)
    requires if fault then r < |src| && good < r + Room(off + r, |src| - r) && stray == src[r..good]
                           && FileBlock(fs, inum, (off + r) / BSIZE) != 0
             else stray == [] && (r < |src| ==> Full(sb, fs) && FileBlock(fs, inum, (off + r) / BSIZE) == 0)
    ensures EndsAs(sb, fs', inum, off, src, good, r, stray)
  {
    hide At, Full, Room;
  }

  /** fs' is fs but for some bytes of the block of byte at of a file. */
  predicate StrayOf(fs: Fs, fs': Fs, inum: nat, at: nat, bytes: seq<Byte>) {
    if bytes == [] then fs' == fs
    else
      var b := FileBlock(fs, inum, at / BSIZE);
      && at % BSIZE + |bytes| <= BSIZE && 0 < b < |fs.blocks|
      && fs' == SetBlock(fs, b, Overlay(fs.blocks[b], at % BSIZE, bytes))
  }

  lemma NoStrayOf(fs: Fs, inum: nat, at: nat)
    ensures StrayOf(fs, fs, inum, at, [])
  {
  }

  lemma StrayIs(fs: Fs, fs': Fs, inum: nat, at: nat, bytes: seq<Byte>, b: nat)
    requires (fs' == fs && bytes == [])
             || (0 < b == FileBlock(fs, inum, at / BSIZE) < |fs.blocks| && at % BSIZE + |bytes| <= BSIZE
                 && fs' == SetBlock(fs, b, Overlay(fs.blocks[b], at % BSIZE, bytes)))
    ensures StrayOf(fs, fs', inum, at, bytes) && (bytes == [] ==> fs' == fs)
  {
    hide At;
    if bytes == [] && 0 < b < |fs.blocks| {
      assert fs.blocks[b] == Overlay(fs.blocks[b], at % BSIZE, []);
      assert fs.blocks[b := fs.blocks[b]] == fs.blocks;
    }
  }

  lemma StrayShape(sb: Super, fs0: Fs, fs: Fs, fs': Fs, owner: map<nat, Slot>, inum: nat, off: nat, done: seq<Byte>,
                   bytes: seq<Byte>)
    requires Writing(sb, fs0, fs, owner, inum, off, done) && StrayOf(fs, fs', inum, off + |done|, bytes)
    ensures Shape(sb, fs') && |fs'.blocks| == |fs.blocks| && fs'.inodes == fs.inodes && inum < |fs.inodes|
    ensures off + |done| <= MAXSIZE
  {
    hide At, Used, Spliced;
  }

  /** Writing back the inode leaves the stray bytes where they are, and logs the same. */
  lemma StrayStays(sb: Super, fs: Fs, fs': Fs, owner: map<nat, Slot>, inum: nat, at: nat, bytes: seq<Byte>)
    requires Owned(sb, fs, owner, {}, {}) && StrayOf(fs, fs', inum, at, bytes) && at <= MAXSIZE
    requires bytes != [] ==> at / BSIZE < MAXFILE
    requires CanWriteBack(sb, fs, inum, at) && CanWriteBack(sb, fs', inum, at)
    requires forall t :: At(WrittenBack(sb, fs, inum, at), t) == At(fs, t)
    ensures StrayOf(WrittenBack(sb, fs, inum, at), WrittenBack(sb, fs', inum, at), inum, at, bytes)
    ensures UpdateWrites(sb, Resized(fs', inum, at), inum) == UpdateWrites(sb, Resized(fs, inum, at), inum)
  {
    hide At, Used, SetWords, InodeWords;
    if bytes != [] {
      FileBlockIs(sb, fs, owner, inum, at / BSIZE);
      InodeBlock(sb, fs, owner, inum);
    }
  }

  /** Stray bytes harm no other file, and of this one only bytes that it has. */
  lemma StraySound(sb: Super, fs: Fs, fs': Fs, owner: map<nat, Slot>, inum: nat, at: nat, bytes: seq<Byte>)
    requires Sound(sb, fs, owner) && inum < |fs.inodes| && StrayOf(fs, fs', inum, at, bytes)
    requires at <= fs.inodes[inum].size && (bytes != [] ==> at / BSIZE < MAXFILE)
    ensures Sound(sb, fs', owner) && fs'.inodes == fs.inodes
    ensures |Splice(Content(fs, inum), at, bytes)| >= fs.inodes[inum].size
    ensures Content(fs', inum) == Splice(Content(fs, inum), at, bytes)[..fs.inodes[inum].size]
    ensures forall o: nat :: o < |fs.inodes| && o != inum ==> Content(fs', o) == Content(fs, o)
  {
    hide At, Owned, Synced, NoHoles, Content, Splice, Writing;
    if bytes == [] {
      NoStray(fs, inum, at);
    } else {
      WriteStarts(sb, fs, owner, inum, at);
      WriteStored(sb, fs, fs, fs', owner, inum, at, [], bytes, FileBlock(fs, inum, at / BSIZE));
      assert [] + bytes == bytes;
      WritingParts(sb, fs, fs', owner, inum, at, bytes);
      StrayReads(sb, fs, fs', owner, inum, at, bytes);
      forall o: nat | o < |fs.inodes|
        ensures Synced(sb, fs', o) && NoHoles(fs', o, fs'.inodes[o].size)
                && (o != inum ==> Content(fs', o) == Content(fs, o))
      {
        if o != inum {
          StrayOther(sb, fs, fs', owner, inum, at, bytes, o);
        }
      }
    }
  }

  lemma NoStray(fs: Fs, inum: nat, at: nat)
    requires inum < |fs.inodes| && at <= fs.inodes[inum].size
    ensures Splice(Content(fs, inum), at, []) == Content(fs, inum)
    ensures Content(fs, inum)[..fs.inodes[inum].size] == Content(fs, inum)
  {
    hide ByteAt;
  }

  lemma StrayReads(sb: Super, fs: Fs, fs': Fs, owner: map<nat, Slot>, inum: nat, at: nat, bytes: seq<Byte>)
    requires Writing(sb, fs, fs', owner, inum, at, bytes) && fs'.inodes == fs.inodes && AllSynced(sb, fs)
    ensures Synced(sb, fs', inum) && NoHoles(fs', inum, fs'.inodes[inum].size)
    ensures at <= |Content(fs, inum)| && |Splice(Content(fs, inum), at, bytes)| >= fs.inodes[inum].size
    ensures Content(fs', inum) == Splice(Content(fs, inum), at, bytes)[..fs.inodes[inum].size]
  {
    hide At, Used, Word, InodeWords, BlocksKept;
    var c, d := Content(fs', inum), Splice(Content(fs, inum), at, bytes);
    assert Synced(sb, fs, inum) && GoodInode(fs.inodes[inum]);
    assert sb.IBlock(inum) < sb.bmapstart;
    forall i: nat | i < |c| ensures c[i] == d[i] {
      SpliceAt(Content(fs, inum), at, bytes, i);
    }
  }

  lemma StrayOther(sb: Super, fs: Fs, fs': Fs, owner: map<nat, Slot>, inum: nat, at: nat, bytes: seq<Byte>, o: nat)
    requires Writing(sb, fs, fs', owner, inum, at, bytes) && fs'.inodes == fs.inodes && o < |fs.inodes| && o != inum
    requires AllFilled(fs) && AllSynced(sb, fs)
    ensures Content(fs', o) == Content(fs, o) && NoHoles(fs', o, fs'.inodes[o].size) && Synced(sb, fs', o)
  {
    hide At, Used, Content, NoHoles, Synced, Spliced, BlocksKept, AllFilled, AllSynced;
    ShapeOf(sb, fs', owner, {});
    OtherFile(sb, fs, fs', fs', inum, o);
  }

  lemma SoundParts(sb: Super, fs: Fs, owner: map<nat, Slot>, inum: nat)
    requires Sound(sb, fs, owner) && inum < |fs.inodes|
    ensures Owned(sb, fs, owner, {}, {}) && AllFilled(fs) && AllSynced(sb, fs) && fs.inodes[inum].size <= MAXSIZE
  {
    hide At, Used;
    OwnedInode(sb, fs, owner, inum);
  }

  /** All that holds at the end of writei. */
  lemma WriteiEnds(sb: Super, fs0: Fs, fs: Fs, fs': Fs, owner: map<nat, Slot>, inum: nat, off: nat, src: seq<Byte>,
                   good: nat, tot: nat, fault: bool, stray: seq<Byte>, log: seq<BlockWrite>,
                   done: Fs)
    returns (clean: Fs)
    requires AllFilled(fs0) && AllSynced(sb, fs0) && tot <= |src| && tot <= good && off + |src| <= MAXSIZE
    requires tot == 0 || tot == |src| || OnEdge(off + tot)
    requires Writing(sb, fs0, fs, owner, inum, off, src[..tot]) && StrayOf(fs, fs', inum, off + tot, stray)
    requires CanWriteBack(sb, fs', inum, off + tot) && done == WrittenBack(sb, fs', inum, off + tot)
    requires if fault then tot < |src| && good < tot + Room(off + tot, |src| - tot) && stray == src[tot..good]
                           && FileBlock(fs, inum, (off + tot) / BSIZE) != 0
             else stray == [] && (tot < |src| ==> Full(sb, fs) && FileBlock(fs, inum, (off + tot) / BSIZE) == 0)
    ensures Sound(sb, clean, owner) && |clean.inodes| == |fs0.inodes| && off <= |Content(fs0, inum)|
    ensures Content(clean, inum) == Splice(Content(fs0, inum), off, src[..tot])
    ensures forall o: nat :: o < |fs0.inodes| && o != inum ==> Content(clean, o) == Content(fs0, o)
    ensures forall t :: At(clean, t) == At(fs, t)
    ensures Sound(sb, done, owner)
    ensures done.inodes == clean.inodes
    ensures StrayOf(clean, done, inum, off + tot, stray)
    ensures stray == [] ==> done == clean
    ensures EndsAs(sb, clean, inum, off, src, good, tot, stray)
    ensures Extends(sb, fs, clean, log, log + UpdateWrites(sb, Resized(fs', inum, off + tot), inum), inum)
  {
    hide Sound, AllFilled, AllSynced, Writing, Owned, At, Full, Content, Splice, Extends, UpdateWrites, EndsAs,
      WrittenBack, Resized, FileBlock;
    var at := off + tot;
    WritingParts(sb, fs0, fs, owner, inum, off, src[..tot]);
    WriteBackEnds(sb, fs0, fs, owner, inum, off, src[..tot], log);
    clean := WrittenBack(sb, fs, inum, at);
    StrayStays(sb, fs, fs', owner, inum, at, stray);
    LongEnough(clean, fs0, inum, off, src[..tot]);
    StraySound(sb, clean, done, owner, inum, at, stray);
    EndIs(sb, fs, clean, inum, off, src, good, tot, fault, stray);
  }

  lemma LongEnough(fs: Fs, fs0: Fs, inum: nat, off: nat, bytes: seq<Byte>)
    requires inum < |fs.inodes| && inum < |fs0.inodes| && off <= |Content(fs0, inum)|
    requires Content(fs, inum) == Splice(Content(fs0, inum), off, bytes)
    ensures off + |bytes| <= fs.inodes[inum].size
  {
    hide ByteAt;
    assert |Content(fs, inum)| == fs.inodes[inum].size;
  }

  lemma JournalTrans(sb: Super, fs0: Fs, fs1: Fs, fs2: Fs, log0: seq<BlockWrite>, log1: seq<BlockWrite>,
                     log2: seq<BlockWrite>)
    requires Journaled(sb, fs0, fs1, log0, log1) && Journaled(sb, fs1, fs2, log1, log2)
    ensures Journaled(sb, fs0, fs2, log0, log2)
  {
    assert log2[|log0|..] == log1[|log0|..] + log2[|log1|..];
    ReplayPlus(fs0.blocks, log1[|log0|..], log2[|log1|..]);
    assert forall k :: |log0| <= k < |log1| ==> log2[k] == log1[k];
  }

  lemma PrefixNumbers(log0: seq<BlockWrite>, log1: seq<BlockWrite>)
    requires log0 <= log1
    ensures Numbers(log0) <= Numbers(log1)
  {
    assert log1 == log0 + log1[|log0|..];
    NumbersPlus(log0, log1[|log0|..]);
  }

  lemma ExtendsRefl(sb: Super, fs: Fs, log: seq<BlockWrite>, inum: nat)
    ensures Extends(sb, fs, fs, log, log, inum)
  {
    hide At, Used;
    JournalRefl(sb, fs, log);
  }

  lemma ExtendsTrans(sb: Super, fs0: Fs, fs1: Fs, fs2: Fs, log0: seq<BlockWrite>, log1: seq<BlockWrite>,
                     log2: seq<BlockWrite>, inum: nat)
    requires Extends(sb, fs0, fs1, log0, log1, inum) && Extends(sb, fs1, fs2, log1, log2, inum)
    ensures Extends(sb, fs0, fs2, log0, log2, inum)
  {
    hide At, Used, Journaled;
    JournalTrans(sb, fs0, fs1, fs2, log0, log1, log2);
    Journals(sb, fs1, fs2, log1, log2);
    PrefixNumbers(log1, log2);
  }

  lemma AllocNumbers(sb: Super, fs: Fs, b: nat, log: seq<BlockWrite>)
    requires sb.BBlock(b) < |fs.blocks|
    ensures Numbers(log + AllocWrites(sb, fs, b)) == Numbers(log) + {sb.BBlock(b), b}
  {
    NumbersPlus(log, AllocWrites(sb, fs, b));
    TwoNumbers(AllocWrites(sb, fs, b)[0], AllocWrites(sb, fs, b)[1]);
  }

  lemma AllocateExtends(sb: Super, fs: Fs, inum: nat, b: nat, log: seq<BlockWrite>)
    requires Shape(sb, fs) && sb.datastart <= b < sb.size && sb.BBlock(b) < |fs.blocks|
    requires forall t :: At(Allocate(sb, fs, b), t) == At(fs, t)
    ensures Extends(sb, fs, Allocate(sb, fs, b), log, log + AllocWrites(sb, fs, b), inum)
  {
    hide At, Used;
    AllocateLogged(sb, fs, b, log);
    AllocateBits(sb, fs, b);
    AllocNumbers(sb, fs, b, log);
  }

  /** balloc into the inode. */
  lemma AttachExtends(sb: Super, fs: Fs, fs': Fs, inum: nat, k: nat, b: nat, log: seq<BlockWrite>)
    requires Shape(sb, fs) && sb.datastart <= b < sb.size && sb.BBlock(b) < |fs.blocks|
    requires fs'.blocks == Allocate(sb, fs, b).blocks && At(fs, Addr(inum, k)) == 0
    requires InodesKept(fs.inodes, fs'.inodes, inum)
    requires forall t :: At(fs', t) == if t == Addr(inum, k) then b else At(fs, t)
    ensures Extends(sb, fs, fs', log, log + AllocWrites(sb, fs, b), inum)
  {
    hide At, Used;
    AllocateLogged(sb, fs, b, log);
    AllocateBits(sb, fs, b);
    AllocNumbers(sb, fs, b, log);
    SameBits(sb, Allocate(sb, fs, b), fs');
  }

  lemma SameBits(sb: Super, fs: Fs, fs': Fs)
    requires fs'.blocks == fs.blocks
    ensures forall b: nat :: Used(sb, fs', b) == Used(sb, fs, b)
  {
  }

  /** A store past the free map that moves no block of a file. */
  lemma StoreExtends(sb: Super, fs: Fs, fs': Fs, b: nat, data: Block, log: seq<BlockWrite>, inum: nat)
    requires Shape(sb, fs) && sb.inodestart <= b < |fs.blocks| && (sb.datastart <= b || b < sb.bmapstart)
    requires fs' == SetBlock(fs, b, data)
    requires forall t :: At(fs', t) == At(fs, t) || (At(fs, t) == 0 && t.inum == inum)
    ensures Extends(sb, fs, fs', log, log + [BlockWrite(b, data)], inum)
  {
    hide At, Used;
    JournalOne(sb, fs, b, data, log);
    BitmapUntouched(sb, fs, fs', b);
  }

  lemma UpdateExtends(sb: Super, fs1: Fs, fs2: Fs, owner: map<nat, Slot>, inum: nat, log: seq<BlockWrite>)
    requires Owned(sb, fs2, owner, {}, {}) && inum < |fs1.inodes| == |fs2.inodes|
    requires fs2 == SetSize(fs1, inum, fs2.inodes[inum].size)
    requires sb.IBlock(inum) < |fs2.blocks| && GoodInode(fs2.inodes[inum])
    ensures Extends(sb, fs1, Updated(sb, fs2, inum), log, log + UpdateWrites(sb, fs2, inum), inum)
  {
    hide At, Used;
    SlotsUpdated(sb, fs1, fs2, owner, inum);
    InodeBlock(sb, fs2, owner, inum);
    JournalUpdate(sb, fs1, fs2, inum, log);
    SameBits(sb, fs1, fs2);
    BitmapUntouched(sb, fs2, Updated(sb, fs2, inum), sb.IBlock(inum));
  }

  lemma Journals(sb: Super, fs0: Fs, fs: Fs, log0: seq<BlockWrite>, log: seq<BlockWrite>)
    requires Journaled(sb, fs0, fs, log0, log)
    ensures log0 <= log && |fs.blocks| == |fs0.blocks|
  {
  }

  /** A block that has not been logged has not changed. */
  lemma Unlogged(sb: Super, fs0: Fs, fs: Fs, log: seq<BlockWrite>, b: nat)
    requires Journaled(sb, fs0, fs, [], log) && b < |fs0.blocks|
    ensures |fs.blocks| == |fs0.blocks| && (b !in Numbers(log) ==> fs.blocks[b] == fs0.blocks[b])
  {
    assert log[0..] == log;
    if b !in Numbers(log) {
      ReplayKeeps(fs0.blocks, log, b);
    }
  }

  lemma JournalRefl(sb: Super, fs: Fs, log: seq<BlockWrite>)
    ensures Journaled(sb, fs, fs, log, log)
  {
    assert log[|log|..] == [];
  }

  lemma FilledNone(fs: Fs, inum: nat, bn: nat)
    ensures FilledFor(fs, fs, inum, bn)
  {
  }

  /** What bmap fills for byte at is wanted by a write over it. */
  lemma FilledByte(fs: Fs, fs': Fs, inum: nat, off: nat, n: nat, at: nat)
    requires FilledFor(fs, fs', inum, at / BSIZE) && off <= at < off + n && at / BSIZE < MAXFILE
    ensures FilledWithin(fs, fs', inum, off, n)
  {
    hide At;
    BlockWanted(inum, off, n, at);
  }

  lemma FilledOne(fs: Fs, fs': Fs, inum: nat, bn: nat, u: Slot, b: nat)
    requires u == SlotOf(inum, bn) || (u == Addr(inum, NDIRECT) && bn >= NDIRECT)
    requires At(fs, u) == 0 && forall t :: At(fs', t) == if t == u then b else At(fs, t)
    ensures FilledFor(fs, fs', inum, bn)
  {
    hide At;
  }

  lemma FilledSame(fs0: Fs, fs1: Fs, fs2: Fs, inum: nat, off: nat, n: nat)
    requires FilledWithin(fs0, fs1, inum, off, n) && forall t :: At(fs2, t) == At(fs1, t)
    ensures FilledWithin(fs0, fs2, inum, off, n)
  {
    hide At;
  }

  lemma FilledTrans(fs0: Fs, fs1: Fs, fs2: Fs, inum: nat, bn: nat)
    requires FilledFor(fs0, fs1, inum, bn) && FilledFor(fs1, fs2, inum, bn)
    ensures FilledFor(fs0, fs2, inum, bn)
  {
    hide At;
  }

  lemma JournalOne(sb: Super, fs: Fs, b: nat, data: Block, log: seq<BlockWrite>)
    requires sb.inodestart <= b < |fs.blocks|
    ensures Journaled(sb, fs, SetBlock(fs, b, data), log, log + [BlockWrite(b, data)])
  {
    ReplayOne(fs.blocks, BlockWrite(b, data));
    assert (log + [BlockWrite(b, data)])[|log|..] == [BlockWrite(b, data)];
  }

  lemma AllocateLogged(sb: Super, fs: Fs, b: nat, log: seq<BlockWrite>)
    requires Shape(sb, fs) && sb.datastart <= b < sb.size && sb.BBlock(b) < |fs.blocks|
    ensures Journaled(sb, fs, Allocate(sb, fs, b), log, log + AllocWrites(sb, fs, b))
  {
    hide SetBit;
    BitmapInRange(sb, b);
    var ws := AllocWrites(sb, fs, b);
    var fs1 := SetBlock(fs, ws[0].b, ws[0].data);
    JournalOne(sb, fs, ws[0].b, ws[0].data, log);
    JournalOne(sb, fs1, ws[1].b, ws[1].data, log + [ws[0]]);
    JournalTrans(sb, fs, fs1, Allocate(sb, fs, b), log, log + [ws[0]], log + [ws[0]] + [ws[1]]);
    assert log + [ws[0]] + [ws[1]] == log + ws;
  }

  lemma FreeLogged(sb: Super, fs: Fs, b: nat, log: seq<BlockWrite>)
    requires Shape(sb, fs) && b < sb.size && sb.BBlock(b) < |fs.blocks|
    ensures Journaled(sb, fs, Free(sb, fs, b), log, log + FreeWrites(sb, fs, b))
  {
    hide ClearBit;
    BitmapInRange(sb, b);
    JournalOne(sb, fs, sb.BBlock(b), ClearBit(fs.blocks[sb.BBlock(b)], b % BPB), log);
  }

  /** The data area lies past the log and the inodes. */
  lemma DataPastLog(sb: Super, fs: Fs, owner: map<nat, Slot>)
    requires Owned(sb, fs, owner, {}, {})
    ensures sb.inodestart <= sb.datastart
  {
    BitmapInRange(sb, 0);
  }

  lemma BeforeLast(log: seq<BlockWrite>, extra: set<nat>)
    requires log != [] && Numbers(log[..|log| - 1]) <= extra
    ensures forall k :: 0 <= k < |log| ==> |Numbers(log[..k])| <= |extra|
  {
    forall k | 0 <= k < |log| ensures |Numbers(log[..k])| <= |extra| {
      PrefixNumbers(log[..k], log[..|log| - 1]);
      Fewer(Numbers(log[..k]), extra);
    }
  }

  /** A change of the inodes in memory is none of the disk. */
  lemma JournalInode(sb: Super, fs0: Fs, fs1: Fs, fs2: Fs, log0: seq<BlockWrite>, log1: seq<BlockWrite>)
    requires Journaled(sb, fs0, fs1, log0, log1) && fs2.blocks == fs1.blocks
    ensures Journaled(sb, fs0, fs2, log0, log1)
  {
  }

  /** iupdate logs the block it changes. */
  lemma JournalUpdate(sb: Super, fs: Fs, fs': Fs, inum: nat, log: seq<BlockWrite>)
    requires fs'.blocks == fs.blocks && inum < |fs'.inodes| && GoodInode(fs'.inodes[inum])
    requires sb.IBlock(inum) < |fs.blocks|
    ensures Journaled(sb, fs, Updated(sb, fs', inum), log, log + UpdateWrites(sb, fs', inum))
  {
    hide SetWords, InodeWords;
    JournalOne(sb, fs, sb.IBlock(inum), Updated(sb, fs', inum).blocks[sb.IBlock(inum)], log);
  }

  lemma TruncLengths(sb: Super, fs0: Fs, fs: Fs, owner0: map<nat, Slot>, owner: map<nat, Slot>, inum: nat)
    requires Truncating(sb, fs0, fs, owner0, owner, {}, inum)
    ensures inum < |fs.inodes| == |fs0.inodes| && Owned(sb, fs, owner, {}, {})
    ensures InodesKept(fs0.inodes, fs.inodes, inum)
  {
  }

  lemma ShapeOf(sb: Super, fs: Fs, owner: map<nat, Slot>, dead: set<Slot>)
    requires Owned(sb, fs, owner, {}, dead)
    ensures Shape(sb, fs)
  {
  }

  lemma IndirectEntries(sb: Super, fs: Fs, owner: map<nat, Slot>, inum: nat)
    requires Owned(sb, fs, owner, {}, {}) && inum < |fs.inodes| && At(fs, Addr(inum, NDIRECT)) != 0
    ensures At(fs, Addr(inum, NDIRECT)) < |fs.blocks|
    ensures forall j: nat :: j < NINDIRECT ==> At(fs, Entry(inum, j)) == Word(fs.blocks[At(fs, Addr(inum, NDIRECT))], j)
  {
    forall j: nat | j < NINDIRECT ensures At(fs, Entry(inum, j)) == Word(fs.blocks[At(fs, Addr(inum, NDIRECT))], j) {
      IndirectInRange(sb, fs, owner, inum, j);
    }
    IndirectInRange(sb, fs, owner, inum, 0);
  }

  lemma AllEmpty(fs: Fs, inum: nat)
    requires forall k: nat :: k <= NDIRECT ==> At(fs, Addr(inum, k)) == 0
    ensures forall t: Slot :: t.inum == inum ==> At(fs, t) == 0
  {
    NoIndirect(fs, inum);
  }

  lemma SlotsUpdated(sb: Super, fs1: Fs, fs2: Fs, owner: map<nat, Slot>, inum: nat)
    requires Owned(sb, fs2, owner, {}, {}) && inum < |fs1.inodes| == |fs2.inodes|
    requires fs2 == SetSize(fs1, inum, fs2.inodes[inum].size)
    ensures sb.IBlock(inum) < |fs2.blocks| && GoodInode(fs2.inodes[inum])
    ensures forall t :: At(Updated(sb, fs2, inum), t) == At(fs1, t)
  {
    InodeBlock(sb, fs2, owner, inum);
    StoreOwned(sb, fs2, owner, sb.IBlock(inum), Updated(sb, fs2, inum).blocks[sb.IBlock(inum)]);
  }

  predicate OnEdge(at: nat) {
    at % BSIZE == 0
  }

  predicate Fits(at: nat, m: nat) {
    at % BSIZE + m <= BSIZE
  }

  /** How much of n bytes at offset at fits in their first block. */
  function Room(at: nat, n: nat): (m: nat)
    ensures m <= n && (n > 0 ==> m > 0) && Fits(at, m)
    ensures m < n ==> OnEdge(at + m)
  {
    if n < BSIZE - at % BSIZE then n else BSIZE - at % BSIZE
  }

  /** What readi returns of the bytes off .. end of c, and what the user gets, if the first good of them
      can be copied out. */
  predicate CopiedOut(c: seq<Byte>, off: nat, end: nat, good: nat, r: int, dst: seq<Byte>) {
    && off <= end <= |c| && dst == c[off..off + Least(good, end - off)]
    && r == if good < end - off then -1 else end - off
  }

  lemma CopyFails(c: seq<Byte>, off: nat, at: nat, more: seq<Byte>, k: nat, end: nat, good: nat)
    requires off <= at && at + |more| <= end <= |c| && k < |more| && good == at - off + k
    requires c[off..at] + more == c[off..at + |more|]
    ensures CopiedOut(c, off, end, good, -1, c[off..at] + more[..k])
  {
    assert c[off..at] + more[..k] == (c[off..at] + more)[..good];
  }

  lemma CopyEnds(c: seq<Byte>, off: nat, end: nat, good: nat)
    requires off <= end <= |c| && end - off <= good
    ensures CopiedOut(c, off, end, good, end - off, c[off..end])
  {
  }

  /** The data and bitmap blocks a write of n bytes at off may log. */
  predicate Counted(off: nat, n: nat, data: nat, maps: nat) {
    data <= Touched(off, n) && maps <= Touched(off, n) - (if off % BSIZE != 0 && n > 0 then 1 else 0)
  }

  lemma TakeMore(src: seq<Byte>, tot: nat, m: nat)
    requires tot + m <= |src|
    ensures src[..tot] + src[tot..][..m] == src[..tot + m] && src[..tot] + src[tot..][..0] == src[..tot]
  {
  }

  lemma LogMore(log0: set<nat>, log1: set<nat>, log2: set<nat>, data: set<nat>, maps: set<nat>,
                data': set<nat>, maps': set<nat>, ind1: set<nat>, ind2: set<nat>)
    requires log1 <= log0 + data + maps + ind1 && log2 <= log1 + ind2 + data' + maps' && ind1 <= ind2
    ensures log2 <= log0 + (data + data') + (maps + maps') + ind2
    ensures data' == {} && maps' == {} ==> log2 <= log0 + data + maps + ind2
    ensures |data + data'| <= |data| + |data'| && |maps + maps'| <= |maps| + |maps'|
    ensures maps' == {} ==> |maps + maps'| == |maps|
  {
    assert maps' == {} ==> maps + maps' == maps;
  }

  lemma CountNone(off: nat)
    ensures Counted(off, 0, 0, 0)
  {
  }

  lemma CountMore(off: nat, n: nat, n': nat, data: nat, maps: nat)
    requires n <= n' && Counted(off, n, data, maps)
    ensures Counted(off, n', data, maps)
  {
    TouchedGrows(off, n, n');
  }

  lemma CountStep(off: nat, tot: nat, m: nat, data: nat, maps: nat, data': nat, maps': nat)
    requires m > 0 && Fits(off + tot, m) && (tot == 0 || OnEdge(off + tot))
    requires Counted(off, tot, data, maps) && data' <= data + 1 && maps' <= maps + 1
    requires tot == 0 && !OnEdge(off) ==> maps' == maps
    ensures Counted(off, tot + m, data', maps')
  {
    TouchedStep(off, tot, m);
  }

  /** Byte off is inside a block that a file of size off or more has, unless it starts one. */
  lemma FirstBlock(sb: Super, fs0: Fs, fs: Fs, owner: map<nat, Slot>, inum: nat, off: nat, bytes: seq<Byte>)
    requires Writing(sb, fs0, fs, owner, inum, off, bytes)
    ensures !OnEdge(off) ==> FileBlock(fs, inum, off / BSIZE) != 0
  {
    hide At, Owned, Spliced, OthersKept;
    assert off / BSIZE * BSIZE <= off;
  }

  /** What writei's loop has logged after tot bytes: data blocks, bitmap blocks, the indirect block's. */
  ghost predicate Tallied(sb: Super, fs: Fs, inum: nat, log0: set<nat>, log: set<nat>, off: nat, tot: nat,
                          data: set<nat>, maps: set<nat>)
  {
    log <= log0 + data + maps + IndirectBlocks(sb, fs, inum) && Counted(off, tot, |data|, |maps|)
  }

  lemma TalliedNone(sb: Super, fs: Fs, inum: nat, log: set<nat>, off: nat)
    ensures Tallied(sb, fs, inum, log, log, off, 0, {}, {})
  {
    CountNone(off);
  }

  lemma TalliedMore(sb: Super, fs1: Fs, fs2: Fs, inum: nat, log0: set<nat>, log1: set<nat>, log2: set<nat>,
                    off: nat, tot: nat, m: nat, n: nat,
                    data: set<nat>, maps: set<nat>, data': set<nat>, maps': set<nat>)
    requires Tallied(sb, fs1, inum, log0, log1, off, tot, data, maps) && tot + m <= n
    requires log2 <= log1 + IndirectBlocks(sb, fs2, inum) + data' + maps'
    requires IndirectBlocks(sb, fs1, inum) <= IndirectBlocks(sb, fs2, inum)
    requires |data'| <= 1 && |maps'| <= 1 && (m == 0 ==> data' == {} && maps' == {})
    requires m != 0 ==> m == Room(off + tot, n - tot) && (tot == 0 || OnEdge(off + tot))
    requires tot == 0 && !OnEdge(off) ==> maps' == {}
    ensures Tallied(sb, fs2, inum, log0, log2, off, if m == 0 then n else tot + m, data + data', maps + maps')
  {
    hide IndirectBlocks, Counted, OnEdge, Room;
    LogMore(log0, log1, log2, data, maps, data', maps', IndirectBlocks(sb, fs1, inum), IndirectBlocks(sb, fs2, inum));
    if m == 0 {
      CountMore(off, tot, n, |data|, |maps|);
      assert data + data' == data && maps + maps' == maps;
    } else {
      CountStep(off, tot, m, |data|, |maps|, |data + data'|, |maps + maps'|);
    }
  }

  /** How many bytes writei has tried when it has written r of n. */
  function Tried(r: int, n: nat): nat {
    if r < 0 then 0 else if r < n then r + 1 else n
  }

  /** What writei's loop has logged and filled: tallied for the first tally bytes, with slots filled for
      those tried, and done of them written. */
  ghost predicate Logging(sb: Super, fs0: Fs, fs: Fs, log0: seq<BlockWrite>, log: seq<BlockWrite>, inum: nat,
                          off: nat, tally: nat, tried: nat, done: nat, data: set<nat>, maps: set<nat>)
  {
    && Tallied(sb, fs, inum, Numbers(log0), Numbers(log), off, tally, data, maps)
    && Extends(sb, fs0, fs, log0, log, inum) && FilledWithin(fs0, fs, inum, off, tried)
    && WritesOnly(sb, fs0, fs, log0, log, inum, off, done)
  }

  lemma LoggingNone(sb: Super, fs: Fs, log: seq<BlockWrite>, inum: nat, off: nat)
    ensures Logging(sb, fs, fs, log, log, inum, off, 0, 0, 0, {}, {})
  {
    hide At, Tallied, Extends;
    ExtendsRefl(sb, fs, log, inum);
    TalliedNone(sb, fs, inum, Numbers(log), off);
  }

  lemma LoggingMore(sb: Super, fs0: Fs, fs1: Fs, fs2: Fs, log0: seq<BlockWrite>, log1: seq<BlockWrite>,
                    log2: seq<BlockWrite>, inum: nat, off: nat, n: nat, tot: nat, step: nat, m: nat,
                    data: set<nat>, maps: set<nat>, data': set<nat>, maps': set<nat>)
    requires 0 < sb.datastart
    requires Logging(sb, fs0, fs1, log0, log1, inum, off, tot, tot, tot, data, maps) && tot + step <= n && tot < n
    requires Extends(sb, fs1, fs2, log1, log2, inum) && FilledWithin(fs1, fs2, inum, off + tot, 1)
    requires WritesOnly(sb, fs1, fs2, log1, log2, inum, off + tot, m) && (m == 0 || m == step)
    requires Numbers(log2) <= Numbers(log1) + IndirectBlocks(sb, fs2, inum) + data' + maps'
    requires IndirectBlocks(sb, fs1, inum) <= IndirectBlocks(sb, fs2, inum)
    requires |data'| <= 1 && |maps'| <= 1 && (step == 0 ==> data' == {} && maps' == {})
    requires step != 0 ==> step == Room(off + tot, n - tot) && (tot == 0 || OnEdge(off + tot))
    requires tot == 0 && !OnEdge(off) ==> maps' == {}
    ensures m != 0 ==>
              Logging(sb, fs0, fs2, log0, log2, inum, off, tot + m, tot + m, tot + m, data + data', maps + maps')
    ensures m != 0 && tot + m == n ==> Logging(sb, fs0, fs2, log0, log2, inum, off, n, n, n, data + data', maps + maps')
    ensures m == 0 ==> Logging(sb, fs0, fs2, log0, log2, inum, off, n, tot + 1, tot, data + data', maps + maps')
  {
    hide Tallied, Extends, FilledWithin, IndirectBlocks, Room, OnEdge, WritesOnly;
    ExtendsTrans(sb, fs0, fs1, fs2, log0, log1, log2, inum);
    FilledWider(fs0, fs1, inum, off, tot, tot + 1);
    FilledPart(fs0, fs1, fs2, inum, off, tot + 1, off + tot, 1);
    WritesTrans(sb, fs0, fs1, fs2, log0, log1, log2, inum, off, tot, m, tot + 1);
    TalliedMore(sb, fs1, fs2, inum, Numbers(log0), Numbers(log1), Numbers(log2), off, tot, step, n,
                data, maps, data', maps');
    if m != 0 {
      FilledWider(fs0, fs2, inum, off, tot + 1, tot + m);
    } else if step != 0 {
      TalliedAll(sb, fs2, inum, Numbers(log0), Numbers(log2), off, tot + step, n, data + data', maps + maps');
    }
  }

  // ----- which blocks a write lists -----

  /** The blocks newly listed: metadata, the indirect block, blocks that were attached since, and those
      of the n bytes at off. */
  ghost predicate WritesOnly(sb: Super, fs0: Fs, fs: Fs, log0: seq<BlockWrite>, log: seq<BlockWrite>, inum: nat,
                             off: nat, n: nat)
  {
    forall b :: b in Numbers(log) && b !in Numbers(log0) && b >= sb.datastart ==> ListedFor(fs0, fs, inum, off, n, b)
  }

  ghost predicate ListedFor(fs0: Fs, fs: Fs, inum: nat, off: nat, n: nat, b: nat) {
    exists t: Slot :: At(fs, t) == b && t.inum == inum
                      && (t == Addr(inum, NDIRECT) || At(fs0, t) == 0 || Wanted(inum, off, n, t))
  }

  lemma WritesTrans(sb: Super, fs0: Fs, fs1: Fs, fs2: Fs, log0: seq<BlockWrite>, log1: seq<BlockWrite>,
                    log2: seq<BlockWrite>, inum: nat, off: nat, tot: nat, m: nat, tried: nat)
    requires WritesOnly(sb, fs0, fs1, log0, log1, inum, off, tot)
    requires WritesOnly(sb, fs1, fs2, log1, log2, inum, off + tot, m)
    requires FilledWithin(fs0, fs1, inum, off, tried) && Extends(sb, fs1, fs2, log1, log2, inum) && 0 < sb.datastart
    ensures WritesOnly(sb, fs0, fs2, log0, log2, inum, off, tot + m)
  {
    hide At, Numbers, Used, Journaled;
    forall b | b in Numbers(log2) && b !in Numbers(log0) && b >= sb.datastart
      ensures ListedFor(fs0, fs2, inum, off, tot + m, b)
    {
      if b in Numbers(log1) {
        var t: Slot :| At(fs1, t) == b && t.inum == inum
                       && (t == Addr(inum, NDIRECT) || At(fs0, t) == 0 || Wanted(inum, off, tot, t));
        assert At(fs2, t) == b;
      } else {
        var t: Slot :| At(fs2, t) == b && t.inum == inum
                       && (t == Addr(inum, NDIRECT) || At(fs1, t) == 0 || Wanted(inum, off + tot, m, t));
        assert At(fs1, t) == 0 ==> At(fs0, t) == 0;
      }
    }
  }

  /** What bmap lists: maps, the indirect block, and the block it attached. */
  lemma WritesBmap(sb: Super, fs: Fs, fs': Fs, owner: map<nat, Slot>, log0: seq<BlockWrite>, log: seq<BlockWrite>,
                   inum: nat, at: nat, addr: nat)
    requires Owned(sb, fs', owner, {}, {}) && addr == FileBlock(fs', inum, at / BSIZE)
    requires FileBlock(fs, inum, at / BSIZE) != 0 ==> log == log0
    requires Numbers(log) <= Numbers(log0) + IndirectBlocks(sb, fs', inum) + {sb.BBlock(addr), addr}
    ensures WritesOnly(sb, fs, fs', log0, log, inum, at, 0)
  {
    hide At, Numbers, Used;
    MapOf(sb, fs', owner, addr, SlotOf(inum, at / BSIZE));
    MapOf(sb, fs', owner, At(fs', Addr(inum, NDIRECT)), Addr(inum, NDIRECT));
  }

  /** The map block of a block that is held, or of none, is below the data. */
  lemma MapOf(sb: Super, fs: Fs, owner: map<nat, Slot>, b: nat, t: Slot)
    requires Owned(sb, fs, owner, {}, {}) && b == At(fs, t)
    ensures sb.BBlock(b) < sb.datastart && 0 < sb.datastart
  {
    if b != 0 {
      assert IsSlot(sb, t);
      assert Holds(sb, fs, owner[b], b);
    }
    BitmapInRange(sb, b);
  }

  lemma WritesStore(sb: Super, fs0: Fs, fs1: Fs, fs2: Fs, log0: seq<BlockWrite>, log1: seq<BlockWrite>, inum: nat,
                    at: nat, m: nat, data: Block)
    requires WritesOnly(sb, fs0, fs1, log0, log1, inum, at, 0) && m > 0 && at / BSIZE < MAXFILE
    requires forall t :: At(fs2, t) == At(fs1, t)
    ensures WritesOnly(sb, fs0, fs2, log0, log1 + [BlockWrite(FileBlock(fs1, inum, at / BSIZE), data)], inum, at, m)
  {
    hide At;
    NumbersPlus(log1, [BlockWrite(FileBlock(fs1, inum, at / BSIZE), data)]);
    NumbersOne(BlockWrite(FileBlock(fs1, inum, at / BSIZE), data));
    BlockWanted(inum, at, m, at);
    hide Numbers;
  }

  /** The inode's block is none of the data. */
  lemma WritesInode(sb: Super, fs0: Fs, fs1: Fs, fs2: Fs, owner: map<nat, Slot>, log0: seq<BlockWrite>,
                    log1: seq<BlockWrite>, log2: seq<BlockWrite>, inum: nat, off: nat, n: nat)
    requires WritesOnly(sb, fs0, fs1, log0, log1, inum, off, n) && forall t :: At(fs2, t) == At(fs1, t)
    requires Owned(sb, fs2, owner, {}, {}) && inum < |fs2.inodes|
    requires Numbers(log2) == Numbers(log1) + {sb.IBlock(inum)}
    ensures WritesOnly(sb, fs0, fs2, log0, log2, inum, off, n)
  {
    hide At, Numbers, Used;
    InodeBlock(sb, fs2, owner, inum);
  }

  /** The end of writei: the inode's block is logged too. */
  lemma LoggingEnds(sb: Super, fs0: Fs, fs1: Fs, fs2: Fs, owner: map<nat, Slot>, log0: seq<BlockWrite>,
                    log1: seq<BlockWrite>, log2: seq<BlockWrite>, inum: nat, off: nat, n: nat, tot: nat,
                    data: set<nat>, maps: set<nat>)
    returns (extra: set<nat>)
    requires Logging(sb, fs0, fs1, log0, log1, inum, off, n, Tried(tot, n), tot, data, maps)
    requires Extends(sb, fs1, fs2, log1, log2, inum) && forall t :: At(fs2, t) == At(fs1, t)
    requires Sound(sb, fs2, owner) && inum < |fs2.inodes| && Numbers(log2) == Numbers(log1) + {sb.IBlock(inum)}
    ensures Extends(sb, fs0, fs2, log0, log2, inum) && FilledWithin(fs0, fs2, inum, off, Tried(tot, n))
    ensures WritesOnly(sb, fs0, fs2, log0, log2, inum, off, tot) && InodesKept(fs0.inodes, fs2.inodes, inum)
    ensures Numbers(log1) <= Numbers(log0) + extra
    ensures |extra| <= 2 * Touched(off, n) + 2 - (if off % BSIZE != 0 && n > 0 then 1 else 0)
  {
    hide At, Extends, FilledWithin, IndirectBlocks, WritesOnly, Owned, AllSynced, AllFilled;
    ExtendsTrans(sb, fs0, fs1, fs2, log0, log1, log2, inum);
    ExtendsInodes(sb, fs0, fs2, log0, log2, inum);
    FilledSame(fs0, fs1, fs2, inum, off, Tried(tot, n));
    WritesInode(sb, fs0, fs1, fs2, owner, log0, log1, log2, inum, off, tot);
    IndirectSize(sb, fs1, inum);
    extra := data + maps + IndirectBlocks(sb, fs1, inum);
  }

  lemma TalliedAll(sb: Super, fs: Fs, inum: nat, log0: set<nat>, log: set<nat>, off: nat, tot: nat, n: nat,
                   data: set<nat>, maps: set<nat>)
    requires Tallied(sb, fs, inum, log0, log, off, tot, data, maps) && tot <= n
    ensures Tallied(sb, fs, inum, log0, log, off, n, data, maps)
  {
    hide IndirectBlocks, Counted;
    CountMore(off, tot, n, |data|, |maps|);
  }

  lemma IndirectSize(sb: Super, fs: Fs, inum: nat)
    ensures |IndirectBlocks(sb, fs, inum)| <= 2
  {
  }

  /** iupdate at the end of a call: everything holds again. */
  lemma UpdateEnds(sb: Super, fs: Fs, owner: map<nat, Slot>, inum: nat)
    requires Owned(sb, fs, owner, {}, {}) && AllFilled(fs) && inum < |fs.inodes|
    requires GoodInode(fs.inodes[inum]) && sb.IBlock(inum) < |fs.blocks|
    requires forall o: nat :: o < |fs.inodes| && o != inum ==> Synced(sb, fs, o)
    ensures Owned(sb, Updated(sb, fs, inum), owner, {}, {}) && AllFilled(Updated(sb, fs, inum))
    ensures AllSynced(sb, Updated(sb, fs, inum))
    ensures forall o: nat :: o < |fs.inodes| ==> Content(Updated(sb, fs, inum), o) == Content(fs, o)
    ensures Full(sb, fs) ==> Full(sb, Updated(sb, fs, inum))
  {
    hide At, Used, Synced, Content, NoHoles;
    var fs' := Updated(sb, fs, inum);
    InodeBlock(sb, fs, owner, inum);
    StoreOwned(sb, fs, owner, sb.IBlock(inum), fs'.blocks[sb.IBlock(inum)]);
    BitmapUntouched(sb, fs, fs', sb.IBlock(inum));
    forall o: nat | o < |fs.inodes|
      ensures Synced(sb, fs', o) && Content(fs', o) == Content(fs, o) && NoHoles(fs', o, fs'.inodes[o].size)
    {
      UpdateSyncs(sb, fs, inum, o);
      assert GoodInode(fs.inodes[o]) && NoHoles(fs, o, fs.inodes[o].size);
      KeptButOne(sb, fs, fs', owner, {}, sb.IBlock(inum), o);
      SameContent(fs, fs', o);
    }
  }

  lemma InodeBlock(sb: Super, fs: Fs, owner: map<nat, Slot>, inum: nat)
    requires Owned(sb, fs, owner, {}, {}) && inum < |fs.inodes|
    ensures 0 < sb.IBlock(inum) < sb.bmapstart <= sb.datastart && sb.IBlock(inum) !in owner
  {
    assert sb.IBlock(inum) in owner ==> Holds(sb, fs, owner[sb.IBlock(inum)], sb.IBlock(inum));
  }

  /** The next bytes of a file are those of one of its blocks. */
  lemma ReadMore(sb: Super, fs: Fs, owner: map<nat, Slot>, inum: nat, off: nat, at: nat, m: nat)
    requires Owned(sb, fs, owner, {}, {}) && AllFilled(fs) && inum < |fs.inodes| && at % BSIZE + m <= BSIZE && m > 0
    requires off <= at && at + m <= fs.inodes[inum].size <= MAXSIZE
    ensures at / BSIZE < MAXFILE && 0 < FileBlock(fs, inum, at / BSIZE) < |fs.blocks|
    ensures at + m <= |Content(fs, inum)|
    ensures Content(fs, inum)[off..at] + fs.blocks[FileBlock(fs, inum, at / BSIZE)][at % BSIZE..at % BSIZE + m]
            == Content(fs, inum)[off..at + m]
  {
    hide At, Used;
    assert NoHoles(fs, inum, fs.inodes[inum].size) && at / BSIZE * BSIZE < fs.inodes[inum].size;
    FileBlockIs(sb, fs, owner, inum, at / BSIZE);
    var data := fs.blocks[FileBlock(fs, inum, at / BSIZE)];
    forall i: nat | at <= i < at + m ensures Content(fs, inum)[i] == data[at % BSIZE + (i - at)] {
      assert i / BSIZE == at / BSIZE && i % BSIZE == at % BSIZE + (i - at);
    }
    assert data[at % BSIZE..at % BSIZE + m] == Content(fs, inum)[at..at + m];
  }

  lemma WritingParts(sb: Super, fs0: Fs, fs: Fs, owner: map<nat, Slot>, inum: nat, off: nat, bytes: seq<Byte>)
    requires Writing(sb, fs0, fs, owner, inum, off, bytes)
    ensures Owned(sb, fs, owner, {}, {}) && inum < |fs.inodes| == |fs0.inodes| && |fs.blocks| == |fs0.blocks|
    ensures |fs.inodes| == sb.ninodes && SameMeta(fs0.inodes[inum], fs.inodes[inum])
    ensures off <= fs0.inodes[inum].size && 0 < sb.datastart
  {
  }

  /** The indirect block of an inode and its bitmap block. */
  function IndirectBlocks(sb: Super, fs: Fs, inum: nat): set<nat> {
    if At(fs, Addr(inum, NDIRECT)) == 0 then {}
    else {At(fs, Addr(inum, NDIRECT)), sb.BBlock(At(fs, Addr(inum, NDIRECT)))}
  }

  lemma NoIndirect(fs: Fs, inum: nat)
    requires At(fs, Addr(inum, NDIRECT)) == 0
    ensures forall j: nat :: At(fs, Entry(inum, j)) == 0
  {
  }

  lemma IndirectInRange(sb: Super, fs: Fs, owner: map<nat, Slot>, inum: nat, j: nat)
    requires Owned(sb, fs, owner, {}, {}) && inum < |fs.inodes| && j < NINDIRECT && At(fs, Addr(inum, NDIRECT)) != 0
    ensures At(fs, Addr(inum, NDIRECT)) < |fs.blocks|
    ensures At(fs, Entry(inum, j)) == Word(fs.blocks[At(fs, Addr(inum, NDIRECT))], j)
  {
    assert IsSlot(sb, Addr(inum, NDIRECT)) && GoodInode(fs.inodes[inum]);
    assert Holds(sb, fs, owner[At(fs, Addr(inum, NDIRECT))], At(fs, Addr(inum, NDIRECT)));
  }

  lemma FullSame(sb: Super, fs: Fs, fs': Fs)
    requires fs'.blocks == fs.blocks
    ensures Full(sb, fs) ==> Full(sb, fs')
  {
    forall b: nat ensures Used(sb, fs', b) == Used(sb, fs, b) {
    }
  }

  lemma SuperOf(sb: Super, fs: Fs, owner: map<nat, Slot>)
    requires Owned(sb, fs, owner, {}, {})
    ensures sb.Good() && |fs.blocks| == sb.size && |fs.inodes| == sb.ninodes && 0 !in owner && Used(sb, fs, 0)
  {
  }

  lemma UsedIs(sb: Super, fs: Fs, b: nat, bi: nat)
    requires b % BPB == 0 && bi < BPB && sb.BBlock(b) < |fs.blocks|
    ensures sb.BBlock(b + bi) == sb.BBlock(b) && (b + bi) % BPB == bi
    ensures Used(sb, fs, b + bi) == TestBit(fs.blocks[sb.BBlock(b)], bi)
  {
  }

  /** What the scan of one map block says about blocks. */
  lemma ScannedUsed(sb: Super, fs: Fs, b: nat, bi: nat)
    requires b % BPB == 0 && bi <= BPB && sb.BBlock(b) < |fs.blocks|
    requires forall k: nat :: k < bi ==> TestBit(fs.blocks[sb.BBlock(b)], k)
    ensures forall x: nat :: b <= x < b + bi ==> Used(sb, fs, x)
    ensures bi < BPB ==> sb.BBlock(b + bi) == sb.BBlock(b) && (b + bi) % BPB == bi
    ensures bi < BPB ==> Used(sb, fs, b + bi) == TestBit(fs.blocks[sb.BBlock(b)], bi)
  {
    hide TestBit;
    forall x: nat | b <= x < b + bi ensures Used(sb, fs, x) {
      UsedIs(sb, fs, b, x - b);
    }
    if bi < BPB {
      UsedIs(sb, fs, b, bi);
    }
  }

  lemma FreeIsData(sb: Super, fs: Fs, owner: map<nat, Slot>, b: nat)
    requires Owned(sb, fs, owner, {}, {}) && b < sb.size && !Used(sb, fs, b)
    ensures sb.datastart <= b && b != 0
  {
  }

  lemma OwnedInode(sb: Super, fs: Fs, owner: map<nat, Slot>, inum: nat)
    requires Owned(sb, fs, owner, {}, {}) && inum < |fs.inodes|
    ensures |fs.inodes| == sb.ninodes && |fs.blocks| == sb.size < WORD_LIMIT && GoodInode(fs.inodes[inum])
    ensures Shape(sb, fs)
    ensures forall k: nat :: k <= NDIRECT ==> At(fs, Addr(inum, k)) == fs.inodes[inum].addrs[k]
  {
  }

  lemma GrownLengths(sb: Super, fs: Fs, fs': Fs, inum: nat)
    requires Grown(sb, fs, fs', inum)
    ensures |fs'.blocks| == |fs.blocks| && inum < |fs'.inodes| == |fs.inodes|
    ensures SameMeta(fs.inodes[inum], fs'.inodes[inum])
  {
  }

  lemma GrownRefl(sb: Super, fs: Fs, inum: nat)
    requires inum < |fs.inodes|
    ensures Grown(sb, fs, fs, inum)
  {
    hide At;
  }
}
