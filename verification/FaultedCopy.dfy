/** What becomes of a transaction of filewrite whose copy from the user fails in the middle of a block.
    The bytes copied before the fault are in the cache; log_write only lists block numbers, and commit
    copies what the cache holds by then, so they last exactly if their block is on the list. */
module FaultedCopy {
  import opened Blocks
  import opened ByteArrays
  import opened FileState
  import opened FileContent
  import opened FileSpace
  import opened Journal
  import FS = FileSystem

  /** What a commit makes of the disk: the blocks on the list as the cache has them by then. */
  function Committed(disk: seq<Block>, cached: seq<Block>, listed: set<nat>): (r: seq<Block>)
    requires |disk| == |cached|
    ensures |r| == |disk|
  {
    seq(|disk|, b requires 0 <= b < |disk| => if b in listed then cached[b] else disk[b])
  }

  /** The bytes of the rounds before the one that copies byte `good` of a source written at off. */
  function RoundStart(off: nat, good: nat): nat {
    if (off + good) / BSIZE == off / BSIZE then 0 else good - (off + good) % BSIZE
  }

  /** Known before the call: writei gets to a copy that fails, since there are blocks enough for the
      rounds before it and for its own. */
  ghost predicate Faults(sb: Super, fs: Fs, inum: nat, off: nat, src: seq<Byte>, good: nat)
    requires inum < |fs.inodes|
  {
    && off <= fs.inodes[inum].size && off + |src| <= MAXSIZE && good < |src|
    && |Missing(fs, inum, off, RoundStart(off, good) + 1)| <= |FreeBlocks(sb, fs)|
  }

  /** ... after a part of its round, in a block that the file has and that is not on the list, and the
      bytes copied differ from those there. */
  ghost predicate Lost(sb: Super, fs: Fs, listed: set<nat>, inum: nat, off: nat, src: seq<Byte>, good: nat)
    requires inum < |fs.inodes|
  {
    var start := RoundStart(off, good);
    var b := FileBlock(fs, inum, (off + start) / BSIZE);
    && Faults(sb, fs, inum, off, src, good) && start < good
    && 0 < b < |fs.blocks| && b !in listed
    && BytesAt(fs.blocks[b], (off + start) % BSIZE, good - start) != src[start..good]
  }

  function BytesAt(data: Block, at: nat, n: nat): seq<Byte> {
    if at + n <= BSIZE then data[at..at + n] else []
  }

  // ----- where the copy fails -----

  /** The round that meets the fault starts where RoundStart says. */
  lemma StartIs(off: nat, good: nat, n: nat)
    requires good < n
    ensures var start := RoundStart(off, good);
            && start <= good < start + FS.Room(off + start, n - start)
            && (start == 0 || FS.OnEdge(off + start)) && (off + start) % BSIZE + (good - start) <= BSIZE
  {
  }

  lemma StartsBefore(off: nat, good: nat, r: nat)
    requires r <= good && (r == 0 || FS.OnEdge(off + r))
    ensures r <= RoundStart(off, good)
  {
  }

  lemma StartUnique(off: nat, good: nat, n: nat, r: nat)
    requires r < n && r <= good < r + FS.Room(off + r, n - r) && (r == 0 || FS.OnEdge(off + r))
    ensures r == RoundStart(off, good)
  {
  }

  /** What Transaction ensures of a call that the size limits let through. */
  ghost predicate Done(sb: Super, fs0: Fs, owner0: map<nat, Slot>, clean: Fs, owner: map<nat, Slot>,
                       log: seq<BlockWrite>, inum: nat, off: nat, src: seq<Byte>, good: nat, r: nat, stray: seq<Byte>)
  {
    && FS.Sound(sb, fs0, owner0) && FS.Sound(sb, clean, owner) && inum < |fs0.inodes| == |clean.inodes|
    && off <= |Content(fs0, inum)| && off + |src| <= MAXSIZE && r <= |src|
    && Content(clean, inum) == Splice(Content(fs0, inum), off, src[..r])
    && FS.EndsAs(sb, clean, inum, off, src, good, r, stray)
    && FilledWithin(fs0, clean, inum, off, FS.Tried(r, |src|))
    && FS.WritesOnly(sb, fs0, clean, [], log, inum, off, r) && FS.Extends(sb, fs0, clean, [], log, inum)
  }

  lemma KeptSlots(fs0: Fs, fs: Fs, inum: nat, off: nat, n: nat)
    requires FilledWithin(fs0, fs, inum, off, n)
    ensures forall t :: At(fs0, t) != 0 ==> At(fs, t) == At(fs0, t)
  {
    hide At;
  }

  lemma NoneMissingTo(fs: Fs, inum: nat, off: nat, n: nat)
    requires NoHoles(fs, inum, off + n) && FileBlock(fs, inum, (off + n) / BSIZE) != 0
    ensures Missing(fs, inum, off, n + 1) == {}
  {
    hide At;
    var last := (off + n) / BSIZE;
    if last >= NDIRECT && At(fs, Addr(inum, NDIRECT)) == 0 {
      FS.NoIndirect(fs, inum);
      assert false;
    }
    forall t | t in Slots(inum) && Wanted(inum, off, n + 1, t) ensures At(fs, t) != 0 {
      if t.Entry? {
        assert FileBlock(fs, inum, NDIRECT + t.j) != 0;
      } else if t.k < NDIRECT {
        assert FileBlock(fs, inum, t.k) != 0;
      }
    }
  }

  /** A faulting copy had blocks enough. */
  lemma HadEnough(sb: Super, fs0: Fs, owner0: map<nat, Slot>, clean: Fs, owner: map<nat, Slot>, log: seq<BlockWrite>,
                  inum: nat, off: nat, src: seq<Byte>, good: nat, r: nat, stray: seq<Byte>)
    requires Done(sb, fs0, owner0, clean, owner, log, inum, off, src, good, r, stray)
    requires FileBlock(clean, inum, (off + r) / BSIZE) != 0
    ensures |Missing(fs0, inum, off, r + 1)| <= |FreeBlocks(sb, fs0)|
  {
    hide At, Used, AllSynced, FS.EndsAs, FS.WritesOnly, FS.Extends, FilledWithin, Slots, Wanted, ByteAt, Splice;
    FS.LongEnough(clean, fs0, inum, off, src[..r]);
    assert NoHoles(clean, inum, clean.inodes[inum].size);
    NoneMissingTo(clean, inum, off, r);
    KeptSlots(fs0, clean, inum, off, FS.Tried(r, |src|));
    assert forall t :: t in Missing(fs0, inum, off, r + 1) && At(clean, t) == 0 ==>
             t in Missing(clean, inum, off, r + 1);
    AllThere(sb, fs0, clean, owner0, owner, inum, off, r + 1);
  }

  /** With blocks enough the faulting copy is reached. */
  lemma IsReached(sb: Super, fs0: Fs, owner0: map<nat, Slot>, clean: Fs, owner: map<nat, Slot>, log: seq<BlockWrite>,
                  inum: nat, off: nat, src: seq<Byte>, good: nat, r: nat, stray: seq<Byte>)
    requires Done(sb, fs0, owner0, clean, owner, log, inum, off, src, good, r, stray) && good < |src|
    requires |Missing(fs0, inum, off, RoundStart(off, good) + 1)| <= |FreeBlocks(sb, fs0)|
    ensures r == RoundStart(off, good) && r <= good && stray == src[r..good]
    ensures FileBlock(clean, inum, (off + r) / BSIZE) != 0
  {
    hide At, Used, AllSynced, AllFilled, FS.WritesOnly, FS.Extends, FilledWithin, Slots, FreeBlocks, ByteAt, Splice,
      Full, Wanted, RoundStart, FS.Room, FS.OnEdge;
    var start := RoundStart(off, good);
    KeptSlots(fs0, clean, inum, off, FS.Tried(r, |src|));
    StartsBefore(off, good, r);
    if FileBlock(clean, inum, (off + r) / BSIZE) != 0 {
      StartUnique(off, good, |src|, r);
    } else {
      StartIs(off, good, |src|);
      FilledWider(fs0, clean, inum, off, r + 1, start + 1);
      BlockWanted(inum, off, start + 1, off + r);
      OneEmpty(sb, fs0, clean, owner0, owner, inum, off, start + 1, SlotOf(inum, (off + r) / BSIZE));
    }
  }

  // ----- the list -----

  /** A block that the file had, and that no round has written, is not listed by the call. */
  lemma NotListed(sb: Super, fs0: Fs, owner0: map<nat, Slot>, clean: Fs, owner: map<nat, Slot>, log: seq<BlockWrite>,
                  inum: nat, off: nat, src: seq<Byte>, good: nat, r: nat, stray: seq<Byte>)
    requires Done(sb, fs0, owner0, clean, owner, log, inum, off, src, good, r, stray) && r < |src|
    requires FileBlock(fs0, inum, (off + r) / BSIZE) != 0
    ensures sb.datastart <= FileBlock(fs0, inum, (off + r) / BSIZE) < |fs0.blocks|
    ensures FileBlock(clean, inum, (off + r) / BSIZE) == FileBlock(fs0, inum, (off + r) / BSIZE)
    ensures FileBlock(fs0, inum, (off + r) / BSIZE) !in Numbers(log)
  {
    hide At, Used, AllSynced, AllFilled, FS.Extends, FilledWithin, Numbers, ByteAt, Splice, FreeBlocks, Full, FS.Room;
    var bn := (off + r) / BSIZE;
    var b := FileBlock(fs0, inum, bn);
    KeptSlots(fs0, clean, inum, off, FS.Tried(r, |src|));
    FileBlockIs(sb, fs0, owner0, inum, bn);
    FileBlockIs(sb, clean, owner, inum, bn);
    EmptyLog();
    if b in Numbers(log) {
      var t: Slot :| At(clean, t) == b && t.inum == inum
                     && (t == Addr(inum, NDIRECT) || At(fs0, t) == 0 || Wanted(inum, off, r, t));
      HeldBy(sb, clean, owner, t);
      NotYetWanted(inum, off, r);
      assert false;
    }
  }

  lemma EmptyLog()
    ensures Numbers([]) == {}
  {
  }

  lemma HeldBy(sb: Super, fs: Fs, owner: map<nat, Slot>, t: Slot)
    requires Owned(sb, fs, owner, {}, {}) && At(fs, t) != 0
    ensures At(fs, t) in owner && owner[At(fs, t)] == t
  {
    assert IsSlot(sb, t);
  }

  lemma NotYetWanted(inum: nat, off: nat, r: nat)
    requires r == 0 || FS.OnEdge(off + r)
    ensures !Wanted(inum, off, r, SlotOf(inum, (off + r) / BSIZE))
    ensures SlotOf(inum, (off + r) / BSIZE) != Addr(inum, NDIRECT)
  {
  }

  /** A block that the call allocated is listed. */
  lemma IsListed(sb: Super, fs0: Fs, owner0: map<nat, Slot>, clean: Fs, owner: map<nat, Slot>, log: seq<BlockWrite>,
                 inum: nat, off: nat, src: seq<Byte>, good: nat, r: nat, stray: seq<Byte>)
    requires Done(sb, fs0, owner0, clean, owner, log, inum, off, src, good, r, stray) && r < |src|
    requires FileBlock(fs0, inum, (off + r) / BSIZE) == 0 != FileBlock(clean, inum, (off + r) / BSIZE)
    ensures FileBlock(clean, inum, (off + r) / BSIZE) in Numbers(log)
  {
    hide At, Used, AllSynced, AllFilled, FS.WritesOnly, FilledWithin, Numbers, ByteAt, Splice, Full, FS.EndsAs,
      FS.Journaled;
    var bn := (off + r) / BSIZE;
    FileBlockIs(sb, clean, owner, inum, bn);
    KeptSlots(fs0, clean, inum, off, FS.Tried(r, |src|));
    WasFree(sb, fs0, clean, owner0, owner, SlotOf(inum, bn));
  }

  // ----- what is committed -----

  /** All that the call did but for stray bytes is committed. */
  lemma CleanCommitted(sb: Super, fs0: Fs, clean: Fs, log: seq<BlockWrite>, disk: seq<Block>, listed: set<nat>)
    requires FS.Journaled(sb, fs0, clean, [], log) && |disk| == |fs0.blocks|
    requires forall b: nat :: b < |disk| && b !in listed ==> disk[b] == fs0.blocks[b]
    ensures |clean.blocks| == |disk|
    ensures forall b: nat :: b < |disk| && b !in listed + Numbers(log) ==> disk[b] == clean.blocks[b]
  {
    hide Numbers, FS.Journaled;
    forall b: nat | b < |disk|
      ensures |clean.blocks| == |disk| && (b !in listed + Numbers(log) ==> disk[b] == clean.blocks[b])
    {
      FS.Unlogged(sb, fs0, clean, log, b);
    }
    FS.Journals(sb, fs0, clean, [], log);
  }

  lemma StrayCommitted(clean: Fs, fs: Fs, inum: nat, at: nat, stray: seq<Byte>, disk: seq<Block>, listed: set<nat>)
    requires FS.StrayOf(clean, fs, inum, at, stray) && |disk| == |clean.blocks|
    requires forall b: nat :: b < |disk| && b !in listed ==> disk[b] == clean.blocks[b]
    ensures |fs.blocks| == |disk|
    ensures Committed(disk, fs.blocks, listed) ==
            if stray != [] && FileBlock(clean, inum, at / BSIZE) !in listed then clean.blocks else fs.blocks
  {
    hide At, Overlay;
  }

  /** The stray bytes change the cache exactly if they differ from those that were there. */
  lemma StrayDiffers(clean: Fs, fs: Fs, inum: nat, at: nat, stray: seq<Byte>)
    requires FS.StrayOf(clean, fs, inum, at, stray) && stray != []
    ensures 0 < FileBlock(clean, inum, at / BSIZE) < |clean.blocks| && at % BSIZE + |stray| <= BSIZE
    ensures fs.blocks == clean.blocks <==>
              BytesAt(clean.blocks[FileBlock(clean, inum, at / BSIZE)], at % BSIZE, |stray|) == stray
  {
    hide At;
    var b := FileBlock(clean, inum, at / BSIZE);
    var data := clean.blocks[b];
    var data' := Overlay(data, at % BSIZE, stray);
    assert data'[at % BSIZE..at % BSIZE + |stray|] == stray;
    if data[at % BSIZE..at % BSIZE + |stray|] == stray {
      assert data == data[..at % BSIZE] + data[at % BSIZE..at % BSIZE + |stray|] + data[at % BSIZE + |stray|..];
      assert fs.blocks == clean.blocks;
    } else {
      assert fs.blocks[b] != clean.blocks[b];
    }
  }

  /** After any transaction, the commit gives what readers see, unless the call was one that loses bytes;
      then it gives the file system without them. */
  lemma LostIff(sb: Super, fs0: Fs, owner0: map<nat, Slot>, clean: Fs, owner: map<nat, Slot>, fs: Fs,
                log: seq<BlockWrite>, inum: nat, off: nat, src: seq<Byte>, good: nat, r: nat, stray: seq<Byte>,
                disk: seq<Block>, listed: set<nat>)
    requires Done(sb, fs0, owner0, clean, owner, log, inum, off, src, good, r, stray)
    requires FS.StrayOf(clean, fs, inum, off + r, stray) && |disk| == |fs0.blocks|
    requires forall b: nat :: b < |disk| && b !in listed ==> disk[b] == fs0.blocks[b]
    ensures |fs.blocks| == |disk|
    ensures Committed(disk, fs.blocks, listed + Numbers(log)) == fs.blocks <==>
              !Lost(sb, fs0, listed, inum, off, src, good)
    ensures Lost(sb, fs0, listed, inum, off, src, good) ==>
              Committed(disk, fs.blocks, listed + Numbers(log)) == clean.blocks && r == RoundStart(off, good)
  {
    hide At, FS.Sound, FS.WritesOnly, FilledWithin, Numbers, Content, Splice, FS.Journaled, RoundStart, FS.StrayOf,
      Missing, FreeBlocks, Committed, BytesAt, FS.Room, FS.OnEdge, Full;
    CleanCommitted(sb, fs0, clean, log, disk, listed);
    StrayCommitted(clean, fs, inum, off + r, stray, disk, listed + Numbers(log));
    var all := listed + Numbers(log);
    if stray != [] {
      StrayDiffers(clean, fs, inum, off + r, stray);
      StartUnique(off, good, |src|, r);
      HadEnough(sb, fs0, owner0, clean, owner, log, inum, off, src, good, r, stray);
      if FileBlock(fs0, inum, (off + r) / BSIZE) == 0 {
        IsListed(sb, fs0, owner0, clean, owner, log, inum, off, src, good, r, stray);
      } else {
        NotListed(sb, fs0, owner0, clean, owner, log, inum, off, src, good, r, stray);
        FS.Unlogged(sb, fs0, clean, log, FileBlock(fs0, inum, (off + r) / BSIZE));
      }
    } else if Faults(sb, fs0, inum, off, src, good) {
      IsReached(sb, fs0, owner0, clean, owner, log, inum, off, src, good, r, stray);
    }
  }

  /** The bytes read so far of a faulting copy are what readers of the block see. */
  ghost predicate Seen(fs: Fs, inum: nat, at: nat, bytes: seq<Byte>) {
    var b := FileBlock(fs, inum, at / BSIZE);
    0 < b < |fs.blocks| && BytesAt(fs.blocks[b], at % BSIZE, |bytes|) == bytes
  }

  lemma StraySeen(sb: Super, clean: Fs, fs: Fs, owner: map<nat, Slot>, inum: nat, at: nat, stray: seq<Byte>)
    requires Owned(sb, clean, owner, {}, {}) && inum < sb.ninodes && at / BSIZE < MAXFILE
    requires FS.StrayOf(clean, fs, inum, at, stray) && stray != []
    ensures Seen(fs, inum, at, stray)
  {
    hide At, Used;
    var b := FileBlock(clean, inum, at / BSIZE);
    FileBlockIs(sb, clean, owner, inum, at / BSIZE);
    StoreOwned(sb, clean, owner, b, fs.blocks[b]);
    assert SetBlock(clean, b, fs.blocks[b]) == fs;
    assert fs.blocks[b][at % BSIZE..at % BSIZE + |stray|] == stray;
  }

  /** What Chunk has done, whatever the call returned. */
  lemma ChunkEnds(sb: Super, fs0: Fs, owner0: map<nat, Slot>, clean: Fs, owner: map<nat, Slot>, fs: Fs,
                  log: seq<BlockWrite>, inum: nat, off: nat, src: seq<Byte>, good: nat, r: int, stray: seq<Byte>,
                  disk: seq<Block>, listed: set<nat>)
    requires inum < |fs0.inodes| && |disk| == |fs0.blocks|
    requires forall b: nat :: b < |disk| && b !in listed ==> disk[b] == fs0.blocks[b]
    requires r == -1 <==> off > fs0.inodes[inum].size || off + |src| > MAXSIZE
    requires r == -1 ==> fs == fs0 && log == []
    requires r != -1 ==>
               && 0 <= r <= |src| && Done(sb, fs0, owner0, clean, owner, log, inum, off, src, good, r, stray)
               && FS.StrayOf(clean, fs, inum, off + r, stray)
    ensures |fs.blocks| == |disk|
    ensures Faults(sb, fs0, inum, off, src, good) ==>
              r == RoundStart(off, good) <= good && (r < good ==> Seen(fs, inum, off + r, src[r..good]))
    ensures Committed(disk, fs.blocks, listed + Numbers(log)) == fs.blocks <==>
              !Lost(sb, fs0, listed, inum, off, src, good)
  {
    hide Content, Splice, At, Used, FS.Extends, FilledWithin, FS.WritesOnly, FS.EndsAs, FS.StrayOf, Seen, RoundStart,
      Missing, FreeBlocks, AllSynced, AllFilled;
    if r == -1 {
      EmptyLog();
    } else {
      LostIff(sb, fs0, owner0, clean, owner, fs, log, inum, off, src, good, r, stray, disk, listed);
      if Faults(sb, fs0, inum, off, src, good) {
        IsReached(sb, fs0, owner0, clean, owner, log, inum, off, src, good, r, stray);
        if r < good {
          FS.OwnedInode(sb, clean, owner, inum);
          StraySeen(sb, clean, fs, owner, inum, off + r, stray);
        }
      }
    }
  }

  /** One transaction, with `listed` on the list before it: which calls leave bytes that the commit does
      not write. disk is what a commit then would work on. */
  method Chunk(f: FS.FileSystem, inum: nat, off: nat, src: seq<Byte>, good: nat, ghost disk: seq<Block>,
               ghost listed: set<nat>) returns (r: int)
    requires f.Valid() && inum < |f.inodes| && off < WORD_LIMIT && |src| <= FS.CHUNK
    requires |disk| == |f.blocks| && forall b: nat :: b < |disk| && b !in listed ==> disk[b] == f.blocks[b]
    modifies f
    ensures f.Valid() && |f.blocks| == |disk| && |f.inodes| == |old(f.inodes)|
    ensures Faults(f.sb, old(f.State()), inum, off, src, good) ==>
              r == RoundStart(off, good) <= good && (r < good ==> Seen(f.State(), inum, off + r, src[r..good]))
    ensures Committed(disk, f.blocks, listed + Numbers(f.logged)) == f.blocks <==>
              !Lost(f.sb, old(f.State()), listed, inum, off, src, good)
  {
    hide FS.Sound, Content, Splice, At, FS.Extends, FilledWithin, FS.WritesOnly, FS.EndsAs, FS.StrayOf, Numbers, Lost,
      Committed, Faults, Seen, RoundStart;
    ghost var fs0, owner0 := f.State(), f.owner;
    assert |Content(fs0, inum)| == fs0.inodes[inum].size;
    ghost var clean, stray;
    r, clean, stray := f.Transaction(inum, off, src, good);
    ChunkEnds(f.sb, fs0, owner0, clean, f.owner, f.State(), f.logged, inum, off, src, good, r, stray, disk, listed);
  }
}
