/** filewrite's chunk size is as large as the log's bound allows: some transactions log exactly
    MAXOPBLOCKS blocks. */
module WriteBound {
  import opened Blocks
  import opened BufferCache
  import opened ByteArrays
  import opened FileState
  import opened FileContent
  import opened FileSpace
  import opened Journal
  import FS = FileSystem
  import LogMachine

  /** No two free blocks share a block of the free map. */
  ghost predicate Scattered(sb: Super, fs: Fs) {
    forall b: nat, c: nat :: b < c < sb.size && !Used(sb, fs, b) && !Used(sb, fs, c) ==> sb.BBlock(b) != sb.BBlock(c)
  }

  ghost predicate AllFree(sb: Super, fs: Fs, bs: seq<nat>) {
    Distinct(bs) && forall k: nat :: k < |bs| ==> bs[k] < sb.size && !Used(sb, fs, bs[k])
  }

  /** The worst case for a chunk: it starts inside the last direct block of a file without an
      indirect block, and every block it needs is marked in another block of the free map. */
  ghost predicate Crowded(sb: Super, fs: Fs, inum: nat, off: nat, src: seq<Byte>, six: seq<nat>) {
    && inum < |fs.inodes| && off == fs.inodes[inum].size && off / BSIZE == NDIRECT - 1 && off % BSIZE != 0
    && |src| == FS.CHUNK && src[0] != ByteAt(fs, inum, off)
    && At(fs, Addr(inum, NDIRECT)) == 0
    && Scattered(sb, fs) && |six| == 6 && AllFree(sb, fs, six)
  }

  lemma {:induction false} DistinctFit(s: seq<nat>, all: set<nat>)
    requires Distinct(s) && forall k: nat :: k < |s| ==> s[k] in all
    ensures |s| <= |all|
    decreases |s|
  {
    if s != [] {
      DistinctFit(s[1..], all - {s[0]});
    }
  }

  lemma BitLogged(sb: Super, fs0: Fs, fs: Fs, log: seq<BlockWrite>, b: nat)
    requires FS.Journaled(sb, fs0, fs, [], log) && b < sb.size && Used(sb, fs, b) && !Used(sb, fs0, b)
    ensures sb.BBlock(b) in Numbers(log)
  {
    if sb.BBlock(b) < |fs0.blocks| { FS.Unlogged(sb, fs0, fs, log, sb.BBlock(b)); }
  }

  /** If the disk were full afterwards, more than the bound would have been logged. */
  lemma NotFull(sb: Super, fs0: Fs, fs: Fs, owner0: map<nat, Slot>, log: seq<BlockWrite>, inum: nat, six: seq<nat>)
    requires Owned(sb, fs0, owner0, {}, {}) && Scattered(sb, fs0) && |six| == 6 && AllFree(sb, fs0, six)
    requires FS.Extends(sb, fs0, fs, [], log, inum) && Full(sb, fs)
    ensures |Numbers(log)| >= 12
  {
    hide At, Used;
    var maps: seq<nat> := seq(6, k requires 0 <= k < 6 => sb.BBlock(six[k]));
    forall k: nat | k < 6
      ensures six[k] in Numbers(log) && maps[k] in Numbers(log) && maps[k] < sb.datastart <= six[k]
    {
      BitLogged(sb, fs0, fs, log, six[k]);
      BitmapInRange(sb, six[k]);
    }
    forall k: nat, j: nat | k < j < 6 ensures maps[k] != maps[j] {
      assert six[k] < six[j] || six[j] < six[k];
    }
    var all := six + maps;
    assert Distinct(all);
    DistinctFit(all, Numbers(log));
  }

  /** A slot that was empty holds a block that was free; it and its bit are logged. */
  lemma NewBlock(sb: Super, fs0: Fs, owner0: map<nat, Slot>, fs: Fs, owner: map<nat, Slot>, log: seq<BlockWrite>,
                 inum: nat, t: Slot)
    requires Owned(sb, fs0, owner0, {}, {}) && Owned(sb, fs, owner, {}, {}) && FS.Extends(sb, fs0, fs, [], log, inum)
    requires IsSlot(sb, t) && At(fs0, t) == 0 != At(fs, t)
    ensures var b := At(fs, t);
            && b in owner && owner[b] == t && sb.bmapstart <= sb.BBlock(b) < sb.datastart <= b < sb.size
            && !Used(sb, fs0, b) && b in Numbers(log) && sb.BBlock(b) in Numbers(log)
  {
    hide At, Used;
    var b := At(fs, t);
    WasFree(sb, fs0, fs, owner0, owner, t);
    assert Holds(sb, fs, owner[b], b);
    BitLogged(sb, fs0, fs, log, b);
    BitmapInRange(sb, b);
  }

  /** The end of the file moved, so its inode was written. */
  lemma InodeLogged(sb: Super, fs0: Fs, fs: Fs, log: seq<BlockWrite>, i: nat)
    requires FS.Journaled(sb, fs0, fs, [], log) && Synced(sb, fs0, i) && Synced(sb, fs, i)
    requires fs.inodes[i].size != fs0.inodes[i].size
    ensures sb.IBlock(i) in Numbers(log)
  {
    FS.Unlogged(sb, fs0, fs, log, sb.IBlock(i));
    assert InodeWords(fs0.inodes[i])[2] == fs0.inodes[i].size && InodeWords(fs.inodes[i])[2] == fs.inodes[i].size;
    assert Word(fs.blocks[sb.IBlock(i)], 16 * (i % IPB) + 2) != Word(fs0.blocks[sb.IBlock(i)], 16 * (i % IPB) + 2);
  }

  /** The first byte written is in a block the file had; its contents changed. */
  lemma FirstLogged(sb: Super, fs0: Fs, owner0: map<nat, Slot>, fs: Fs, log: seq<BlockWrite>, inum: nat, off: nat,
                    src: seq<Byte>)
    requires Owned(sb, fs0, owner0, {}, {}) && FS.Extends(sb, fs0, fs, [], log, inum)
    requires inum < |fs0.inodes| == |fs.inodes|
    requires off / BSIZE < MAXFILE && FileBlock(fs0, inum, off / BSIZE) != 0 && src != []
    requires src[0] != ByteAt(fs0, inum, off)
    requires off < fs.inodes[inum].size && Content(fs, inum)[off] == src[0]
    ensures FileBlock(fs, inum, off / BSIZE) == FileBlock(fs0, inum, off / BSIZE)
    ensures FileBlock(fs, inum, off / BSIZE) in Numbers(log)
  {
    hide At, Used;
    FileBlockIs(sb, fs0, owner0, inum, off / BSIZE);
    FS.Unlogged(sb, fs0, fs, log, FileBlock(fs0, inum, off / BSIZE));
  }

  lemma EntriesThere(fs: Fs, inum: nat, off: nat)
    requires NoHoles(fs, inum, off + FS.CHUNK) && off / BSIZE == NDIRECT - 1 && off % BSIZE != 0
    ensures forall j: nat :: j < 3 ==> At(fs, Entry(inum, j)) != 0
    ensures At(fs, Addr(inum, NDIRECT)) != 0
  {
    forall j: nat | j < 3 ensures At(fs, Entry(inum, j)) != 0 {
      assert SlotOf(inum, NDIRECT + j) == Entry(inum, j);
      assert FileBlock(fs, inum, NDIRECT + j) != 0;
    }
    assert At(fs, Entry(inum, 0)) != 0;
    if At(fs, Addr(inum, NDIRECT)) == 0 {
      FS.NoIndirect(fs, inum);
      assert false;
    }
  }

  /** In the worst case a whole chunk logs ten blocks: four of data, the indirect block, the four
      map blocks of those that are new, and the inode's. */
  lemma TenLogged(sb: Super, fs0: Fs, owner0: map<nat, Slot>, fs: Fs, owner: map<nat, Slot>, log: seq<BlockWrite>,
                  inum: nat, off: nat, src: seq<Byte>, six: seq<nat>)
    requires FS.Sound(sb, fs0, owner0) && FS.Sound(sb, fs, owner) && Crowded(sb, fs0, inum, off, src, six)
    requires FS.Extends(sb, fs0, fs, [], log, inum) && |fs.inodes| == |fs0.inodes|
    requires Content(fs, inum) == Splice(Content(fs0, inum), off, src)
    ensures |Numbers(log)| >= LogMachine.MAXOPBLOCKS
  {
    hide At, Used, Content, Synced, Owned, Numbers, Splice, FS.Journaled, Scattered;
    FS.OwnedInode(sb, fs, owner, inum);
    Appended(fs0, fs, inum, off, src);
    assert NoHoles(fs0, inum, off) && NoHoles(fs, inum, off + FS.CHUNK);
    EntriesThere(fs, inum, off);
    FS.NoIndirect(fs0, inum);
    assert FileBlock(fs0, inum, off / BSIZE) != 0;
    FirstLogged(sb, fs0, owner0, fs, log, inum, off, src);
    InodeLogged(sb, fs0, fs, log, inum);
    FS.InodeBlock(sb, fs, owner, inum);
    FileBlockIs(sb, fs, owner, inum, off / BSIZE);
    var slots := [Entry(inum, 0), Entry(inum, 1), Entry(inum, 2), Addr(inum, NDIRECT)];
    forall k: nat | k < 4 ensures IsNew(sb, fs0, fs, owner, Numbers(log), slots[k]) {
      NewBlock(sb, fs0, owner0, fs, owner, log, inum, slots[k]);
    }
    var b: seq<nat> := seq(4, k requires 0 <= k < 4 => At(fs, slots[k]));
    TenApart(sb, fs0, fs, owner, Numbers(log), slots, b, FileBlock(fs, inum, off / BSIZE), sb.IBlock(inum));
  }

  predicate IsNew(sb: Super, fs0: Fs, fs: Fs, owner: map<nat, Slot>, log: set<nat>, t: Slot) {
    var b := At(fs, t);
    && b in owner && owner[b] == t && sb.bmapstart <= sb.BBlock(b) < sb.datastart <= b < sb.size
    && !Used(sb, fs0, b) && b in log && sb.BBlock(b) in log
  }

  /** Four new blocks, their map blocks, one old block and an inode block. */
  lemma TenApart(sb: Super, fs0: Fs, fs: Fs, owner: map<nat, Slot>, log: set<nat>, slots: seq<Slot>, b: seq<nat>,
                 old1: nat, iblock: nat)
    requires |slots| == |b| == 4 && Scattered(sb, fs0)
    requires forall k: nat :: k < 4 ==> IsNew(sb, fs0, fs, owner, log, slots[k]) && b[k] == At(fs, slots[k])
    requires forall k: nat, j: nat :: k < j < 4 ==> slots[k] != slots[j]
    requires old1 in log && iblock in log && iblock < sb.bmapstart && sb.datastart <= old1
    requires old1 in owner && owner[old1] !in slots
    ensures |log| >= 10
  {
    hide At, Used;
    var maps: seq<nat> := seq(4, k requires 0 <= k < 4 => sb.BBlock(b[k]));
    forall k: nat | k < 4
      ensures b[k] in log && maps[k] in log && sb.bmapstart <= maps[k] < sb.datastart <= b[k] && b[k] != old1
    {
      assert IsNew(sb, fs0, fs, owner, log, slots[k]);
    }
    forall k: nat, j: nat | k < j < 4 ensures b[k] != b[j] && maps[k] != maps[j] {
      assert IsNew(sb, fs0, fs, owner, log, slots[k]) && IsNew(sb, fs0, fs, owner, log, slots[j]);
      assert b[k] < b[j] || b[j] < b[k];
    }
    var all := b + maps + [old1, iblock];
    assert sb.bmapstart <= maps[0] < sb.datastart;
    forall i: nat, j: nat | i < j < 10 ensures all[i] != all[j] {
      assert i < 4 ==> all[i] == b[i];
      assert j < 4 ==> all[j] == b[j];
      assert 4 <= i < 8 ==> all[i] == maps[i - 4];
      assert 4 <= j < 8 ==> all[j] == maps[j - 4];
    }
    DistinctFit(all, log);
  }

  lemma Appended(fs0: Fs, fs: Fs, inum: nat, off: nat, src: seq<Byte>)
    requires inum < |fs0.inodes| && inum < |fs.inodes| && off == fs0.inodes[inum].size && src != []
    requires Content(fs, inum) == Splice(Content(fs0, inum), off, src)
    ensures fs.inodes[inum].size == off + |src| && Content(fs, inum)[off] == src[0]
  {
    hide ByteAt;
    assert |Content(fs, inum)| == fs.inodes[inum].size && |Content(fs0, inum)| == off;
  }

  /** The bound of ten is reached by every such transaction. */
  method ReachTen(f: FS.FileSystem, inum: nat, off: nat, src: seq<Byte>, ghost six: seq<nat>) returns (r: int)
    requires f.Valid() && Crowded(f.sb, f.State(), inum, off, src, six)
    modifies f
    ensures r == |src| && |Numbers(f.logged)| == LogMachine.MAXOPBLOCKS
  {
    hide FS.Sound, FS.Extends, Full, Content, At, Used, Splice;
    ghost var fs0, owner0 := f.State(), f.owner;
    SizeIsSmall(f.sb, fs0, owner0, inum);
    ghost var clean, stray;
    r, clean, stray := f.Transaction(inum, off, src, |src|);
    if r < |src| {
      SoundOwned(f.sb, fs0, owner0);
      NotFull(f.sb, fs0, clean, owner0, f.logged, inum, six);
      assert false;
    }
    assert src[..r] == src;
    TenLogged(f.sb, fs0, owner0, clean, f.owner, f.logged, inum, off, src, six);
  }

  lemma SoundOwned(sb: Super, fs: Fs, owner: map<nat, Slot>)
    requires FS.Sound(sb, fs, owner)
    ensures Owned(sb, fs, owner, {}, {})
  {
  }

  lemma SizeIsSmall(sb: Super, fs: Fs, owner: map<nat, Slot>, inum: nat)
    requires FS.Sound(sb, fs, owner) && inum < |fs.inodes|
    ensures fs.inodes[inum].size <= MAXSIZE < WORD_LIMIT
  {
    hide At, Used;
    FS.OwnedInode(sb, fs, owner, inum);
  }
}
