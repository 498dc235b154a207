/** The file system that a disk spells out: what ilock reads of the inodes after a boot. */
module DiskInodes {
  import opened Blocks
  import opened FileState
  import opened FileContent
  import FS = FileSystem

  /** ilock: the inode in its place of its block. */
  function InodeOn(sb: Super, disk: seq<Block>, i: nat): Inode
    requires sb.IBlock(i) < |disk|
  {
    var b, at := disk[sb.IBlock(i)], 16 * (i % IPB);
    var addrs := seq<nat>(NDIRECT + 1, k requires 0 <= k <= NDIRECT => Word(b, at + 3 + k));
    Inode(Word(b, at), Word(b, at + 1), Word(b, at + 2), addrs)
  }

  function Load(sb: Super, disk: seq<Block>): Fs
    requires sb.Good() && |disk| == sb.size
  {
    Fs(disk, seq(sb.ninodes, i requires 0 <= i < sb.ninodes => InodeOn(sb, disk, i)))
  }

  /** The blocks past the log are the same: inodes, free map and data. */
  ghost predicate SameHome(sb: Super, a: seq<Block>, b: seq<Block>) {
    |a| == |b| && forall x: nat :: sb.inodestart <= x < |a| ==> a[x] == b[x]
  }

  predicate SameWord(a: Block, b: Block, j: nat) {
    j < WORDS ==> Word(a, j) == Word(b, j)
  }

  /** An inode that was written back is read as it was, wherever its sixteen words are. */
  lemma InodeReads(sb: Super, disk: seq<Block>, fs: Fs, i: nat)
    requires sb.Good() && Synced(sb, fs, i) && |disk| == |fs.blocks|
    requires forall j: nat :: 16 * (i % IPB) <= j < 16 * (i % IPB) + 16 ==>
               SameWord(disk[sb.IBlock(i)], fs.blocks[sb.IBlock(i)], j)
    ensures sb.IBlock(i) < |disk| && InodeOn(sb, disk, i) == fs.inodes[i]
  {
    hide Word;
    var ip, jp, ws := fs.inodes[i], InodeOn(sb, disk, i), InodeWords(fs.inodes[i]);
    assert ws[0] == ip.kind && ws[1] == ip.links && ws[2] == ip.size;
    forall k: nat | k < 16 ensures Word(disk[sb.IBlock(i)], 16 * (i % IPB) + k) == ws[k] {
      assert SameWord(disk[sb.IBlock(i)], fs.blocks[sb.IBlock(i)], 16 * (i % IPB) + k);
    }
    forall k: nat | k <= NDIRECT ensures jp.addrs[k] == ip.addrs[k] {
      assert ws[3 + k] == ip.addrs[k];
    }
    assert jp.addrs == ip.addrs;
  }

  lemma SyncedAt(sb: Super, fs: Fs, i: nat)
    requires Synced(sb, fs, i)
    ensures i < |fs.inodes| && sb.inodestart <= sb.IBlock(i) < |fs.blocks|
  {
  }

  /** A consistent file system, its inodes written back, is found again on any disk with the same
      blocks past the log: consistent, and every file with the same bytes. */
  lemma LoadSame(sb: Super, disk: seq<Block>, fs: Fs, owner: map<nat, Slot>)
    requires FS.Sound(sb, fs, owner) && SameHome(sb, disk, fs.blocks)
    ensures sb.Good() && |disk| == sb.size && Load(sb, disk).inodes == fs.inodes
    ensures FS.Sound(sb, Load(sb, disk), owner)
    ensures forall o: nat :: o < |fs.inodes| ==> Content(Load(sb, disk), o) == Content(fs, o)
  {
    hide At, Used, Synced, NoHoles, Content, InodeOn;
    FS.SuperOf(sb, fs, owner);
    forall i: nat | i < sb.ninodes ensures InodeOn(sb, disk, i) == fs.inodes[i] && sb.IBlock(i) < |disk| {
      SyncedAt(sb, fs, i);
      InodeReads(sb, disk, fs, i);
    }
    var fs' := Load(sb, disk);
    assert fs'.inodes == fs.inodes;
    SameSlots(sb, fs, fs', owner);
    FS.DataPastLog(sb, fs, owner);
    forall o: nat | o < sb.ninodes
      ensures Synced(sb, fs', o) && NoHoles(fs', o, fs'.inodes[o].size) && Content(fs', o) == Content(fs, o)
    {
      StillSynced(sb, fs, fs', o);
      SameFile(sb, fs, fs', owner, o);
    }
  }

  lemma SameSlots(sb: Super, fs: Fs, fs': Fs, owner: map<nat, Slot>)
    requires Owned(sb, fs, owner, {}, {}) && fs'.inodes == fs.inodes && SameHome(sb, fs'.blocks, fs.blocks)
    ensures forall t :: At(fs', t) == At(fs, t)
    ensures Owned(sb, fs', owner, {}, {})
  {
    FS.DataPastLog(sb, fs, owner);
    forall t ensures At(fs', t) == At(fs, t) {
      forall b | b in owner && owner[b].Addr? && owner[b].k == NDIRECT && b < sb.size
        ensures fs'.blocks[b] == fs.blocks[b]
      {
        assert Holds(sb, fs, owner[b], b);
      }
      AtKept(sb, fs, fs', owner, {}, {}, t);
    }
    forall x: nat | x < sb.size ensures Used(sb, fs', x) <==> Used(sb, fs, x) {
      BitmapInRange(sb, x);
    }
    StillOwned(sb, fs, fs', owner, {}, {}, {});
  }

  lemma StillSynced(sb: Super, fs: Fs, fs': Fs, i: nat)
    requires Synced(sb, fs, i) && fs'.inodes == fs.inodes && SameHome(sb, fs'.blocks, fs.blocks)
    ensures Synced(sb, fs', i)
  {
  }

  lemma SameFile(sb: Super, fs: Fs, fs': Fs, owner: map<nat, Slot>, o: nat)
    requires Owned(sb, fs, owner, {}, {}) && AllFilled(fs) && o < sb.ninodes
    requires fs'.inodes == fs.inodes && SameHome(sb, fs'.blocks, fs.blocks) && forall t :: At(fs', t) == At(fs, t)
    ensures Content(fs', o) == Content(fs, o) && NoHoles(fs', o, fs'.inodes[o].size)
  {
    hide At, Used;
    FS.DataPastLog(sb, fs, owner);
    forall bn: nat | bn < MAXFILE ensures BlockKept(fs, fs', o, bn) {
      if FileBlock(fs, o, bn) != 0 {
        FileBlockIs(sb, fs, owner, o, bn);
      }
    }
    assert GoodInode(fs.inodes[o]) && NoHoles(fs, o, fs.inodes[o].size);
    SameContent(fs, fs', o);
  }
}
