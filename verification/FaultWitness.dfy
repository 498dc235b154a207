/** Two calls that fault after one byte, on the disk of CrowdedDisk: in a block that the file has, where
    the byte is lost, and in one that the call allocates, where it lasts. */
module FaultWitness {
  import opened Blocks
  import opened FileState
  import opened FileSpace
  import opened Journal
  import opened CrowdedDisk
  import opened FaultedCopy
  import FS = FileSystem

  const EMPTY: nat := 4085   // an empty file, the one whose block would be the first hole
  const HOLE: nat := 8191

  lemma FirstRound()
    ensures RoundStart(0, 1) == 0
  {
  }

  /** The first byte of a file needs the first slot. */
  lemma OneSlot(fs: Fs, inum: nat)
    ensures Missing(fs, inum, 0, 1) <= {Addr(inum, 0)}
    ensures At(fs, Addr(inum, 0)) != 0 ==> Missing(fs, inum, 0, 1) == {}
  {
    hide At;
  }

  lemma AtMostOne(s: set<Slot>, t: Slot)
    requires s <= {t}
    ensures |s| <= 1
  {
    if s != {} {
      assert s == {t};
    }
  }

  lemma HoleIsFree()
    ensures |FreeBlocks(Disk(), Crowd())| >= 1
  {
    hide Used, Crowd;
    UsedIs(HOLE);
    FS.Fewer({HOLE}, FreeBlocks(Disk(), Crowd()));
  }

  lemma FileIs()
    ensures |Crowd().blocks| == SIZE && |Crowd().inodes| == NINODES
    ensures At(Crowd(), Addr(FILE, 0)) == DATASTART && Crowd().inodes[FILE].size == END
    ensures At(Crowd(), Addr(EMPTY, 0)) == 0 && Crowd().inodes[EMPTY].size == 0
    ensures Crowd().blocks[DATASTART] == Zeroed()
  {
    hide At, WordsOf, MapBlock;
    AddrIs(Addr(FILE, 0));
    AddrIs(Addr(EMPTY, 0));
  }

  lemma FirstFaults(b: Byte)
    requires b != 0
    ensures FILE < |Crowd().inodes| && Faults(Disk(), Crowd(), FILE, 0, [b, b], 1)
    ensures Lost(Disk(), Crowd(), {}, FILE, 0, [b, b], 1)
  {
    hide At, Crowd, Missing, FreeBlocks, RoundStart, Zeroed;
    FirstRound();
    FileIs();
    OneSlot(Crowd(), FILE);
    ZeroByte();
    assert [b, b][0..1] == [b];
  }

  lemma ZeroByte()
    ensures BytesAt(Zeroed(), 0, 1) == [0]
  {
  }

  lemma SecondFaults(b: Byte)
    ensures EMPTY < |Crowd().inodes| && Faults(Disk(), Crowd(), EMPTY, 0, [b, b], 1)
    ensures !Lost(Disk(), Crowd(), {}, EMPTY, 0, [b, b], 1)
  {
    hide At, Crowd, Missing, FreeBlocks, RoundStart;
    FirstRound();
    FileIs();
    OneSlot(Crowd(), EMPTY);
    HoleIsFree();
    AtMostOne(Missing(Crowd(), EMPTY, 0, 1), Addr(EMPTY, 0));
  }

  /** A write over the first two bytes of a file finds one of its bytes readable: it reports none written,
      readers see the one, and the commit leaves it out. */
  method Loses(b: Byte) returns (f: FS.FileSystem, r: int)
    requires b != 0
    ensures fresh(f) && f.Valid() && f.sb == Disk() && r == 0 && Seen(f.State(), FILE, 0, [b])
    ensures |f.blocks| == |Crowd().blocks|
    ensures Committed(Crowd().blocks, f.blocks, Numbers(f.logged)) != f.blocks
  {
    hide Crowd, Holders, FS.Sound, Lost, Faults, Committed, Seen, RoundStart, Numbers;
    CrowdSound();
    FileIs();
    FirstRound();
    FirstFaults(b);
    assert [b, b][0..1] == [b];
    f := new FS.FileSystem(Disk(), Crowd().blocks, Crowd().inodes, Holders());
    r := Chunk(f, FILE, 0, [b, b], 1, Crowd().blocks, {});
    assert {} + Numbers(f.logged) == Numbers(f.logged);
  }

  /** The same on an empty file: the block that the call allocates is on the list, so the byte lasts. */
  method Keeps(b: Byte) returns (f: FS.FileSystem, r: int)
    requires b != 0
    ensures fresh(f) && f.Valid() && f.sb == Disk() && r == 0 && Seen(f.State(), EMPTY, 0, [b])
    ensures |f.blocks| == |Crowd().blocks|
    ensures Committed(Crowd().blocks, f.blocks, Numbers(f.logged)) == f.blocks
  {
    hide Crowd, Holders, FS.Sound, Lost, Faults, Committed, Seen, RoundStart, Numbers;
    CrowdSound();
    FileIs();
    FirstRound();
    SecondFaults(b);
    assert [b, b][0..1] == [b];
    f := new FS.FileSystem(Disk(), Crowd().blocks, Crowd().inodes, Holders());
    r := Chunk(f, EMPTY, 0, [b, b], 1, Crowd().blocks, {});
    assert {} + Numbers(f.logged) == Numbers(f.logged);
  }
}
