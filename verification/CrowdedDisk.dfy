/** A disk on which a chunk of filewrite needs the whole log reservation: six blocks of free map,
    each with its last bit alone clear. File 1 ends inside its last direct block; every other used
    block is the first one of an inode of its own. Inode 0 is not in use; the others are files with
    one link. */
module CrowdedDisk {
  import opened Blocks
  import opened Bitmap
  import opened FileState
  import FS = FileSystem
  import WriteBound

  const SIZE: nat := 49152
  const INODESTART: nat := 32   // after the boot block, the super block and a log of 30 blocks
  const MAPSTART: nat := 4000
  const DATASTART: nat := 4096
  const NINODES: nat := 45046
  const END: nat := 11265   // eleven blocks and a byte
  const FILE: nat := 1
  const T_FILE: nat := 2
  const ONE_LINK: nat := 0x1_0000   // the word of minor (low half) and nlink (high half)

  function Disk(): Super {
    Super(SIZE, NINODES, INODESTART, MAPSTART, DATASTART)
  }

  predicate IsHole(b: nat) {
    b % BPB == BPB - 1
  }

  /** The block in the k-th address of inode i. */
  function AddrOf(i: nat, k: nat): nat {
    if i == FILE then (if k < NDIRECT then DATASTART + k else 0)
    else if i > FILE && k == 0 && !IsHole(DATASTART + 10 + i) then DATASTART + 10 + i
    else 0
  }

  function InodeOf(i: nat): Inode {
    Inode(if i == 0 then 0 else T_FILE, if i == 0 then 0 else ONE_LINK, if i == FILE then END else 0,
          seq(NDIRECT + 1, k requires 0 <= k <= NDIRECT => AddrOf(i, k)))
  }

  /** Words of the n-th inode block. */
  function WordsOf(n: nat): (ws: seq<nat>)
    requires n < MAPSTART
    ensures |ws| == WORDS && forall k :: 0 <= k < WORDS ==> ws[k] < WORD_LIMIT
  {
    seq(WORDS, (k: nat) => WordAt(n, k))
  }

  function WordAt(n: nat, k: nat): (w: nat)
    ensures w < WORD_LIMIT
  {
    var i := IPB * n + k / 16;
    if i < NINODES then InodeWords(InodeOf(i))[k % 16] else 0
  }

  function MapBlock(): Block {
    seq(BSIZE, k => if k == BSIZE - 1 then 127 else 255)
  }

  function BlockOf(b: nat): Block {
    if INODESTART <= b < MAPSTART then SetWords(Zeroed(), 0, WordsOf(b - INODESTART))
    else if MAPSTART <= b < MAPSTART + 6 then MapBlock()
    else Zeroed()
  }

  function Crowd(): Fs {
    Fs(seq(SIZE, (b: nat) => BlockOf(b)), seq(NINODES, (i: nat) => InodeOf(i)))
  }

  function HolderOf(b: nat): Slot
    requires DATASTART <= b
  {
    if b < DATASTART + NDIRECT then Addr(FILE, b - DATASTART) else Addr(b - DATASTART - 10, 0)
  }

  function Holders(): map<nat, Slot> {
    map b: nat | DATASTART <= b < SIZE && !IsHole(b) :: HolderOf(b)
  }

  lemma {:induction false} LowBits(n: nat, j: nat)
    requires j <= n
    ensures Pow2(n) > 0 && (HasBit(Pow2(n) - 1, j) <==> j < n)
  {
    if n > 0 {
      LowBits(n - 1, if j > 0 then j - 1 else 0);
      assert (Pow2(n) - 1) / 2 == Pow2(n - 1) - 1;
    }
  }

  lemma MapBits(bi: nat)
    requires bi < BPB
    ensures TestBit(MapBlock(), bi) <==> bi != BPB - 1
  {
    assert Pow2(8) == 256 && Pow2(7) == 128;
    LowBits(8, bi % 8);
    LowBits(7, if bi % 8 < 7 then bi % 8 else 7);
  }

  lemma UsedIs(b: nat)
    requires b < SIZE
    ensures Used(Disk(), Crowd(), b) <==> !IsHole(b)
  {
    hide TestBit, MapBlock;
    MapBits(b % BPB);
    assert MAPSTART <= Disk().BBlock(b) < MAPSTART + 6;
  }

  lemma AddrIs(t: Slot)
    requires IsSlot(Disk(), t)
    ensures At(Crowd(), t) == if t.Addr? then AddrOf(t.inum, t.k) else 0
  {
    hide WordsOf, MapBlock;
  }

  lemma CrowdShape()
    ensures Shape(Disk(), Crowd())
  {
    hide BlockOf;
  }

  lemma SlotHolds(t: Slot)
    requires IsSlot(Disk(), t) && At(Crowd(), t) != 0
    ensures At(Crowd(), t) in Holders() && Holders()[At(Crowd(), t)] == t
  {
    hide At;
    AddrIs(t);
  }

  lemma HolderHolds(b: nat)
    requires b in Holders()
    ensures Holds(Disk(), Crowd(), Holders()[b], b)
  {
    hide At;
    AddrIs(Holders()[b]);
  }

  lemma CrowdOwned()
    ensures Owned(Disk(), Crowd(), Holders(), {}, {})
  {
    hide At, Used, Crowd, IsHole;
    CrowdShape();
    forall t | IsSlot(Disk(), t) && At(Crowd(), t) != 0
      ensures At(Crowd(), t) in Holders() && Holders()[At(Crowd(), t)] == t
    {
      SlotHolds(t);
    }
    forall b | b in Holders() ensures Holds(Disk(), Crowd(), Holders()[b], b) {
      HolderHolds(b);
    }
    forall b: nat | b < SIZE ensures Used(Disk(), Crowd(), b) <==> b < DATASTART || b in Holders() {
      UsedIs(b);
      if b < DATASTART {
        LowIsUsed(b);
      }
    }
  }

  lemma LowIsUsed(b: nat)
    requires b < DATASTART
    ensures !IsHole(b)
  {
  }

  lemma InodeBlockIs(i: nat)
    requires i < NINODES
    ensures i / IPB < MAPSTART && Disk().IBlock(i) < |Crowd().blocks|
    ensures Crowd().blocks[Disk().IBlock(i)] == SetWords(Zeroed(), 0, WordsOf(i / IPB))
  {
    hide WordsOf, Zeroed, SetWords, MapBlock, InodeOf;
  }

  lemma InodeWordIs(i: nat, k: nat)
    requires i < NINODES && k < 16
    ensures WordsOf(i / IPB)[16 * (i % IPB) + k] == InodeWords(InodeOf(i))[k]
  {
    hide InodeOf;
    assert IPB * (i / IPB) + (16 * (i % IPB) + k) / 16 == i && (16 * (i % IPB) + k) % 16 == k;
  }

  lemma CrowdSynced(i: nat)
    requires i < NINODES
    ensures Synced(Disk(), Crowd(), i)
  {
    hide InodeOf, Zeroed, BlockOf, WordsOf, SetWords, Word;
    CrowdShape();
    InodeBlockIs(i);
    assert GoodInode(Crowd().inodes[i]) && Crowd().inodes[i] == InodeOf(i);
    forall k: nat | k < 16
      ensures Word(Crowd().blocks[Disk().IBlock(i)], 16 * (i % IPB) + k) == InodeWords(Crowd().inodes[i])[k]
    {
      WordOfSetWords(Zeroed(), 0, WordsOf(i / IPB), 16 * (i % IPB) + k);
      InodeWordIs(i, k);
    }
  }

  lemma CrowdFilled(i: nat)
    requires i < NINODES
    ensures NoHoles(Crowd(), i, Crowd().inodes[i].size)
  {
    hide At;
    forall bn: nat | bn * BSIZE < Crowd().inodes[i].size ensures FileBlock(Crowd(), i, bn) != 0 {
      AddrIs(Addr(FILE, bn));
    }
  }

  lemma CrowdSound()
    ensures FS.Sound(Disk(), Crowd(), Holders())
  {
    hide At, Used, Owned, Synced, NoHoles;
    CrowdOwned();
    forall i: nat | i < NINODES ensures Synced(Disk(), Crowd(), i) && NoHoles(Crowd(), i, Crowd().inodes[i].size) {
      CrowdSynced(i);
      CrowdFilled(i);
    }
  }

  /** The worst case exists: a sound file system on which appending a chunk to file 1 logs exactly
      MAXOPBLOCKS blocks. */
  lemma WorstCase() returns (src: seq<Byte>, six: seq<nat>)
    ensures FS.Sound(Disk(), Crowd(), Holders())
    ensures WriteBound.Crowded(Disk(), Crowd(), FILE, END, src, six)
  {
    hide At, Used;
    src := seq(FS.CHUNK, _ => 1);
    six := seq(6, (k: nat) => BPB * k + (BPB - 1));
    CrowdSound();
    forall b: nat | b < SIZE ensures Used(Disk(), Crowd(), b) <==> !IsHole(b) {
      UsedIs(b);
    }
    AddrIs(Addr(FILE, 11));
    AddrIs(Addr(FILE, NDIRECT));
  }
}
