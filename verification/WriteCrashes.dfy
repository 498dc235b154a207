/** Crash consistency of filewrite: what file system the disk holds after a power failure. */
module WriteCrashes {
  import opened Blocks
  import opened BufferCache
  import opened CacheInvariant
  import opened LogMachine
  import opened LogSteps
  import opened LogSafety
  import opened StorageTheorems
  import opened ByteArrays
  import opened DiskInodes
  import opened WriteRuns
  import opened FileContent
  import State = FileState
  import FS = FileSystem

  // ----- nobody else edits -----

  /** Everything past the log. */
  function PastLog(sb: State.Super): Places {
    (x: nat, j: nat) => sb.inodestart <= x
  }

  lemma PastLogAlike(sb: State.Super, a: seq<Block>, b: seq<Block>)
    ensures Alike(PastLog(sb), a, b) <==> SameHome(sb, a, b)
  {
    if Alike(PastLog(sb), a, b) {
      forall x: nat | sb.inodestart <= x < |a| ensures a[x] == b[x] {
        assert AlikeIn(PastLog(sb), x, a[x], b[x]);
        assert forall j: nat :: j < BSIZE ==> a[x][j] == b[x][j];
      }
    }
  }

  /** Whatever the other processes read, the commits and the evictions do meanwhile, let the power fail
      anywhere in a call, and let the machine fail, boot and recover as often as it likes. Then the disk
      holds a consistent file system in which file inum has its old bytes with the first c chunks of src
      written over them, and every other file is as before the call; c is no more than the transactions
      ended, and all of them once nothing was left to commit. */
  lemma CrashedWrite(l: Layout, sb: State.Super, fs0: State.Fs, owner: map<nat, State.Slot>, inum: nat, off: nat,
                     src: seq<Byte>, chunks: seq<FS.Chunk>, s: Sys, during: seq<Step>, m: Sys, p: Pid, at: Position,
                     after: seq<Step>, s': Sys)
    returns (c: nat)
    requires Inv(l, s) && Sane(l, s) && WellFormed(s.cache) && |s.committed| == l.nblocks
    requires Fits(l, sb) && FS.Sound(sb, fs0, owner) && inum < |fs0.inodes|
    requires FS.History(sb, fs0, inum, off, src, chunks)
    requires SameHome(sb, Abs(l, s).mem, fs0.blocks) && SameHome(sb, Abs(l, s).stable, fs0.blocks)
    requires Exec(l, s, during) == Some(m) && Place(PastLog(sb), l, s, during, p, chunks) == Some(at)
    requires Exec(l, m, [Crash] + after) == Some(s') && NoEditing(after) && s'.phase.Idle?
    ensures c <= at.t <= |chunks| && sb.Good() && |s'.disk| == sb.size
    ensures FS.Boundary(sb, fs0, Load(sb, s'.disk), inum, off, src, FS.MarkAfter(chunks, c))
    ensures c < |chunks| ==> FS.MarkAfter(chunks, c) == c * FS.CHUNK
    ensures m.phase.Idle? && m.ops == map[] && m.lh == [] ==> c == at.t
  {
    hide Inv, Sane, WellFormed, Abs, FS.Sound, FS.History, NoEditing, FS.Boundary, SameHome, Alike, Exec, Place;
    PastLogAlike(sb, Abs(l, s).mem, fs0.blocks);
    PastLogAlike(sb, Abs(l, s).stable, fs0.blocks);
    c := CrashedRun(PastLog(sb), l, sb, fs0, inum, off, src, chunks, s, during, m, p, at, after, s');
    PastLogAlike(sb, s'.disk, FS.FsAfter(fs0, chunks, c).blocks);
    AtBoundary(sb, fs0, owner, inum, off, src, chunks, c, s'.disk);
  }

  /** Such a call can start from power-on over the disk of the file system, its log empty. */
  lemma FromPowerOn(l: Layout, sb: State.Super, fs: State.Fs)
    requires Fits(l, sb) && |fs.blocks| == sb.size && HeadCount(fs.blocks[l.start]) == 0
    ensures GoodHead(l, fs.blocks[l.start])
    ensures var s := PowerOn(l, fs.blocks);
            && Inv(l, s) && Sane(l, s) && WellFormed(s.cache) && |s.committed| == l.nblocks && s.ops == map[]
            && SameHome(sb, Abs(l, s).mem, fs.blocks) && SameHome(sb, Abs(l, s).stable, fs.blocks)
  {
    hide Inv, WellFormed, View, Durable;
    BlankLogBoots(l, fs.blocks);
    PowerOnInv(l, fs.blocks);
    Parts(l, PowerOn(l, fs.blocks));
  }

  /** The disk between two transactions is that of a consistent file system with some chunks written. */
  lemma AtBoundary(sb: State.Super, fs0: State.Fs, owner: map<nat, State.Slot>, inum: nat, off: nat, src: seq<Byte>,
                   chunks: seq<FS.Chunk>, c: nat, disk: seq<Block>)
    requires FS.Sound(sb, fs0, owner) && inum < |fs0.inodes| && FS.History(sb, fs0, inum, off, src, chunks)
    requires c <= |chunks| && SameHome(sb, disk, FS.FsAfter(fs0, chunks, c).blocks)
    ensures sb.Good() && |disk| == sb.size
    ensures FS.Boundary(sb, fs0, Load(sb, disk), inum, off, src, FS.MarkAfter(chunks, c))
    ensures c < |chunks| ==> FS.MarkAfter(chunks, c) == c * FS.CHUNK
  {
    hide FS.Sound, State.Content, SameHome, FS.History, FS.Written, Load;
    var own := BoundaryIs(sb, fs0, owner, inum, off, src, chunks, c);
    LoadSame(sb, disk, FS.FsAfter(fs0, chunks, c), own);
  }

  lemma NoneWritten(sb: State.Super, fs: State.Fs, owner: map<nat, State.Slot>, inum: nat, off: nat, src: seq<Byte>)
    requires FS.Sound(sb, fs, owner) && inum < |fs.inodes|
    ensures FS.Boundary(sb, fs, fs, inum, off, src, 0)
  {
    hide FS.Sound, State.Content;
    assert src[..0] == [];
    SpliceNothing(State.Content(fs, inum), off);
  }

  // ----- other processes edit other files -----

  /** Byte j of block x belongs to file o: it is one of the 64 of its inode, or in one of its blocks. */
  ghost predicate ByteOf(sb: State.Super, fs: State.Fs, o: nat, x: nat, j: nat) {
    || (x == sb.IBlock(o) && 64 * (o % State.IPB) <= j < 64 * (o % State.IPB) + 64)
    || (x != 0 && exists t: State.Slot :: t.inum == o && State.At(fs, t) == x)
  }

  ghost function BytesOf(sb: State.Super, fs: State.Fs, files: set<nat>): Places {
    (x: nat, j: nat) => exists o :: o in files && ByteOf(sb, fs, o, x, j)
  }

  /** A file's blocks are wholly its own. */
  lemma OwnBlock(sb: State.Super, fs: State.Fs, fin: State.Fs, files: set<nat>, o: nat, t: State.Slot, disk: seq<Block>)
    requires Alike(BytesOf(sb, fin, files), disk, fs.blocks) && o in files && t.inum == o
    requires State.At(fs, t) != 0 && State.At(fin, t) == State.At(fs, t) && State.At(fs, t) < |disk|
    ensures |disk| == |fs.blocks| && disk[State.At(fs, t)] == fs.blocks[State.At(fs, t)]
  {
    hide State.At;
    var x := State.At(fs, t);
    assert AlikeIn(BytesOf(sb, fin, files), x, disk[x], fs.blocks[x]);
    forall j: nat | j < BSIZE ensures disk[x][j] == fs.blocks[x][j] {
      assert ByteOf(sb, fin, o, x, j);
    }
  }

  lemma OwnInode(sb: State.Super, fs: State.Fs, fin: State.Fs, files: set<nat>, o: nat, disk: seq<Block>)
    requires Alike(BytesOf(sb, fin, files), disk, fs.blocks) && o in files && sb.Good() && State.Synced(sb, fs, o)
    ensures sb.IBlock(o) < |disk| == |fs.blocks| && InodeOn(sb, disk, o) == fs.inodes[o]
  {
    hide State.Synced, ByteOf;
    SyncedAt(sb, fs, o);
    var x := sb.IBlock(o);
    assert AlikeIn(BytesOf(sb, fin, files), x, disk[x], fs.blocks[x]);
    forall j: nat | 64 * (o % State.IPB) <= j < 64 * (o % State.IPB) + 64 ensures disk[x][j] == fs.blocks[x][j] {
      InodeByte(sb, fin, o, j);
    }
    forall w: nat | 16 * (o % State.IPB) <= w < 16 * (o % State.IPB) + 16 ensures SameWord(disk[x], fs.blocks[x], w) {
    }
    InodeReads(sb, disk, fs, o);
  }

  lemma InodeByte(sb: State.Super, fs: State.Fs, o: nat, j: nat)
    requires 64 * (o % State.IPB) <= j < 64 * (o % State.IPB) + 64
    ensures ByteOf(sb, fs, o, sb.IBlock(o), j)
  {
  }

  /** A file whose bytes are on the disk is found again, whatever else is there. */
  lemma FileReads(sb: State.Super, fs: State.Fs, owner: map<nat, State.Slot>, fin: State.Fs, files: set<nat>, o: nat,
                  disk: seq<Block>)
    requires FS.Sound(sb, fs, owner) && Alike(BytesOf(sb, fin, files), disk, fs.blocks)
    requires o in files && o < |fs.inodes|
    requires forall t :: State.At(fs, t) != 0 ==> State.At(fin, t) == State.At(fs, t)
    ensures sb.Good() && |disk| == sb.size && |Load(sb, disk).inodes| == |fs.inodes|
    ensures Load(sb, disk).inodes[o] == fs.inodes[o]
    ensures State.Content(Load(sb, disk), o) == State.Content(fs, o)
  {
    hide State.At, State.Used, State.Synced, Alike, InodeOn, ByteOf;
    FS.OwnedInode(sb, fs, owner, o);
    OwnInode(sb, fs, fin, files, o, disk);
    var fs' := Load(sb, disk);
    SlotsRead(sb, fs, owner, fin, files, o, disk);
    forall bn: nat | bn < State.MAXFILE ensures State.BlockKept(fs, fs', o, bn) {
      if State.FileBlock(fs, o, bn) != 0 {
        FileBlockIs(sb, fs, owner, o, bn);
        OwnBlock(sb, fs, fin, files, o, State.SlotOf(o, bn), disk);
      }
    }
    assert State.NoHoles(fs, o, fs.inodes[o].size);
    State.SameContent(fs, fs', o);
  }

  lemma SlotsRead(sb: State.Super, fs: State.Fs, owner: map<nat, State.Slot>, fin: State.Fs, files: set<nat>, o: nat,
                  disk: seq<Block>)
    requires State.Owned(sb, fs, owner, {}, {}) && Alike(BytesOf(sb, fin, files), disk, fs.blocks)
    requires o in files && o < |fs.inodes| && sb.Good() && |disk| == sb.size
    requires Load(sb, disk).inodes[o] == fs.inodes[o]
    requires forall t :: State.At(fs, t) != 0 ==> State.At(fin, t) == State.At(fs, t)
    ensures forall t: State.Slot :: t.inum == o ==> State.At(Load(sb, disk), t) == State.At(fs, t)
  {
    hide State.Used, InodeOn, ByteOf, Alike;
    var ind := State.At(fs, State.Addr(o, State.NDIRECT));
    if ind != 0 {
      FS.IndirectInRange(sb, fs, owner, o, 0);
      hide State.At;
      OwnBlock(sb, fs, fin, files, o, State.Addr(o, State.NDIRECT), disk);
    }
  }

  /** The blocks of every boundary are still held at the end of the call. */
  lemma {:induction false} KeptToEnd(sb: State.Super, fs0: State.Fs, inum: nat, off: nat, src: seq<Byte>,
                                     chunks: seq<FS.Chunk>, c: nat, t: State.Slot)
    requires inum < |fs0.inodes| && FS.History(sb, fs0, inum, off, src, chunks) && c <= |chunks|
    requires State.At(FS.FsAfter(fs0, chunks, c), t) != 0
    ensures State.At(FS.FsAfter(fs0, chunks, |chunks|), t) == State.At(FS.FsAfter(fs0, chunks, c), t)
    decreases |chunks| - c
  {
    hide State.At, FS.Boundary, FS.InReservation, FS.Journaled;
    if c < |chunks| {
      assert FS.Step(sb, fs0, FS.FsAfter(fs0, chunks, c), FS.MarkAfter(chunks, c), inum, off, src, c, chunks[c]);
      KeptToEnd(sb, fs0, inum, off, src, chunks, c + 1, t);
    }
  }

  /** Other processes may edit, in operations of their own that the log groups with those of the call,
      whatever does not belong to the given files: other files, other inodes in the same blocks, the free
      map. Let the power fail anywhere, as before. Then each of the given files reads as after the first
      c transactions: the one written with c chunks of src, the others unchanged, and so are the inodes but
      for size and block numbers of the one written. */
  lemma CrashedAmongOthers(l: Layout, sb: State.Super, fs0: State.Fs, owner: map<nat, State.Slot>, inum: nat, off: nat,
                           src: seq<Byte>, chunks: seq<FS.Chunk>, files: set<nat>, s: Sys, during: seq<Step>, m: Sys,
                           p: Pid, at: Position, after: seq<Step>, s': Sys)
    returns (c: nat)
    requires Inv(l, s) && Sane(l, s) && WellFormed(s.cache) && |s.committed| == l.nblocks
    requires Fits(l, sb) && FS.Sound(sb, fs0, owner) && inum < |fs0.inodes|
    requires FS.History(sb, fs0, inum, off, src, chunks) && forall o :: o in files ==> o < |fs0.inodes|
    requires var mine := BytesOf(sb, FS.FsAfter(fs0, chunks, |chunks|), files);
             && Alike(mine, Abs(l, s).mem, fs0.blocks) && Alike(mine, Abs(l, s).stable, fs0.blocks)
             && Place(mine, l, s, during, p, chunks) == Some(at)
    requires Exec(l, s, during) == Some(m)
    requires Exec(l, m, [Crash] + after) == Some(s') && NoEditing(after) && s'.phase.Idle?
    ensures c <= at.t <= |chunks| && sb.Good() && |s'.disk| == sb.size
    ensures |Load(sb, s'.disk).inodes| == |fs0.inodes| && FS.MarkAfter(chunks, c) <= |src|
    ensures forall o: nat :: o in files ==>
              State.Content(Load(sb, s'.disk), o) ==
              if o == inum then FS.Written(State.Content(fs0, o), off, src[..FS.MarkAfter(chunks, c)])
              else State.Content(fs0, o)
    ensures forall o: nat :: o in files ==>
              SameInode(fs0.inodes[o], Load(sb, s'.disk).inodes[o], o == inum)
    ensures c < |chunks| ==> FS.MarkAfter(chunks, c) == c * FS.CHUNK
    ensures m.phase.Idle? && m.ops == map[] && m.lh == [] ==> c == at.t
  {
    hide Inv, Sane, WellFormed, Abs, FS.Sound, FS.History, NoEditing, Alike, Exec, Place, BytesOf, State.Content, Load,
      FS.Written;
    var fin := FS.FsAfter(fs0, chunks, |chunks|);
    var mine := BytesOf(sb, fin, files);
    FinalBytes(l, sb, fs0, owner, inum, off, src, chunks, files);
    c := CrashedRun(mine, l, sb, fs0, inum, off, src, chunks, s, during, m, p, at, after, s');
    var fs := FS.FsAfter(fs0, chunks, c);
    var own := BoundaryIs(sb, fs0, owner, inum, off, src, chunks, c);
    forall t | State.At(fs, t) != 0 ensures State.At(fin, t) == State.At(fs, t) {
      KeptToEnd(sb, fs0, inum, off, src, chunks, c, t);
    }
    SoundIs(sb, fs, own);
    AlikeLength(mine, s'.disk, fs.blocks);
    LoadSize(sb, s'.disk);
    forall o: nat | o in files
      ensures State.Content(Load(sb, s'.disk), o) == State.Content(fs, o)
      ensures SameInode(fs0.inodes[o], Load(sb, s'.disk).inodes[o], o == inum)
    {
      FileReads(sb, fs, own, fin, files, o, s'.disk);
    }
  }

  /** The inode of a file that may have been written. */
  predicate SameInode(ip: State.Inode, jp: State.Inode, written: bool) {
    jp.kind == ip.kind && jp.links == ip.links && (!written ==> jp == ip)
  }

  lemma LoadSize(sb: State.Super, disk: seq<Block>)
    requires sb.Good() && |disk| == sb.size
    ensures |Load(sb, disk).inodes| == sb.ninodes
  {
    hide InodeOn;
  }

  lemma SoundIs(sb: State.Super, fs: State.Fs, owner: map<nat, State.Slot>)
    requires FS.Sound(sb, fs, owner)
    ensures sb.Good() && |fs.blocks| == sb.size && |fs.inodes| == sb.ninodes
  {
    hide State.At, State.Used;
    FS.SuperOf(sb, fs, owner);
  }

  /** The file system between two transactions. */
  lemma BoundaryIs(sb: State.Super, fs0: State.Fs, owner: map<nat, State.Slot>, inum: nat, off: nat, src: seq<Byte>,
                   chunks: seq<FS.Chunk>, c: nat)
    returns (own: map<nat, State.Slot>)
    requires FS.Sound(sb, fs0, owner) && inum < |fs0.inodes| && FS.History(sb, fs0, inum, off, src, chunks)
    requires c <= |chunks|
    ensures FS.Sound(sb, FS.FsAfter(fs0, chunks, c), own)
    ensures FS.Boundary(sb, fs0, FS.FsAfter(fs0, chunks, c), inum, off, src, FS.MarkAfter(chunks, c))
    ensures c < |chunks| ==> FS.MarkAfter(chunks, c) == c * FS.CHUNK
  {
    hide FS.Sound, State.Content, FS.Journaled, FS.InReservation, FS.Written;
    if c == 0 {
      NoneWritten(sb, fs0, owner, inum, off, src);
    } else {
      assert FS.Step(sb, fs0, FS.FsAfter(fs0, chunks, c - 1), FS.MarkAfter(chunks, c - 1), inum, off, src, c - 1,
             chunks[c - 1]);
    }
    assert c < |chunks| ==>
             FS.Step(sb, fs0, FS.FsAfter(fs0, chunks, c), FS.MarkAfter(chunks, c), inum, off, src, c, chunks[c]);
    own :| FS.Sound(sb, FS.FsAfter(fs0, chunks, c), own);
  }

  /** All that belongs to a file lies past the log. */
  lemma FinalBytes(l: Layout, sb: State.Super, fs0: State.Fs, owner: map<nat, State.Slot>, inum: nat, off: nat,
                   src: seq<Byte>, chunks: seq<FS.Chunk>, files: set<nat>)
    requires Fits(l, sb) && FS.Sound(sb, fs0, owner) && inum < |fs0.inodes|
    requires FS.History(sb, fs0, inum, off, src, chunks)
    ensures var mine := BytesOf(sb, FS.FsAfter(fs0, chunks, |chunks|), files);
            forall x: nat, j: nat :: x < l.nblocks && mine(x, j) ==> l.Home(x)
  {
    hide FS.Sound, State.At, FS.Boundary, FS.History;
    var fin := FS.FsAfter(fs0, chunks, |chunks|);
    var own := BoundaryIs(sb, fs0, owner, inum, off, src, chunks, |chunks|);
    forall o: nat, x: nat, j: nat | x < l.nblocks && ByteOf(sb, fin, o, x, j) ensures l.Home(x) {
      if t: State.Slot :| t.inum == o && State.At(fin, t) == x && x != 0 {
        HeldPastLog(sb, fin, own, t);
      }
    }
  }

  lemma HeldPastLog(sb: State.Super, fs: State.Fs, owner: map<nat, State.Slot>, t: State.Slot)
    requires FS.Sound(sb, fs, owner) && State.At(fs, t) != 0
    ensures sb.inodestart <= State.At(fs, t) < sb.size
  {
    FS.DataPastLog(sb, fs, owner);
    assert State.IsSlot(sb, t);
    assert State.Holds(sb, fs, owner[State.At(fs, t)], State.At(fs, t));
  }
}
