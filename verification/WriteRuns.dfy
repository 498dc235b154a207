/** A call of filewrite carried out on the cache-and-log machine, while other processes run operations of
    their own and commits come in between; and what is left of it after a power failure. Both are seen
    in places that matter: bytes of the disk that the other processes do not change. */
module WriteRuns {
  import opened Blocks
  import opened BufferCache
  import opened CacheInvariant
  import opened LogMachine
  import opened LogSteps
  import opened LogSafety
  import opened StorageTheorems
  import opened LogQuota
  import opened Journal
  import State = FileState
  import FS = FileSystem

  /** How far the call is: transactions ended, and of the next one the blocks edited and the blocks
      passed to log_write. */
  datatype Position = Position(t: nat, edits: nat, logs: nat)

  /** What the next transaction writes. */
  function LogOf(chunks: seq<FS.Chunk>, t: nat): seq<BlockWrite> {
    if t < |chunks| then chunks[t].log else []
  }

  /** Places on disk: block and byte. */
  type Places = (nat, nat) -> bool

  /** Two contents of block x, and two disks, that have the same bytes in these places. */
  ghost predicate AlikeIn(mine: Places, x: nat, a: Block, b: Block) {
    forall j: nat :: j < BSIZE && mine(x, j) ==> a[j] == b[j]
  }

  ghost predicate Alike(mine: Places, a: seq<Block>, b: seq<Block>) {
    |a| == |b| && forall x: nat :: x < |a| ==> AlikeIn(mine, x, a[x], b[x])
  }

  /** What a step does to the position; None for a step that is not part of such a call. In each of its
      operations p edits and logs, one after the other, just the blocks that the transaction of
      filewrite does, and then ends the operation. It leaves in the places that matter what the
      transaction does, and other processes leave there what they find; elsewhere all of them may
      write what they like. */
  ghost function Next(mine: Places, m: Sys, step: Step, p: Pid, chunks: seq<FS.Chunk>, at: Position): Option<Position> {
    var log := LogOf(chunks, at.t);
    match step
    case Modify(q, i, data) =>
      if i >= |m.cache.buf| then None
      else
        var buf := m.cache.buf[i];
        if q != p then if AlikeIn(mine, buf.blockno, data, buf.data) then Some(at) else None
        else if at.logs == at.edits < |log| && log[at.edits].b == buf.blockno
                && AlikeIn(mine, buf.blockno, data, log[at.edits].data)
        then Some(at.(edits := at.edits + 1)) else None
    case LogWrite(q, i) =>
      if q != p then Some(at)
      else if at.logs + 1 == at.edits <= |log| && i < |m.cache.buf| && log[at.logs].b == m.cache.buf[i].blockno
      then Some(at.(logs := at.logs + 1)) else None
    case EndOp(q) =>
      if q != p then Some(at)
      else if at.t < |chunks| && at.logs == at.edits == |log| then Some(Position(at.t + 1, 0, 0)) else None
    case Crash => None
    case _ => Some(at)
  }

  /** The position after a run; None if it is not one of a call. */
  ghost function Place(mine: Places, l: Layout, s: Sys, steps: seq<Step>, p: Pid, chunks: seq<FS.Chunk>)
    : Option<Position>
    decreases |steps|
  {
    if steps == [] then Some(Position(0, 0, 0))
    else
      match Exec(l, s, steps[..|steps| - 1])
      case None => None
      case Some(m) =>
        match Place(mine, l, s, steps[..|steps| - 1], p, chunks)
        case None => None
        case Some(at) => Next(mine, m, steps[|steps| - 1], p, chunks, at)
  }

  /** The log lies below the inodes, and there is nothing past the blocks of the file system. */
  predicate Fits(l: Layout, sb: State.Super) {
    l.Good() && l.start + l.size <= sb.inodestart && l.nblocks == sb.size
  }

  predicate WellPlaced(chunks: seq<FS.Chunk>, at: Position) {
    at.t <= |chunks| && at.logs <= at.edits <= |LogOf(chunks, at.t)|
  }

  /** The blocks in use are those after t transactions and some writes of the next. */
  ghost function Disk(fs0: State.Fs, chunks: seq<FS.Chunk>, t: nat, edits: nat): seq<Block>
    requires t <= |chunks| && edits <= |LogOf(chunks, t)|
  {
    Replay(FS.FsAfter(fs0, chunks, t).blocks, LogOf(chunks, t)[..edits])
  }

  /** Readers get the blocks of at, and what a power failure leaves is the disk between two
      transactions; the next one is only under way while p runs. */
  ghost predicate Reached(mine: Places, l: Layout, fs0: State.Fs, chunks: seq<FS.Chunk>, s: Sys, p: Pid,
                          at: Position)
    requires Sane(l, s) && WellFormed(s.cache) && |s.committed| == l.nblocks
  {
    && WellPlaced(chunks, at) && (at.edits > 0 ==> p in s.ops)
    && Alike(mine, Abs(l, s).mem, Disk(fs0, chunks, at.t, at.edits))
    && exists c: nat :: c <= at.t && Left(mine, l, fs0, chunks, s, c)
  }

  /** A power failure would leave the blocks after c transactions. */
  ghost predicate Left(mine: Places, l: Layout, fs0: State.Fs, chunks: seq<FS.Chunk>, s: Sys, c: nat)
    requires Sane(l, s) && WellFormed(s.cache) && |s.committed| == l.nblocks && c <= |chunks|
  {
    Alike(mine, Abs(l, s).stable, FS.FsAfter(fs0, chunks, c).blocks)
  }

  lemma NoEdits(fs0: State.Fs, chunks: seq<FS.Chunk>, t: nat)
    requires t <= |chunks|
    ensures Disk(fs0, chunks, t, 0) == FS.FsAfter(fs0, chunks, t).blocks
  {
    assert LogOf(chunks, t)[..0] == [];
  }

  /** All the writes of a transaction make the disk that the next one starts from. */
  lemma AllEdits(sb: State.Super, fs0: State.Fs, inum: nat, off: nat, src: seq<Byte>, chunks: seq<FS.Chunk>, t: nat)
    requires inum < |fs0.inodes| && FS.History(sb, fs0, inum, off, src, chunks) && t < |chunks|
    ensures Disk(fs0, chunks, t, |LogOf(chunks, t)|) == Disk(fs0, chunks, t + 1, 0)
  {
    hide FS.Boundary, FS.InReservation;
    NoEdits(fs0, chunks, t + 1);
    assert FS.Step(sb, fs0, FS.FsAfter(fs0, chunks, t), FS.MarkAfter(chunks, t), inum, off, src, t, chunks[t]);
    assert chunks[t].log[0..] == LogOf(chunks, t)[..|LogOf(chunks, t)|];
  }

  lemma WriteIs(sb: State.Super, fs0: State.Fs, inum: nat, off: nat, src: seq<Byte>, chunks: seq<FS.Chunk>, t: nat,
                e: nat)
    requires inum < |fs0.inodes| && FS.History(sb, fs0, inum, off, src, chunks) && t <= |chunks|
    requires 0 < e <= |LogOf(chunks, t)|
    ensures sb.inodestart <= LogOf(chunks, t)[e - 1].b < |Disk(fs0, chunks, t, e - 1)|
    ensures Disk(fs0, chunks, t, e) ==
            Disk(fs0, chunks, t, e - 1)[LogOf(chunks, t)[e - 1].b := LogOf(chunks, t)[e - 1].data]
  {
    hide FS.Boundary, FS.InReservation;
    assert FS.Step(sb, fs0, FS.FsAfter(fs0, chunks, t), FS.MarkAfter(chunks, t), inum, off, src, t, chunks[t]);
    var log := LogOf(chunks, t);
    assert log[..e][..e - 1] == log[..e - 1] && log[..e][e - 1] == log[e - 1];
  }

  lemma AlikePut(mine: Places, a: seq<Block>, b: seq<Block>, x: nat, data: Block, data': Block)
    requires Alike(mine, a, b) && x < |a| && AlikeIn(mine, x, data, data')
    ensures Alike(mine, a[x := data], b[x := data'])
  {
    hide AlikeIn;
  }

  /** One edit of the transaction, right where it matters. */
  lemma EditReached(mine: Places, l: Layout, sb: State.Super, fs0: State.Fs, inum: nat, off: nat, src: seq<Byte>,
                    chunks: seq<FS.Chunk>, m: Sys, s': Sys, p: Pid, at: Position, data: Block)
    requires Sane(l, m) && WellFormed(m.cache) && |m.committed| == l.nblocks
    requires Sane(l, s') && WellFormed(s'.cache) && |s'.committed| == l.nblocks
    requires inum < |fs0.inodes| && FS.History(sb, fs0, inum, off, src, chunks)
    requires Reached(mine, l, fs0, chunks, m, p, at) && p in s'.ops && at.edits < |LogOf(chunks, at.t)|
    requires var w := LogOf(chunks, at.t)[at.edits];
             AlikeIn(mine, w.b, data, w.data) && Abs(l, s') == Apply(Abs(l, m), Write(w.b, data))
    ensures Reached(mine, l, fs0, chunks, s', p, at.(edits := at.edits + 1))
  {
    hide Sane, WellFormed, Abs, FS.History, Disk, Left, Alike, AlikeIn;
    WriteIs(sb, fs0, inum, off, src, chunks, at.t, at.edits + 1);
    var w := LogOf(chunks, at.t)[at.edits];
    AlikeLength(mine, Abs(l, m).mem, Disk(fs0, chunks, at.t, at.edits));
    AlikePut(mine, Abs(l, m).mem, Disk(fs0, chunks, at.t, at.edits), w.b, data, w.data);
    var c: nat :| c <= at.t && Left(mine, l, fs0, chunks, m, c);
    LeftSame(mine, l, fs0, chunks, m, s', c);
  }

  lemma AlikeLength(mine: Places, a: seq<Block>, b: seq<Block>)
    requires Alike(mine, a, b)
    ensures |a| == |b|
  {
  }

  /** An edit of another process, elsewhere. */
  lemma OthersEdit(mine: Places, l: Layout, fs0: State.Fs, chunks: seq<FS.Chunk>, m: Sys, s': Sys, p: Pid, at: Position,
                   x: nat, data: Block)
    requires Sane(l, m) && WellFormed(m.cache) && |m.committed| == l.nblocks
    requires Sane(l, s') && WellFormed(s'.cache) && |s'.committed| == l.nblocks
    requires Reached(mine, l, fs0, chunks, m, p, at) && (p in m.ops ==> p in s'.ops)
    requires Abs(l, s') == Apply(Abs(l, m), Write(x, data))
    requires x < |Abs(l, m).mem| && AlikeIn(mine, x, data, Abs(l, m).mem[x])
    ensures Reached(mine, l, fs0, chunks, s', p, at)
  {
    hide Sane, WellFormed, Abs, Disk, Left, Alike, AlikeIn;
    var a, b := Abs(l, m).mem, Disk(fs0, chunks, at.t, at.edits);
    AlikeLength(mine, a, b);
    AlikeOne(mine, a, b, x, data);
    AlikePut(mine, a, b, x, data, b[x]);
    assert b[x := b[x]] == b;
    var c: nat :| c <= at.t && Left(mine, l, fs0, chunks, m, c);
    LeftSame(mine, l, fs0, chunks, m, s', c);
  }

  lemma AlikeOne(mine: Places, a: seq<Block>, b: seq<Block>, x: nat, data: Block)
    requires Alike(mine, a, b) && x < |a| && AlikeIn(mine, x, data, a[x])
    ensures AlikeIn(mine, x, data, b[x])
  {
  }

  /** Who edits a buffer finds in it what every reader of the block would. */
  lemma EditsLatest(l: Layout, m: Sys, q: Pid, i: nat, data: Block, s': Sys)
    requires Inv(l, m) && Sane(l, m) && WellFormed(m.cache) && |m.committed| == l.nblocks
    requires DoModify(l, m, q, i, data) == Some(s')
    ensures i < |m.cache.buf| && m.cache.buf[i].blockno < |Abs(l, m).mem|
    ensures m.cache.buf[i].data == Abs(l, m).mem[m.cache.buf[i].blockno]
  {
    Parts(l, m);
    hide Inv, CacheInv, View, UniqueLabels, PhaseInv, Recoverable, GoodList, Reserved, DirtyHeld;
    assert m.ops != map[];
    OwnedBuffer(l, m, i);
    ViewOfBuffer(l, m.disk, m.cache, i);
  }

  lemma LeftSame(mine: Places, l: Layout, fs0: State.Fs, chunks: seq<FS.Chunk>, m: Sys, s': Sys, c: nat)
    requires Sane(l, m) && WellFormed(m.cache) && |m.committed| == l.nblocks
    requires Sane(l, s') && WellFormed(s'.cache) && |s'.committed| == l.nblocks && c <= |chunks|
    requires Left(mine, l, fs0, chunks, m, c) && Abs(l, s').stable == Abs(l, m).stable
    ensures Left(mine, l, fs0, chunks, s', c)
  {
    hide Sane, WellFormed, Abs;
  }

  /** The other steps: nothing is edited, and a commit comes when no transaction is under way. */
  lemma OtherReached(mine: Places, l: Layout, fs0: State.Fs, chunks: seq<FS.Chunk>, m: Sys, s': Sys, p: Pid,
                     at: Position, at': Position, op: PlainOp)
    requires Sane(l, m) && WellFormed(m.cache) && |m.committed| == l.nblocks
    requires Sane(l, s') && WellFormed(s'.cache) && |s'.committed| == l.nblocks
    requires Reached(mine, l, fs0, chunks, m, p, at) && Abs(l, s') == Apply(Abs(l, m), op)
    requires op == Skip || (op == Commit && at.edits == 0)
    requires WellPlaced(chunks, at') && at'.t >= at.t && (at'.edits > 0 ==> p in s'.ops)
    requires Disk(fs0, chunks, at'.t, at'.edits) == Disk(fs0, chunks, at.t, at.edits)
    ensures Reached(mine, l, fs0, chunks, s', p, at')
  {
    hide Sane, WellFormed, Abs, Disk, Left;
    if op == Skip {
      var c: nat :| c <= at.t && Left(mine, l, fs0, chunks, m, c);
      LeftSame(mine, l, fs0, chunks, m, s', c);
    } else {
      NoEdits(fs0, chunks, at.t);
      assert Left(mine, l, fs0, chunks, s', at.t) by { LeftIs(mine, l, fs0, chunks, s', at.t); }
    }
  }

  lemma LeftIs(mine: Places, l: Layout, fs0: State.Fs, chunks: seq<FS.Chunk>, s: Sys, c: nat)
    requires Sane(l, s) && WellFormed(s.cache) && |s.committed| == l.nblocks && c <= |chunks|
    requires Alike(mine, Abs(l, s).stable, FS.FsAfter(fs0, chunks, c).blocks)
    ensures Left(mine, l, fs0, chunks, s, c)
  {
    hide Sane, WellFormed, Abs;
  }

  /** Only end_op takes p out of the running operations, and commits run when there are none. */
  lemma OpsAfter(l: Layout, m: Sys, step: Step, s': Sys, p: Pid)
    requires Inv(l, m) && WellFormed(m.cache) && Sane(l, m) && Do(l, m, step) == Some(s')
    requires step != EndOp(p) && step != Crash
    ensures p in m.ops ==> p in s'.ops
    ensures step.LogStep? && m.phase.WriteHead? ==> p !in m.ops
    ensures step.Modify? && step.p == p ==> p in s'.ops
  {
    hide Inv, CacheInv, WellFormed, PhaseInv, Recoverable, DirtyHeld, Reserved, GoodList, NextLogStep, BGet, Fill,
      SetData, BRelse, Lock, LogWritePanics, BPin;
    if step.LogStep? {
      LogStepOps(l, m, s');
    }
  }

  lemma Starts(mine: Places, l: Layout, fs0: State.Fs, chunks: seq<FS.Chunk>, s: Sys, p: Pid)
    requires Sane(l, s) && WellFormed(s.cache) && |s.committed| == l.nblocks
    requires Alike(mine, Abs(l, s).mem, fs0.blocks) && Alike(mine, Abs(l, s).stable, fs0.blocks)
    ensures Reached(mine, l, fs0, chunks, s, p, Position(0, 0, 0))
  {
    hide Sane, WellFormed, Abs;
    NoEdits(fs0, chunks, 0);
    LeftIs(mine, l, fs0, chunks, s, 0);
  }

  lemma StepReaches(mine: Places, l: Layout, sb: State.Super, fs0: State.Fs, inum: nat, off: nat, src: seq<Byte>,
                    chunks: seq<FS.Chunk>, m: Sys, step: Step, s': Sys, p: Pid, at: Position, at': Position)
    requires Inv(l, m) && Sane(l, m) && WellFormed(m.cache) && |m.committed| == l.nblocks
    requires Sane(l, s') && WellFormed(s'.cache) && |s'.committed| == l.nblocks && Do(l, m, step) == Some(s')
    requires Abs(l, s') == Apply(Abs(l, m), Meaning(m, step))
    requires inum < |fs0.inodes| && FS.History(sb, fs0, inum, off, src, chunks)
    requires Reached(mine, l, fs0, chunks, m, p, at) && Next(mine, m, step, p, chunks, at) == Some(at')
    ensures Reached(mine, l, fs0, chunks, s', p, at')
  {
    hide Inv, Sane, WellFormed, Abs, Apply, FS.History, Disk, Left, Reached, Do, Alike, AlikeIn;
    ReachedParts(mine, l, fs0, chunks, m, p, at);
    if step.EndOp? && step.p == p {
      AllEdits(sb, fs0, inum, off, src, chunks, at.t);
      OtherReached(mine, l, fs0, chunks, m, s', p, at, at', Skip);
    } else {
      OpsAfter(l, m, step, s', p);
      if step.Modify? {
        IsModify(l, m, step.p, step.i, step.data, s');
        EditsLatest(l, m, step.p, step.i, step.data, s');
        if step.p == p {
          EditReached(mine, l, sb, fs0, inum, off, src, chunks, m, s', p, at, step.data);
        } else {
          OthersEdit(mine, l, fs0, chunks, m, s', p, at, m.cache.buf[step.i].blockno, step.data);
        }
      } else {
        OtherReached(mine, l, fs0, chunks, m, s', p, at, at', Meaning(m, step));
      }
    }
  }

  lemma IsModify(l: Layout, m: Sys, q: Pid, i: nat, data: Block, s': Sys)
    requires Sane(l, m) && WellFormed(m.cache) && Do(l, m, Modify(q, i, data)) == Some(s')
    ensures DoModify(l, m, q, i, data) == Some(s')
  {
    hide Sane, WellFormed, DoModify;
  }

  lemma ReachedParts(mine: Places, l: Layout, fs0: State.Fs, chunks: seq<FS.Chunk>, s: Sys, p: Pid, at: Position)
    requires Sane(l, s) && WellFormed(s.cache) && |s.committed| == l.nblocks && Reached(mine, l, fs0, chunks, s, p, at)
    ensures WellPlaced(chunks, at) && (at.edits > 0 ==> p in s.ops)
    ensures Alike(mine, Abs(l, s).mem, Disk(fs0, chunks, at.t, at.edits))
    ensures exists c: nat :: c <= at.t && Left(mine, l, fs0, chunks, s, c)
  {
    hide Sane, WellFormed, Abs, Disk, Left;
  }

  /** Where the call stands on the plain map, over every run. */
  lemma {:induction false} RunReaches(mine: Places, l: Layout, sb: State.Super, fs0: State.Fs, inum: nat, off: nat,
                                      src: seq<Byte>,
                                      chunks: seq<FS.Chunk>, s: Sys, steps: seq<Step>, s': Sys, p: Pid, at: Position)
    requires Inv(l, s) && WellFormed(s.cache) && Sane(l, s) && |s.committed| == l.nblocks
    requires inum < |fs0.inodes| && FS.History(sb, fs0, inum, off, src, chunks)
    requires Alike(mine, Abs(l, s).mem, fs0.blocks) && Alike(mine, Abs(l, s).stable, fs0.blocks)
    requires Exec(l, s, steps) == Some(s') && Place(mine, l, s, steps, p, chunks) == Some(at)
    ensures Inv(l, s') && Sane(l, s') && WellFormed(s'.cache) && |s'.committed| == l.nblocks
    ensures Reached(mine, l, fs0, chunks, s', p, at)
    decreases |steps|
  {
    hide Inv, CacheInv, WellFormed, Sane, Do, Abs, Disk, FS.History, Left, Reached;
    if steps == [] {
      Starts(mine, l, fs0, chunks, s, p);
    } else {
      var before, last := steps[..|steps| - 1], steps[|steps| - 1];
      var m := Exec(l, s, before).value;
      RunRefines(l, s, before, m);
      Parts(l, m);
      StepRefines(l, m, last, s');
      Parts(l, s');
      var at0 := Place(mine, l, s, before, p, chunks).value;
      RunReaches(mine, l, sb, fs0, inum, off, src, chunks, s, before, m, p, at0);
      StepReaches(mine, l, sb, fs0, inum, off, src, chunks, m, last, s', p, at0, at);
    }
  }

  // ----- the reservation -----

  /** While p runs, it has logged what its transaction lists up to the position. */
  ghost predicate LogsListed(mine: Places, l: Layout, s: Sys, steps: seq<Step>, s': Sys, p: Pid,
                             chunks: seq<FS.Chunk>, at: Position)
  {
    && WellPlaced(chunks, at) && (at.edits > 0 ==> p in s'.ops)
    && (p in s'.ops ==> LoggedBy(l, s, steps, p) <= Numbers(LogOf(chunks, at.t)[..at.logs]))
  }

  lemma OpsBefore(l: Layout, m: Sys, step: Step, s': Sys, p: Pid)
    requires Inv(l, m) && WellFormed(m.cache) && Sane(l, m) && Do(l, m, step) == Some(s') && p in s'.ops
    ensures step != BeginOp(p) ==> p in m.ops
    ensures step == BeginOp(p) ==> p !in m.ops
  {
    hide Inv, CacheInv, WellFormed, PhaseInv, Recoverable, DirtyHeld, Reserved, GoodList, NextLogStep, BGet, Fill,
      SetData, BRelse, Lock, LogWritePanics, BPin;
    if step.LogStep? {
      LogStepOps(l, m, s');
    }
  }

  lemma OneMore(log: seq<BlockWrite>, k: nat)
    requires k < |log|
    ensures Numbers(log[..k + 1]) == Numbers(log[..k]) + {log[k].b}
  {
    assert log[..k + 1] == log[..k] + [log[k]];
    NumbersPlus(log[..k], [log[k]]);
    NumbersOne(log[k]);
  }

  lemma ListedStep(mine: Places, l: Layout, s: Sys, before: seq<Step>, m: Sys, step: Step, s': Sys, p: Pid,
                   chunks: seq<FS.Chunk>, at: Position, at': Position)
    requires Inv(l, m) && WellFormed(m.cache) && Sane(l, m) && Exec(l, s, before) == Some(m)
             && Do(l, m, step) == Some(s')
    requires LogsListed(mine, l, s, before, m, p, chunks, at) && Next(mine, m, step, p, chunks, at) == Some(at')
    ensures LogsListed(mine, l, s, before + [step], s', p, chunks, at')
  {
    hide Inv, WellFormed, Sane, Exec, NextLogStep, DoGet, DoLock, DoFill, DoModify, DoLogWrite, DoRelease, DoBegin;
    var all := before + [step];
    assert all[..|all| - 1] == before && all[|all| - 1] == step;
    assert LoggedBy(l, s, all, p) == AlsoLogged(m, step, p, LoggedBy(l, s, before, p));
    if step != EndOp(p) {
      OpsAfter(l, m, step, s', p);
    } else {
      assert p !in s'.ops;
    }
    if p in s'.ops {
      OpsBefore(l, m, step, s', p);
      if at.logs < |LogOf(chunks, at.t)| {
        OneMore(LogOf(chunks, at.t), at.logs);
      }
    }
  }

  lemma {:induction false} RunLogs(mine: Places, l: Layout, s: Sys, steps: seq<Step>, s': Sys, p: Pid,
                                   chunks: seq<FS.Chunk>, at: Position)
    requires Inv(l, s) && WellFormed(s.cache) && |s.committed| == l.nblocks && p !in s.ops
    requires Exec(l, s, steps) == Some(s') && Place(mine, l, s, steps, p, chunks) == Some(at)
    ensures LogsListed(mine, l, s, steps, s', p, chunks, at)
    decreases |steps|
  {
    hide Inv, WellFormed, Do, Abs, ApplyAll, LogsListed, Next;
    if steps == [] {
      NothingListed(mine, l, s, p, chunks);
    } else {
      var before, last := steps[..|steps| - 1], steps[|steps| - 1];
      var m := Exec(l, s, before).value;
      var at0 := Place(mine, l, s, before, p, chunks).value;
      RunRefines(l, s, before, m);
      RunLogs(mine, l, s, before, m, p, chunks, at0);
      ListedStep(mine, l, s, before, m, last, s', p, chunks, at0, at);
      assert before + [last] == steps;
    }
  }

  lemma NothingListed(mine: Places, l: Layout, s: Sys, p: Pid, chunks: seq<FS.Chunk>)
    requires p !in s.ops
    ensures LogsListed(mine, l, s, [], s, p, chunks, Position(0, 0, 0))
  {
  }

  /** When a log_write of the call is due, it does not panic: never, if the log has room for more than
      LOGSIZE blocks, and else as long as the transaction has logged so many fewer than MAXOPBLOCKS
      as the log lacks. */
  lemma NoPanic(mine: Places, l: Layout, sb: State.Super, fs0: State.Fs, inum: nat, off: nat, src: seq<Byte>,
                chunks: seq<FS.Chunk>, s: Sys, steps: seq<Step>, s': Sys, p: Pid, at: Position)
    requires Inv(l, s) && WellFormed(s.cache) && |s.committed| == l.nblocks && p !in s.ops
    requires inum < |fs0.inodes| && FS.History(sb, fs0, inum, off, src, chunks)
    requires Exec(l, s, steps) == Some(s') && Place(mine, l, s, steps, p, chunks) == Some(at) && at.logs < at.edits
    ensures at.logs < |LogOf(chunks, at.t)| && p in s'.ops
    ensures |Numbers(LogOf(chunks, at.t)[..at.logs])| + Slack(l) < MAXOPBLOCKS ==>
              !LogWritePanics(l, s') && s'.ops[p] < MAXOPBLOCKS
    ensures l.size > LOGSIZE ==> !LogWritePanics(l, s') && s'.ops[p] < MAXOPBLOCKS
  {
    hide Inv, WellFormed, Exec, Place, Abs, ApplyAll, LoggedBy, LogWritePanics, FS.Boundary, FS.Journaled;
    RunLogs(mine, l, s, steps, s', p, chunks, at);
    assert FS.Step(sb, fs0, FS.FsAfter(fs0, chunks, at.t), FS.MarkAfter(chunks, at.t), inum, off, src, at.t,
           chunks[at.t]);
    FS.Fewer(LoggedBy(l, s, steps, p), Numbers(LogOf(chunks, at.t)[..at.logs]));
    if |Numbers(LogOf(chunks, at.t)[..at.logs])| + Slack(l) < MAXOPBLOCKS {
      QuotaSuffices(l, s, steps, s', p);
    }
  }

  // ----- power failures -----

  /** No process edits anything: power failures, boots, recoveries, readers. */
  ghost predicate NoEditing(steps: seq<Step>) {
    forall k :: 0 <= k < |steps| ==> !steps[k].Modify?
  }

  /** Running two lists one after the other. */
  lemma {:induction false} ExecPlus(l: Layout, s: Sys, a: seq<Step>, b: seq<Step>)
    ensures Exec(l, s, a + b) ==
            match Exec(l, s, a) case Some(m) => Exec(l, m, b) case None => None
    decreases |b|
  {
    hide Do, Sane, WellFormed;
    if b == [] {
      assert a + b == a;
    } else {
      ExecPlus(l, s, a, b[..|b| - 1]);
      assert (a + b)[..|a + b| - 1] == a + b[..|b| - 1];
    }
  }

  lemma {:induction false} StaysEditless(l: Layout, s: Sys, steps: seq<Step>)
    requires NoEditing(steps)
    ensures Editless(Trace(l, s, steps))
    decreases |steps|
  {
    hide Exec;
    if steps != [] {
      StaysEditless(l, s, steps[..|steps| - 1]);
    }
  }

  /** After a power failure and whatever follows it without edits, the disk of an idle machine has in
      its home blocks what was committed before. */
  lemma CrashKeeps(l: Layout, m: Sys, after: seq<Step>, s': Sys)
    requires Inv(l, m) && Sane(l, m) && WellFormed(m.cache) && |m.committed| == l.nblocks
    requires Exec(l, m, [Crash] + after) == Some(s') && NoEditing(after) && s'.phase.Idle?
    ensures |s'.disk| == l.nblocks
    ensures forall b: nat :: l.Home(b) ==> s'.disk[b] == Abs(l, m).stable[b]
  {
    hide Inv, Sane, WellFormed, Abs, NoEditing, Trace, ApplyAll, CommitsFirst, Editless, AfterCrash;
    ExecPlus(l, m, [Crash], after);
    var c := AfterCrash(m);
    assert [Crash][..0] == [] && Exec(l, m, []) == Some(m) && Exec(l, m, [Crash]) == Some(c);
    StepRefines(l, m, Crash, c);
    StaysEditless(l, c, after);
    CrashAtomicity(l, c, after, s');
  }

  lemma StableOnDisk(mine: Places, l: Layout, fs0: State.Fs, chunks: seq<FS.Chunk>, m: Sys, s': Sys, c: nat)
    requires Sane(l, m) && WellFormed(m.cache) && |m.committed| == l.nblocks && c <= |chunks|
    requires Left(mine, l, fs0, chunks, m, c) && |s'.disk| == l.nblocks
    requires forall x: nat, j: nat :: x < l.nblocks && mine(x, j) ==> l.Home(x)
    requires forall b: nat :: l.Home(b) ==> s'.disk[b] == Abs(l, m).stable[b]
    ensures Alike(mine, s'.disk, FS.FsAfter(fs0, chunks, c).blocks)
  {
    hide Sane, WellFormed, Abs;
    var a, b := Abs(l, m).stable, FS.FsAfter(fs0, chunks, c).blocks;
    forall x: nat, j: nat | x < l.nblocks && j < BSIZE && mine(x, j) ensures s'.disk[x][j] == b[x][j] {
      assert AlikeIn(mine, x, a[x], b[x]);
    }
  }

  /** Let the power fail anywhere in such a run, and let the machine fail, boot and recover as often as
      it likes: wherever it matters the disk is then as after c transactions, no more than had ended,
      and all of them once nothing was left to commit. */
  lemma CrashedRun(mine: Places, l: Layout, sb: State.Super, fs0: State.Fs, inum: nat, off: nat, src: seq<Byte>,
                   chunks: seq<FS.Chunk>, s: Sys, during: seq<Step>, m: Sys, p: Pid, at: Position, after: seq<Step>,
                   s': Sys)
    returns (c: nat)
    requires Inv(l, s) && Sane(l, s) && WellFormed(s.cache) && |s.committed| == l.nblocks
    requires inum < |fs0.inodes| && FS.History(sb, fs0, inum, off, src, chunks)
    requires forall x: nat, j: nat :: x < l.nblocks && mine(x, j) ==> l.Home(x)
    requires Alike(mine, Abs(l, s).mem, fs0.blocks) && Alike(mine, Abs(l, s).stable, fs0.blocks)
    requires Exec(l, s, during) == Some(m) && Place(mine, l, s, during, p, chunks) == Some(at)
    requires Exec(l, m, [Crash] + after) == Some(s') && NoEditing(after) && s'.phase.Idle?
    ensures c <= at.t <= |chunks| && |s'.disk| == l.nblocks
    ensures Alike(mine, s'.disk, FS.FsAfter(fs0, chunks, c).blocks)
    ensures m.phase.Idle? && m.ops == map[] && m.lh == [] ==> c == at.t
  {
    hide Inv, Sane, WellFormed, Abs, FS.History, NoEditing, Reached, Disk, Alike, Exec, Place;
    RunReaches(mine, l, sb, fs0, inum, off, src, chunks, s, during, m, p, at);
    ReachedParts(mine, l, fs0, chunks, m, p, at);
    c :| c <= at.t && Left(mine, l, fs0, chunks, m, c);
    if m.phase.Idle? && m.ops == map[] && m.lh == [] {
      AllCommitted(l, m);
      NoEdits(fs0, chunks, at.t);
      c := at.t;
    }
    CrashKeeps(l, m, after, s');
    StableOnDisk(mine, l, fs0, chunks, m, s', c);
  }
}
