/** The storage stack seen from above: a plain map from blocks to contents, part of
    which survives a crash. */
module StorageTheorems {
  import opened Blocks
  import opened BufferCache
  import opened CacheInvariant
  import opened LogMachine
  import opened LogSteps
  import opened LogSafety
  import opened CommitSafety

  /** Home blocks only: mem is what readers get, stable what a crash leaves. */
  datatype Plain = Plain(mem: seq<Block>, stable: seq<Block>)

  datatype PlainOp = Write(b: nat, data: Block) | Commit | Fail | Skip

  function Apply(a: Plain, op: PlainOp): (r: Plain)
    ensures |a.mem| == |a.stable| ==> |r.mem| == |r.stable| == |a.mem|
  {
    match op
    case Write(b, data) => if b < |a.mem| then a.(mem := a.mem[b := data]) else a
    case Commit => Plain(a.mem, a.mem)
    case Fail => Plain(a.stable, a.stable)
    case Skip => a
  }

  function ApplyAll(a: Plain, ops: seq<PlainOp>): (r: Plain)
    ensures |a.mem| == |a.stable| ==> |r.mem| == |r.stable| == |a.mem|
  {
    if ops == [] then a else Apply(ApplyAll(a, ops[..|ops| - 1]), ops[|ops| - 1])
  }

  /** What the machine state means: while recovery runs, the log already counts as replayed. */
  ghost function Abs(l: Layout, s: Sys): (a: Plain)
    requires Sane(l, s) && WellFormed(s.cache) && |s.committed| == l.nblocks
    ensures |a.mem| == |a.stable| == l.nblocks
  {
    Plain(seq(l.nblocks, b requires 0 <= b < l.nblocks =>
            if !l.Home(b) then Zeroed() else if s.phase.Booting() then s.committed[b] else ViewOf(l, s, b)),
          seq(l.nblocks, b requires 0 <= b < l.nblocks => if l.Home(b) then s.committed[b] else Zeroed()))
  }

  ghost function Meaning(s: Sys, step: Step): PlainOp {
    match step
    case Modify(_, i, data) => if i < |s.cache.buf| then Write(s.cache.buf[i].blockno, data) else Skip
    case LogStep => if s.phase.WriteHead? then Commit else Skip
    case Crash => Fail
    case _ => Skip
  }

  /** Stuttering: same phase kind, same views, same committed contents. */
  lemma SameAbs(l: Layout, s: Sys, s': Sys)
    requires Sane(l, s) && WellFormed(s.cache) && |s.committed| == l.nblocks
    requires Sane(l, s') && WellFormed(s'.cache) && s'.committed == s.committed
    requires s.phase.Booting() || forall b: nat :: l.Home(b) ==>
               ViewOf(l, s, b) == if s'.phase.Booting() then s.committed[b] else ViewOf(l, s', b)
    requires s.phase.Booting() ==> s'.phase.Booting() || forall b: nat :: l.Home(b) ==>
               ViewOf(l, s', b) == s.committed[b]
    ensures Abs(l, s') == Abs(l, s)
  {
    hide View, WellFormed;
  }

  lemma CommitAbs(l: Layout, s: Sys, s': Sys)
    requires Sane(l, s) && WellFormed(s.cache) && |s.committed| == l.nblocks && !s.phase.Booting()
    requires Sane(l, s') && WellFormed(s'.cache) && |s'.committed| == l.nblocks && !s'.phase.Booting()
    requires forall b: nat :: l.Home(b) ==> ViewOf(l, s', b) == ViewOf(l, s, b) && s'.committed[b] == ViewOf(l, s, b)
    ensures Abs(l, s') == Apply(Abs(l, s), Commit)
  {
    hide View, WellFormed;
  }

  /** The committing or recovering process: only the header write of a commit shows. */
  lemma LogStepRefines(l: Layout, s: Sys, s': Sys)
    requires Inv(l, s) && WellFormed(s.cache) && |s.committed| == l.nblocks && NextLogStep(l, s) == Some(s')
    ensures Inv(l, s') && WellFormed(s'.cache) && |s'.committed| == l.nblocks
    ensures Abs(l, s') == Apply(Abs(l, s), Meaning(s, LogStep))
  {
    hide Inv, CacheInv, View, WellFormed, PhaseInv, Recoverable, DirtyHeld, Reserved, GoodList, Edited, Abs,
      CopyToLog, CopyHome, StoreHead, Bread, Unlocked, BRelse, ReadHead;
    Parts(l, s);
    match s.phase {
      case WriteLog(t) =>
        if t < |s.lh| {
          WriteLogStep(l, s, t, s');
          Parts(l, s');
          HomeViewsKept(l, s, s', Slot(l, t), ViewOf(l, s, s.lh[t]));
        } else {
          WriteLogDone(l, s, t, s');
        }
      case WriteHead => WriteHeadStep(l, s, s');
      case Install(t) =>
        if t < |s.lh| { InstallStep(l, s, t, s'); } else { InstallDone(l, s, t, s'); }
      case Erase => EraseStep(l, s, s');
      case Finish => FinishStep(l, s, s');
      case ReadLog => ReadLogStep(l, s, s');
      case Reinstall(t) =>
        if t < |s.lh| { ReinstallStep(l, s, t, s'); } else { ReinstallDone(l, s, t, s'); }
      case Clear => ClearStep(l, s, s');
    }
    Parts(l, s');
    if s.phase.WriteHead? { CommitAbs(l, s, s'); } else { SameAbs(l, s, s'); }
  }

  lemma WriteAbs(l: Layout, s: Sys, s': Sys, b: nat, data: Block)
    requires Sane(l, s) && WellFormed(s.cache) && |s.committed| == l.nblocks && !s.phase.Booting() && l.Home(b)
    requires Sane(l, s') && WellFormed(s'.cache) && s'.committed == s.committed && s'.phase == s.phase
    requires Edited(l.dev, s.disk, s.cache, s'.disk, s'.cache, b, data)
    ensures Abs(l, s') == Apply(Abs(l, s), Write(b, data))
  {
    hide View, WellFormed;
    assert forall x: nat :: l.Home(x) ==> x < |s.disk| && ViewOf(l, s', x) == if x == b then data else ViewOf(l, s, x);
  }

  lemma SameViewAbs(l: Layout, s: Sys, s': Sys)
    requires Sane(l, s) && WellFormed(s.cache) && |s.committed| == l.nblocks
    requires Sane(l, s') && WellFormed(s'.cache) && s'.committed == s.committed && |s'.disk| == |s.disk|
    requires s'.phase.Booting() == s.phase.Booting()
    requires SameView(l.dev, s.disk, s.cache, s'.disk, s'.cache)
    ensures Abs(l, s') == Abs(l, s)
  {
    hide View, WellFormed;
    assert forall b: nat :: l.Home(b) ==> b < |s.disk| && ViewOf(l, s', b) == ViewOf(l, s, b);
  }

  lemma ProcessStepRefines(l: Layout, s: Sys, step: Step, s': Sys)
    requires Inv(l, s) && WellFormed(s.cache) && |s.committed| == l.nblocks && Do(l, s, step) == Some(s')
    requires !step.LogStep? && !step.Crash?
    ensures Inv(l, s') && WellFormed(s'.cache) && |s'.committed| == l.nblocks
    ensures Abs(l, s') == Apply(Abs(l, s), Meaning(s, step))
  {
    hide Inv, CacheInv, View, WellFormed, PhaseInv, Recoverable, DirtyHeld, Reserved, GoodList, Edited, SameView,
      Abs, DoGet, DoLock, DoFill, DoModify, DoLogWrite, DoRelease, DoBegin, DoEnd;
    Parts(l, s);
    match step {
      case Get(b) => GetStep(l, s, b, s');
      case LockBuf(p, i) => LockStep(l, s, p, i, s');
      case FillBuf(p, i) => FillStep(l, s, p, i, s');
      case Modify(p, i, data) =>
        ModifyStep(l, s, p, i, data, s');
        Parts(l, s');
        WriteAbs(l, s, s', s.cache.buf[i].blockno, data);
      case LogWrite(p, i) => LogWriteStep(l, s, p, i, s');
      case Release(p, i) => ReleaseStep(l, s, p, i, s');
      case BeginOp(p) =>
        BeginStep(l, s, p, s');
        SameViewRefl(l, s);
      case EndOp(p) =>
        EndStep(l, s, p, s');
        SameViewRefl(l, s);
    }
    Parts(l, s');
    if !step.Modify? { SameViewAbs(l, s, s'); }
  }

  lemma SameViewRefl(l: Layout, s: Sys)
    requires Sane(l, s) && WellFormed(s.cache)
    ensures SameView(l.dev, s.disk, s.cache, s.disk, s.cache)
  {
  }

  lemma CrashAbs(l: Layout, s: Sys)
    requires Sane(l, s) && WellFormed(s.cache) && |s.committed| == l.nblocks && Sane(l, AfterCrash(s))
      && WellFormed(AfterCrash(s).cache)
    ensures Abs(l, AfterCrash(s)) == Apply(Abs(l, s), Fail)
  {
    hide View, WellFormed;
  }

  /** Every step of every process, of the committer, of the boot code and every power
      failure keeps the invariant and acts on the plain map as its meaning says. */
  lemma StepRefines(l: Layout, s: Sys, step: Step, s': Sys)
    requires Inv(l, s) && WellFormed(s.cache) && |s.committed| == l.nblocks && Do(l, s, step) == Some(s')
    ensures Inv(l, s') && WellFormed(s'.cache) && |s'.committed| == l.nblocks
    ensures Abs(l, s') == Apply(Abs(l, s), Meaning(s, step))
  {
    hide Inv, CacheInv, View, WellFormed, Abs, NextLogStep;
    match step {
      case LogStep => LogStepRefines(l, s, s');
      case Crash =>
        Parts(l, s);
        CrashStep(l, s);
        Parts(l, s');
        CrashAbs(l, s);
      case _ => ProcessStepRefines(l, s, step, s');
    }
  }

  // ----- whole runs -----

  /** The state after a list of steps, or None if one of them could not be taken. */
  ghost function Exec(l: Layout, s: Sys, steps: seq<Step>): Option<Sys> {
    if steps == [] then Some(s)
    else
      match Exec(l, s, steps[..|steps| - 1])
      case Some(m) => if Sane(l, m) && WellFormed(m.cache) then Do(l, m, steps[|steps| - 1]) else None
      case None => None
  }

  /** The plain operations a run amounts to. */
  ghost function Trace(l: Layout, s: Sys, steps: seq<Step>): seq<PlainOp> {
    if steps == [] then []
    else
      match Exec(l, s, steps[..|steps| - 1])
      case Some(m) => Trace(l, s, steps[..|steps| - 1]) + [Meaning(m, steps[|steps| - 1])]
      case None => []
  }

  /** The machine right after power-on, over any disk with a well-formed log header. */
  ghost function PowerOn(l: Layout, disk: seq<Block>): Sys
    requires l.Good() && |disk| == l.nblocks && GoodHead(l, disk[l.start])
  {
    Sys(disk, INITIAL_CACHE, [], ReadLog, map[], seq(NBUF, _ => 0), {},
        seq(l.nblocks, b requires 0 <= b < l.nblocks => Durable(l, disk, b)))
  }

  lemma PowerOnInv(l: Layout, disk: seq<Block>)
    requires l.Good() && |disk| == l.nblocks && GoodHead(l, disk[l.start])
    ensures Inv(l, PowerOn(l, disk)) && WellFormed(PowerOn(l, disk).cache) && |PowerOn(l, disk).committed| == l.nblocks
  {
    hide Inv, CacheInv, View, GoodList, UniqueLabels, DirtyHeld, Dirty;
    FreshCache(l, disk);
    EmptyGood(l);
    WholeQuiet(l, PowerOn(l, disk));
  }

  /** A disk with an empty log, as mkfs leaves it, can be booted from, and what it holds is durable. */
  lemma BlankLogBoots(l: Layout, disk: seq<Block>)
    requires l.Good() && |disk| == l.nblocks && HeadCount(disk[l.start]) == 0
    ensures GoodHead(l, disk[l.start]) && Inv(l, PowerOn(l, disk)) && |PowerOn(l, disk).committed| == l.nblocks
    ensures forall b: nat :: l.Home(b) ==> PowerOn(l, disk).committed[b] == disk[b]
  {
    hide Inv;
    NoHeadDurable(l, disk);
    PowerOnInv(l, disk);
  }

  /** Refinement over every run: whatever the interleaving, the evictions and the crashes,
      cache, log and disk together behave as the plain map. */
  lemma {:induction false} RunRefines(l: Layout, s: Sys, steps: seq<Step>, s': Sys)
    requires Inv(l, s) && WellFormed(s.cache) && |s.committed| == l.nblocks && Exec(l, s, steps) == Some(s')
    ensures Inv(l, s') && WellFormed(s'.cache) && |s'.committed| == l.nblocks
    ensures |Trace(l, s, steps)| == |steps|
    ensures Abs(l, s') == ApplyAll(Abs(l, s), Trace(l, s, steps))
    decreases |steps|
  {
    hide Inv, CacheInv, View, WellFormed, Abs, Meaning, Do, Apply;
    if steps != [] {
      var before := steps[..|steps| - 1];
      var m := Exec(l, s, before).value;
      RunRefines(l, s, before, m);
      StepRefines(l, m, steps[|steps| - 1], s');
      assert Trace(l, s, steps)[..|steps| - 1] == Trace(l, s, before);
    }
  }

  /** bread returns the latest contents: those of the last write before it or, after a
      crash, of the last commit before the crash. */
  lemma ReadsLatest(l: Layout, s: Sys, steps: seq<Step>, s': Sys, p: Pid, i: nat)
    requires Inv(l, s) && WellFormed(s.cache) && |s.committed| == l.nblocks && Exec(l, s, steps) == Some(s')
    requires !s'.phase.Booting() && i < |s'.cache.buf| && s'.cache.buf[i].owner == Some(p) && s'.cache.buf[i].valid
    requires l.Home(s'.cache.buf[i].blockno)
    ensures s'.cache.buf[i].data == ApplyAll(Abs(l, s), Trace(l, s, steps)).mem[s'.cache.buf[i].blockno]
  {
    hide Inv, CacheInv, View, Exec, Trace, ApplyAll, UniqueLabels;
    RunRefines(l, s, steps, s');
    Parts(l, s');
    OwnedBuffer(l, s', i);
    ViewOfBuffer(l, s'.disk, s'.cache, i);
  }

  /** No edits: what the rest of a commit, crashes, boots and readers are made of. */
  ghost predicate Editless(ops: seq<PlainOp>) {
    forall k :: 0 <= k < |ops| ==> !ops[k].Write?
  }

  /** A commit's header write comes before the first power failure, if any. */
  ghost predicate CommitsFirst(ops: seq<PlainOp>) {
    exists k :: 0 <= k < |ops| && ops[k] == Commit && forall j :: 0 <= j < k ==> ops[j] != Fail
  }

  lemma CommitsFirstSnoc(before: seq<PlainOp>, last: PlainOp)
    ensures CommitsFirst(before + [last]) <==> CommitsFirst(before) || (last == Commit && Fail !in before)
  {
    var ops := before + [last];
    assert forall j :: 0 <= j < |before| ==> ops[j] == before[j];
    if CommitsFirst(before) {
      var k :| 0 <= k < |before| && before[k] == Commit && forall j :: 0 <= j < k ==> before[j] != Fail;
      assert ops[k] == Commit;
    } else if last == Commit && Fail !in before {
      assert ops[|before|] == Commit;
    }
  }

  lemma {:induction false} EditlessOutcome(a: Plain, ops: seq<PlainOp>)
    requires Editless(ops)
    ensures ApplyAll(a, ops) ==
            if CommitsFirst(ops) then Plain(a.mem, a.mem) else if Fail in ops then Plain(a.stable, a.stable) else a
    decreases |ops|
  {
    if ops != [] {
      var before, last := ops[..|ops| - 1], ops[|ops| - 1];
      assert ops == before + [last];
      EditlessOutcome(a, before);
      CommitsFirstSnoc(before, last);
      hide CommitsFirst;
      assert Fail in ops <==> Fail in before || last == Fail;
    }
  }

  lemma IdleDisk(l: Layout, s: Sys)
    requires Inv(l, s) && s.phase.Idle?
    ensures |s.committed| == l.nblocks && |s.disk| == l.nblocks
    ensures forall b: nat :: l.Home(b) ==> s.disk[b] == s.committed[b]
  {
    NoHeadDurable(l, s.disk);
  }

  /** Crash atomicity. Take any state and let the machine commit, lose power and recover in
      any order, any number of times, between any two block writes. Once the log is idle
      again the disk holds, in every home block, the contents of the state started from if
      a commit reached its header write before the first failure, and otherwise, in every
      home block, what had been committed before. */
  lemma CrashAtomicity(l: Layout, s: Sys, steps: seq<Step>, s': Sys)
    requires Inv(l, s) && WellFormed(s.cache) && |s.committed| == l.nblocks && Exec(l, s, steps) == Some(s')
    requires Editless(Trace(l, s, steps)) && s'.phase.Idle?
    ensures |s'.disk| == l.nblocks
    ensures CommitsFirst(Trace(l, s, steps)) ==> forall b: nat :: l.Home(b) ==> s'.disk[b] == Abs(l, s).mem[b]
    ensures !CommitsFirst(Trace(l, s, steps)) ==> forall b: nat :: l.Home(b) ==> s'.disk[b] == Abs(l, s).stable[b]
  {
    hide Inv, CacheInv, View, Exec, Trace, ApplyAll, UniqueLabels, Editless, CommitsFirst, WellFormed;
    RunRefines(l, s, steps, s');
    Parts(l, s);
    Parts(l, s');
    EditlessOutcome(Abs(l, s), Trace(l, s, steps));
    IdleDisk(l, s');
    forall b: nat | l.Home(b) ensures s'.disk[b] == Abs(l, s').stable[b] {}
  }

  // ----- the log protocol -----

  /** Reservation and whole operations: in every state the log has room for all that the
      running operations may still add, its blocks are distinct, and a commit or a
      recovery is only under way when no operation runs and no buffer is half-edited. */
  lemma LogDiscipline(l: Layout, s: Sys)
    requires Inv(l, s)
    ensures |s.lh| + Unused(s.ops) <= LOGSIZE && Distinct(s.lh)
    ensures forall p :: p in s.ops ==> s.ops[p] <= MAXOPBLOCKS
    ensures !s.phase.Idle? ==> s.ops == map[] && s.dirty == {}
  {
    Parts(l, s);
  }

  /** begin_op lets an operation in exactly if no commit or recovery is under way and the reservation would
      hold with every running operation, the new one included, still to log its whole allowance. */
  lemma BeginsIff(s: Sys, p: Pid)
    requires p != KERNEL && p !in s.ops
    ensures DoBegin(s, p).Some? <==> s.phase.Idle? && Reserved(s.lh, Unspent(s.ops)[p := 0])
    ensures DoBegin(s, p).Some? ==> DoBegin(s, p).value == s.(ops := s.ops[p := 0])
  {
    AllUnused(Unspent(s.ops)[p := 0]);
    assert |Unspent(s.ops)[p := 0]| == |Unspent(s.ops)| + 1;
    UnspentSize(s.ops);
  }

  /** The operations with nothing logged yet. */
  ghost function Unspent(ops: map<Pid, nat>): map<Pid, nat> {
    map p | p in ops :: 0
  }

  lemma UnspentSize(ops: map<Pid, nat>)
    ensures |Unspent(ops)| == |ops|
  {
    assert Unspent(ops).Keys == ops.Keys;
    assert |Unspent(ops)| == |Unspent(ops).Keys| && |ops| == |ops.Keys|;
  }

  lemma {:induction false} AllUnused(ops: map<Pid, nat>)
    requires forall p :: p in ops ==> ops[p] == 0
    ensures Unused(ops) == |ops| * MAXOPBLOCKS
    decreases |ops|
  {
    if ops != map[] {
      var p :| p in ops;
      UnusedOf(ops, p);
      AllUnused(ops - {p});
      assert |ops - {p}| == |ops| - 1;
    }
  }

  /** With no operation running and nothing in the log, what readers get is what a power failure leaves. */
  lemma AllCommitted(l: Layout, s: Sys)
    requires Inv(l, s) && Sane(l, s) && WellFormed(s.cache) && |s.committed| == l.nblocks
    requires s.phase.Idle? && s.ops == map[] && s.lh == []
    ensures Abs(l, s).mem == Abs(l, s).stable
  {
    hide GoodList, Reserved;
    Parts(l, s);
    IdleDisk(l, s);
    assert s.dirty == {};
    assert Pins(s) + Dirty(s) == {};
    forall b: nat | l.Home(b) ensures ViewOf(l, s, b) == s.disk[b] {
      CleanNow(l, s, b);
    }
  }

  lemma CleanNow(l: Layout, s: Sys, b: nat)
    requires CacheInv(l, s.disk, s.cache, s.refs, {}, {}) && WellFormed(s.cache) && b < |s.disk|
    ensures ViewOf(l, s, b) == s.disk[b]
  {
  }

  /** An idle machine in which no operation runs has an empty list. */
  ghost predicate Cleared(s: Sys) {
    s.phase.Idle? && s.ops == map[] ==> s.lh == []
  }

  lemma LogStepClears(l: Layout, s: Sys, s': Sys)
    requires Sane(l, s) && WellFormed(s.cache) && |s.committed| == l.nblocks && PhaseInv(l, s)
    requires NextLogStep(l, s) == Some(s')
    ensures Cleared(s')
  {
    hide View, WellFormed, CopyToLog, CopyHome, StoreHead, Bread, Unlocked, BRelse, ReadHead, Sane, Installed,
      ViewCommitted, Logged;
  }

  /** No other step but begin_op, log_write and end_op changes the list, the operations or the phase. */
  lemma BufferStep(l: Layout, s: Sys, step: Step, s': Sys)
    requires Sane(l, s) && WellFormed(s.cache) && Do(l, s, step) == Some(s')
    requires step.Get? || step.LockBuf? || step.FillBuf? || step.Modify? || step.Release?
    ensures s'.lh == s.lh && s'.ops == s.ops && s'.phase == s.phase
  {
    hide WellFormed, BGet, BRelse, Lock, Fill, SetData, NextLogStep;
  }

  lemma EndClears(l: Layout, s: Sys, p: Pid, s': Sys)
    requires Sane(l, s) && DoEnd(l, s, p) == Some(s')
    ensures Cleared(s')
  {
    hide Sane;
    assert s.ops - {p} == map[] <==> |s.ops - {p}| == 0;
  }

  lemma LogWriteRuns(l: Layout, s: Sys, p: Pid, i: nat, s': Sys)
    requires Sane(l, s) && DoLogWrite(l, s, p, i) == Some(s')
    ensures p in s'.ops
  {
    hide Sane, LogWritePanics, BPin;
  }

  lemma StepClears(l: Layout, s: Sys, step: Step, s': Sys)
    requires Inv(l, s) && Sane(l, s) && WellFormed(s.cache) && Cleared(s) && Do(l, s, step) == Some(s')
    ensures Cleared(s')
  {
    hide Inv, CacheInv, WellFormed, PhaseInv, Recoverable, DirtyHeld, Reserved, GoodList, NextLogStep, Sane, MayBegin,
      DoGet, DoLock, DoFill, DoModify, DoLogWrite, DoRelease, DoEnd;
    Parts(l, s);
    match step {
      case LogStep => LogStepClears(l, s, s');
      case EndOp(p) => EndClears(l, s, p, s');
      case LogWrite(p, i) => LogWriteRuns(l, s, p, i, s');
      case BeginOp(p) => assert p in s'.ops;
      case Crash =>
      case _ => BufferStep(l, s, step, s');
    }
  }

  lemma {:induction false} RunClears(l: Layout, s: Sys, steps: seq<Step>, s': Sys)
    requires Inv(l, s) && WellFormed(s.cache) && |s.committed| == l.nblocks && Cleared(s)
    requires Exec(l, s, steps) == Some(s')
    ensures Cleared(s')
    decreases |steps|
  {
    hide Inv, View, WellFormed, Abs, Do, Cleared, Trace, Sane;
    if steps != [] {
      var before := steps[..|steps| - 1];
      var m := Exec(l, s, before).value;
      RunClears(l, s, before, m);
      RunRefines(l, s, before, m);
      StepClears(l, m, steps[|steps| - 1], s');
    }
  }

  /** Every operation that has ended is durable: in any run from power-on, whenever the machine is idle and
      no operation runs, the list is empty and a power failure would lose nothing that readers see. */
  lemma EndedIsDurable(l: Layout, disk: seq<Block>, steps: seq<Step>, s: Sys)
    requires l.Good() && |disk| == l.nblocks && GoodHead(l, disk[l.start])
    requires Exec(l, PowerOn(l, disk), steps) == Some(s) && s.phase.Idle? && s.ops == map[]
    ensures s.lh == [] && Sane(l, s) && WellFormed(s.cache) && |s.committed| == l.nblocks
    ensures Abs(l, s).mem == Abs(l, s).stable
  {
    hide Inv, WellFormed, Abs, Do, Trace, Exec;
    PowerOnInv(l, disk);
    RunRefines(l, PowerOn(l, disk), steps, s);
    RunClears(l, PowerOn(l, disk), steps, s);
    Parts(l, s);
    AllCommitted(l, s);
  }

  /** A logged block is in the cache and referenced until it is installed, so looking up
      any other block cannot recycle its buffer. */
  lemma LoggedStaysCached(l: Layout, s: Sys, b: nat, other: nat)
    requires Inv(l, s) && WellFormed(s.cache) && b in Pins(s) && other != b
    ensures exists i :: (0 <= i < NBUF && s.cache.buf[i].Holds(l.dev, b) && s.cache.buf[i].valid
      && (BGet(s.cache, l.dev, other).Some? ==> BGet(s.cache, l.dev, other).value.0.buf[i] == s.cache.buf[i]))
  {
    assert Cached(s.cache, l.dev, b);
    var i :| 0 <= i < |s.cache.buf| && s.cache.buf[i].Holds(l.dev, b) && s.cache.buf[i].valid
        && s.cache.buf[i].refcnt > 0;
    assert s.cache.buf[i].Holds(l.dev, b);
  }

  /** How many blocks an admitted operation may still have reserved when log_write panics: none if
      the log on disk has room for LOGSIZE blocks, else what it lacks. */
  function Slack(l: Layout): nat {
    if l.size > LOGSIZE then 0 else LOGSIZE + 1 - l.size
  }

  /** log_write panics for a running operation exactly when the list is as long as it can get; all
      running operations together then have no more than the slack left. */
  lemma LogWritePanicsIff(l: Layout, s: Sys, p: Pid)
    requires Inv(l, s) && p in s.ops
    ensures LogWritePanics(l, s) <==> |s.lh| == if l.size > LOGSIZE then LOGSIZE else l.size - 1
    ensures LogWritePanics(l, s) ==> Unused(s.ops) <= Slack(l)
    ensures LogWritePanics(l, s) ==> forall q :: q in s.ops ==> MAXOPBLOCKS - s.ops[q] <= Slack(l)
  {
    Parts(l, s);
    assert |s.ops| >= 1 by { assert s.ops.Keys != {}; }
    if LogWritePanics(l, s) {
      forall q | q in s.ops ensures MAXOPBLOCKS - s.ops[q] <= Slack(l) {
        UnusedOf(s.ops, q);
        UnusedBounds(s.ops - {q});
      }
    }
  }

  /** So it never panics for an operation with more than the slack left of its allowance. */
  lemma LogWriteSafe(l: Layout, s: Sys, p: Pid)
    requires Inv(l, s) && p in s.ops && s.ops[p] + Slack(l) < MAXOPBLOCKS
    ensures !LogWritePanics(l, s)
  {
    LogWritePanicsIff(l, s, p);
  }
}
