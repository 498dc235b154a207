/** The steps of the cache-and-log machine and the invariant they all keep. */
module LogSteps {
  import opened Blocks
  import opened BufferCache
  import opened CacheInvariant
  import opened LogMachine

  datatype Step =
    | Get(b: nat) | LockBuf(p: Pid, i: nat) | FillBuf(p: Pid, i: nat) | Modify(p: Pid, i: nat, data: Block)
    | LogWrite(p: Pid, i: nat) | Release(p: Pid, i: nat) | BeginOp(p: Pid) | EndOp(p: Pid) | LogStep | Crash

  predicate Sane(l: Layout, s: Sys) {
    && l.Good() && |s.disk| == l.nblocks && |s.cache.buf| == NBUF == |s.refs|
    && |s.lh| <= LOGSIZE && |s.lh| < l.size
    && (forall k :: 0 <= k < |s.lh| ==> s.lh[k] < l.nblocks)
  }

  function ViewOf(l: Layout, s: Sys, b: nat): Block
    requires WellFormed(s.cache) && b < |s.disk|
  {
    View(l.dev, s.disk, s.cache, b)
  }

  function Stored(s: Sys, st: Option<Store>, next: Phase): Option<Sys> {
    match st
    case Some(v) => Some(s.(disk := v.disk, cache := v.cache, phase := next))
    case None => None
  }

  // One block write of commit() or recover_from_log() each; None while the process waits
  // for a buffer lock or where bget would panic.

  function StepWriteLog(l: Layout, s: Sys, t: nat): Option<Sys>
    requires Sane(l, s) && WellFormed(s.cache)
  {
    if t >= |s.lh| then Some(s.(phase := WriteHead))
    else if !Unlocked(s.cache, l.dev, Slot(l, t)) || !Unlocked(s.cache, l.dev, s.lh[t]) then None
    else Stored(s, CopyToLog(l, s.disk, s.cache, Slot(l, t), s.lh[t]), WriteLog(t + 1))
  }

  /** The commit point: the logged contents become the ones a crash preserves. */
  function StepWriteHead(l: Layout, s: Sys): Option<Sys>
    requires Sane(l, s) && WellFormed(s.cache)
  {
    if !Unlocked(s.cache, l.dev, l.start) then None
    else Stored(s.(committed := seq(l.nblocks, b requires 0 <= b < l.nblocks => ViewOf(l, s, b))),
                StoreHead(l, s.disk, s.cache, s.lh), Install(0))
  }

  function StepInstall(l: Layout, s: Sys, t: nat): Option<Sys>
    requires Sane(l, s) && WellFormed(s.cache)
  {
    if t >= |s.lh| then Some(s.(lh := [], phase := Erase))
    else if !Unlocked(s.cache, l.dev, Slot(l, t)) || !Unlocked(s.cache, l.dev, s.lh[t]) then None
    else Stored(s, CopyHome(l, s.disk, s.cache, Slot(l, t), s.lh[t], true), Install(t + 1))
  }

  /** write_head with an empty list, at the end of a commit or of a recovery. */
  function StepErase(l: Layout, s: Sys, next: Phase): Option<Sys>
    requires Sane(l, s) && WellFormed(s.cache)
  {
    if !Unlocked(s.cache, l.dev, l.start) then None
    else Stored(s, StoreHead(l, s.disk, s.cache, []), next)
  }

  function StepReadLog(l: Layout, s: Sys): Option<Sys>
    requires Sane(l, s) && WellFormed(s.cache)
  {
    if !Unlocked(s.cache, l.dev, l.start) then None
    else
      match Bread(s.disk, s.cache, KERNEL, l.dev, l.start)
      case Some((c, i)) => Some(s.(cache := BRelse(c, i), lh := ReadHead(c.buf[i].data), phase := Reinstall(0)))
      case None => None
  }

  function StepReinstall(l: Layout, s: Sys, t: nat): Option<Sys>
    requires Sane(l, s) && WellFormed(s.cache)
  {
    if t >= |s.lh| then Some(s.(lh := [], phase := Clear))
    else if !Unlocked(s.cache, l.dev, Slot(l, t)) || !Unlocked(s.cache, l.dev, s.lh[t]) then None
    else Stored(s, CopyHome(l, s.disk, s.cache, Slot(l, t), s.lh[t], false), Reinstall(t + 1))
  }

  function NextLogStep(l: Layout, s: Sys): Option<Sys>
    requires Sane(l, s) && WellFormed(s.cache)
  {
    match s.phase
    case Idle => None
    case WriteLog(t) => StepWriteLog(l, s, t)
    case WriteHead => StepWriteHead(l, s)
    case Install(t) => StepInstall(l, s, t)
    case Erase => StepErase(l, s, Finish)
    case Finish => Some(s.(phase := Idle))
    case ReadLog => StepReadLog(l, s)
    case Reinstall(t) => StepReinstall(l, s, t)
    case Clear => StepErase(l, s, Idle)
  }

  /** log_write's panics. */
  predicate LogWritePanics(l: Layout, s: Sys) {
    |s.lh| >= LOGSIZE || |s.lh| >= l.size - 1 || |s.ops| < 1
  }

  /** begin_op goes through instead of sleeping. */
  predicate MayBegin(s: Sys) {
    s.phase.Idle? && |s.lh| + (|s.ops| + 1) * MAXOPBLOCKS <= LOGSIZE
  }

  // Each function below is one step of one process: its effect, or None where the step
  // cannot be taken.

  function DoGet(l: Layout, s: Sys, b: nat): Option<Sys>
    requires Sane(l, s) && WellFormed(s.cache)
  {
    if s.phase.Booting() || b >= l.nblocks then None
    else
      match BGet(s.cache, l.dev, b)
      case Some(got) => Some(s.(cache := got.0, refs := s.refs[got.1 := s.refs[got.1] + 1]))
      case None => None
  }

  function DoLock(l: Layout, s: Sys, p: Pid, i: nat): Option<Sys>
    requires Sane(l, s)
  {
    if p != KERNEL && i < NBUF && s.refs[i] > 0 && s.cache.buf[i].owner.None?
    then Some(s.(cache := Lock(s.cache, i, p))) else None
  }

  function DoFill(l: Layout, s: Sys, p: Pid, i: nat): Option<Sys>
    requires Sane(l, s)
  {
    if i < NBUF && s.cache.buf[i].owner == Some(p) && s.cache.buf[i].blockno < |s.disk|
    then Some(s.(cache := Fill(s.disk, s.cache, i))) else None
  }

  /** Edits are made to home blocks by running operations. */
  function DoModify(l: Layout, s: Sys, p: Pid, i: nat, data: Block): Option<Sys>
    requires Sane(l, s)
  {
    if i < NBUF && s.cache.buf[i].owner == Some(p) && s.cache.buf[i].valid && p in s.ops
       && l.Home(s.cache.buf[i].blockno)
    then Some(s.(cache := SetData(s.cache, i, data), dirty := s.dirty + {i})) else None
  }

  /** log_write by an operation that has not used up its MAXOPBLOCKS. */
  function DoLogWrite(l: Layout, s: Sys, p: Pid, i: nat): Option<Sys>
    requires Sane(l, s)
  {
    if i < NBUF && s.cache.buf[i].owner == Some(p) && s.cache.buf[i].valid && p in s.ops
       && l.Home(s.cache.buf[i].blockno) && !LogWritePanics(l, s)
    then
      var b := s.cache.buf[i].blockno;
      if b in s.lh then Some(s.(dirty := s.dirty - {i}))
      else if s.ops[p] < MAXOPBLOCKS then
        Some(s.(lh := s.lh + [b], cache := BPin(s.cache, i), ops := s.ops[p := s.ops[p] + 1], dirty := s.dirty - {i}))
      else None
    else None
  }

  /** What was edited is logged before brelse. */
  function DoRelease(l: Layout, s: Sys, p: Pid, i: nat): Option<Sys>
    requires Sane(l, s)
  {
    if i < NBUF && s.cache.buf[i].owner == Some(p) && s.refs[i] > 0 && i !in s.dirty
    then Some(s.(cache := BRelse(s.cache, i), refs := s.refs[i := s.refs[i] - 1])) else None
  }

  function DoBegin(s: Sys, p: Pid): Option<Sys> {
    if p != KERNEL && p !in s.ops && MayBegin(s) then Some(s.(ops := s.ops[p := 0])) else None
  }

  /** end_op: the last operation starts the commit; commit() of an empty log does nothing. */
  function DoEnd(l: Layout, s: Sys, p: Pid): Option<Sys>
    requires Sane(l, s)
  {
    if p in s.ops && forall i :: 0 <= i < NBUF && i in s.dirty ==> s.cache.buf[i].owner != Some(p)
    then
      var ops := s.ops - {p};
      Some(s.(ops := ops, phase := if |ops| > 0 then s.phase else if s.lh == [] then Finish else WriteLog(0)))
    else None
  }

  /** Power fails: memory is lost and the next boot will read the log. */
  function AfterCrash(s: Sys): Sys {
    Sys(s.disk, INITIAL_CACHE, [], ReadLog, map[], seq(NBUF, _ => 0), {}, s.committed)
  }

  function Do(l: Layout, s: Sys, step: Step): Option<Sys>
    requires Sane(l, s) && WellFormed(s.cache)
  {
    match step
    case Get(b) => DoGet(l, s, b)
    case LockBuf(p, i) => DoLock(l, s, p, i)
    case FillBuf(p, i) => DoFill(l, s, p, i)
    case Modify(p, i, data) => DoModify(l, s, p, i, data)
    case LogWrite(p, i) => DoLogWrite(l, s, p, i)
    case Release(p, i) => DoRelease(l, s, p, i)
    case BeginOp(p) => DoBegin(s, p)
    case EndOp(p) => DoEnd(l, s, p)
    case LogStep => NextLogStep(l, s)
    case Crash => Some(AfterCrash(s))
  }

  // ----- reservation -----

  /** Blocks the running operations may still add to the log. */
  ghost function Unused(ops: map<Pid, nat>): int
    decreases |ops|
  {
    if ops == map[] then 0
    else
      var p :| p in ops;
      (MAXOPBLOCKS - ops[p]) + Unused(ops - {p})
  }

  lemma {:induction false} UnusedOf(ops: map<Pid, nat>, p: Pid)
    requires p in ops
    ensures Unused(ops) == (MAXOPBLOCKS - ops[p]) + Unused(ops - {p})
    decreases |ops|
  {
    var q :| q in ops && Unused(ops) == (MAXOPBLOCKS - ops[q]) + Unused(ops - {q});
    if p != q {
      UnusedOf(ops - {q}, p);
      UnusedOf(ops - {p}, q);
      assert ops - {q} - {p} == ops - {p} - {q};
    }
  }

  lemma {:induction false} UnusedBounds(ops: map<Pid, nat>)
    requires forall p :: p in ops ==> ops[p] <= MAXOPBLOCKS
    ensures 0 <= Unused(ops) <= |ops| * MAXOPBLOCKS
    decreases |ops|
  {
    if ops != map[] {
      var p :| p in ops;
      UnusedOf(ops, p);
      UnusedBounds(ops - {p});
      assert |ops - {p}| == |ops| - 1;
    }
  }

  /** No interleaving can promise more log blocks than there are. */
  ghost predicate Reserved(lh: seq<nat>, ops: map<Pid, nat>) {
    && (forall p :: p in ops ==> ops[p] <= MAXOPBLOCKS)
    && |lh| + Unused(ops) <= LOGSIZE
  }
}
