/** The allowance of one operation over whole runs: what it has logged so far, counted as distinct
    blocks, is what begin_op's reservation is charged with at most. */
module LogQuota {
  import opened Blocks
  import opened BufferCache
  import opened CacheInvariant
  import opened LogMachine
  import opened LogSteps
  import opened LogSafety
  import opened StorageTheorems

  /** The blocks that p has passed to log_write since its last begin_op. */
  ghost function LoggedBy(l: Layout, s: Sys, steps: seq<Step>, p: Pid): set<nat>
    decreases |steps|
  {
    if steps == [] then {}
    else
      match Exec(l, s, steps[..|steps| - 1])
      case None => {}
      case Some(m) => AlsoLogged(m, steps[|steps| - 1], p, LoggedBy(l, s, steps[..|steps| - 1], p))
  }

  function AlsoLogged(m: Sys, step: Step, p: Pid, before: set<nat>): set<nat> {
    match step
    case BeginOp(q) => if q == p then {} else before
    case LogWrite(q, i) => if q == p && i < |m.cache.buf| then before + {m.cache.buf[i].blockno} else before
    case Crash => {}
    case _ => before
  }

  /** While p runs, all it has logged is in the log, and it is charged for no more than that. */
  ghost predicate Charged(s: Sys, p: Pid, own: set<nat>) {
    p in s.ops ==> own <= Elements(s.lh) && s.ops[p] <= |own|
  }

  lemma StepCharges(l: Layout, m: Sys, step: Step, s': Sys, p: Pid, own: set<nat>)
    requires Inv(l, m) && WellFormed(m.cache) && Do(l, m, step) == Some(s') && Charged(m, p, own)
    ensures Charged(s', p, AlsoLogged(m, step, p, own))
  {
    Parts(l, m);
    hide Inv, CacheInv, WellFormed, PhaseInv, Recoverable, DirtyHeld, Reserved, GoodList, NextLogStep, DoLogWrite,
      BGet, Fill, SetData, BRelse, Lock;
    match step {
      case LogStep => LogStepOps(l, m, s');
      case LogWrite(q, i) => LogWriteCharges(l, m, q, i, s', p, own);
      case _ =>
    }
  }

  lemma LogWriteCharges(l: Layout, m: Sys, q: Pid, i: nat, s': Sys, p: Pid, own: set<nat>)
    requires Sane(l, m) && DoLogWrite(l, m, q, i) == Some(s') && Charged(m, p, own)
    ensures Charged(s', p, AlsoLogged(m, LogWrite(q, i), p, own))
  {
    hide BPin, Elements, LogWritePanics;
    var b := m.cache.buf[i].blockno;
    Snoc(m.lh, b);
    if q == p && p in m.ops && b in own {
      assert own + {b} == own;
    }
  }

  lemma Snoc(lh: seq<nat>, b: nat)
    ensures Elements(lh + [b]) == Elements(lh) + {b}
    ensures b in Elements(lh) <==> b in lh
  {
    assert forall k :: 0 <= k < |lh| ==> (lh + [b])[k] == lh[k];
    assert (lh + [b])[|lh|] == b;
  }

  /** No operation runs while the log is being written or replayed. */
  lemma LogStepOps(l: Layout, m: Sys, s': Sys)
    requires Inv(l, m) && WellFormed(m.cache) && NextLogStep(l, m) == Some(s')
    ensures s'.ops == m.ops == map[]
  {
    hide Inv, CacheInv, PhaseInv, WellFormed, Recoverable, DirtyHeld, Reserved, GoodList, NextLogStep, Sane;
    Parts(l, m);
    LogStepIsBusy(l, m, s');
  }

  lemma LogStepIsBusy(l: Layout, m: Sys, s': Sys)
    requires Sane(l, m) && WellFormed(m.cache) && NextLogStep(l, m) == Some(s')
    ensures s'.ops == m.ops && !m.phase.Idle?
  {
    hide Sane, View, WellFormed, CopyToLog, CopyHome, StoreHead, Bread, BRelse, Unlocked, ReadHead, Slot;
  }

  lemma {:induction false} RunCharges(l: Layout, s: Sys, steps: seq<Step>, s': Sys, p: Pid)
    requires Inv(l, s) && WellFormed(s.cache) && |s.committed| == l.nblocks && p !in s.ops
    requires Exec(l, s, steps) == Some(s')
    ensures Charged(s', p, LoggedBy(l, s, steps, p))
    decreases |steps|
  {
    hide Inv, CacheInv, WellFormed, Do, Abs, ApplyAll, AlsoLogged, Charged;
    if steps == [] {
      NotCharged(s', p);
    } else {
      var before := steps[..|steps| - 1];
      var m := Exec(l, s, before).value;
      RunRefines(l, s, before, m);
      RunCharges(l, s, before, m, p);
      StepCharges(l, m, steps[|steps| - 1], s', p, LoggedBy(l, s, before, p));
    }
  }

  lemma NotCharged(s: Sys, p: Pid)
    requires p !in s.ops
    ensures Charged(s, p, {})
  {
  }

  /** Whatever the other processes do, an operation that has logged fewer than MAXOPBLOCKS distinct
      blocks, and on a small log so many fewer as the log lacks, can log another one: log_write
      neither panics nor goes over the reservation. */
  lemma QuotaSuffices(l: Layout, s: Sys, steps: seq<Step>, s': Sys, p: Pid)
    requires Inv(l, s) && WellFormed(s.cache) && |s.committed| == l.nblocks && p !in s.ops
    requires Exec(l, s, steps) == Some(s')
    requires p in s'.ops && |LoggedBy(l, s, steps, p)| + Slack(l) < MAXOPBLOCKS
    ensures !LogWritePanics(l, s') && s'.ops[p] < MAXOPBLOCKS
  {
    hide Inv, CacheInv, WellFormed, Exec, LoggedBy, LogWritePanics, Abs, ApplyAll;
    RunRefines(l, s, steps, s');
    RunCharges(l, s, steps, s', p);
    LogWriteSafe(l, s', p);
  }
}
