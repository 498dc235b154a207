/** Runs of the committing or recovering process alone, while no buffer is locked. */
module CommitRuns {
  import opened Blocks
  import opened BufferCache
  import opened CacheInvariant
  import opened LogMachine
  import opened LogSteps
  import opened LogSafety
  import opened StorageTheorems

  function Repeat(k: nat): (r: seq<Step>)
    ensures |r| == k
  {
    seq(k, _ => LogStep)
  }

  ghost predicate AllUnlocked(c: Cache) {
    forall i :: 0 <= i < |c.buf| ==> c.buf[i].owner.None?
  }

  lemma AllUnlockedBoth(c: Cache, dev: nat, b: nat)
    requires WellFormed(c) && AllUnlocked(c)
    ensures Unlocked(c, dev, b)
  {
  }

  lemma ExecSnoc(l: Layout, s: Sys, k: nat, m: Sys, s': Sys)
    requires Exec(l, s, Repeat(k)) == Some(m) && Sane(l, m) && WellFormed(m.cache)
    requires NextLogStep(l, m) == Some(s')
    ensures Exec(l, s, Repeat(k + 1)) == Some(s')
  {
    assert Repeat(k + 1)[..k] == Repeat(k);
  }

  lemma ExecNothing(l: Layout, s: Sys)
    ensures Exec(l, s, Repeat(0)) == Some(s)
  {
  }

  /** One machine step of the committing process, appended to the run so far. */
  lemma Advance(l: Layout, s: Sys, k: nat, m: Sys, s': Sys)
    requires Inv(l, m) && Exec(l, s, Repeat(k)) == Some(m) && WellFormed(m.cache)
    requires Sane(l, m) && NextLogStep(l, m) == Some(s')
    ensures Exec(l, s, Repeat(k + 1)) == Some(s') && Inv(l, s')
  {
    hide Inv, NextLogStep;
    Parts(l, m);
    ExecSnoc(l, s, k, m, s');
    LogStepRefines(l, m, s');
  }

  // ----- locks -----

  /** Whoever has a buffer locked has a reference to it. */
  ghost predicate LocksRef(c: Cache) {
    forall i :: 0 <= i < |c.buf| && c.buf[i].owner.Some? ==> c.buf[i].refcnt > 0
  }

  lemma LocksOf(l: Layout, m: Sys)
    requires Inv(l, m)
    ensures WellFormed(m.cache) && LocksRef(m.cache) && UniqueLabels(m.cache) && l.dev != 0
  {
    hide PhaseInv, Recoverable, View, UniqueLabels;
  }

  /** bget has to wait exactly if the block is cached and locked: what it recycles nobody has locked. */
  lemma FirstGet(c: Cache, dev: nat, b: nat)
    requires WellFormed(c) && LocksRef(c)
    ensures BGet(c, dev, b).Some? ==>
              (BGet(c, dev, b).value.0.buf[BGet(c, dev, b).value.1].owner.None? <==> Unlocked(c, dev, b))
  {
  }

  lemma RelseOther(c: Cache, i: nat, j: nat)
    requires i < |c.buf| && j < |c.buf| && i != j
    ensures |BRelse(c, i).buf| == |c.buf| && BRelse(c, i).buf[j] == c.buf[j]
  {
  }

  lemma StillHeld(disk: seq<Block>, c: Cache, p: Pid, dev: nat, a: nat)
    requires WellFormed(c) && LocksRef(c) && a < |disk| && Bread(disk, c, p, dev, a).Some?
    ensures LocksRef(Bread(disk, c, p, dev, a).value.0)
  {
  }

  /** A bread does not change whether another block is locked. */
  lemma SecondGet(disk: seq<Block>, c: Cache, p: Pid, dev: nat, a: nat, b: nat)
    requires WellFormed(c) && LocksRef(c) && UniqueLabels(c) && dev != 0 && a != b && a < |disk|
    requires Bread(disk, c, p, dev, a).Some?
    ensures LocksRef(Bread(disk, c, p, dev, a).value.0)
    ensures Unlocked(Bread(disk, c, p, dev, a).value.0, dev, b) <==> Unlocked(c, dev, b)
  {
    var (c1, i) := Bread(disk, c, p, dev, a).value;
    StillHeld(disk, c, p, dev, a);
    UniqueAfter(disk, c, p, dev, a);
    BreadOne(disk, c, p, dev, a);
    hide Bread, UniqueLabels, Find, WellFormed;
    if j: nat :| j < NBUF && c.buf[j].Holds(dev, b) {
      FindIs(c, dev, b, j);
      if j != i {
        FindIs(c1, dev, b, j);
      } else {
        NotFound(c1, dev, b);
      }
    } else {
      NotFound(c, dev, b);
      NotFound(c1, dev, b);
    }
  }

  lemma UniqueAfter(disk: seq<Block>, c: Cache, p: Pid, dev: nat, a: nat)
    requires WellFormed(c) && UniqueLabels(c) && a < |disk| && Bread(disk, c, p, dev, a).Some?
    ensures UniqueLabels(Bread(disk, c, p, dev, a).value.0)
  {
    BGetUnique(c, dev, a);
  }

  lemma NotFound(c: Cache, dev: nat, b: nat)
    requires WellFormed(c)
    ensures (forall j: nat :: j < NBUF ==> !c.buf[j].Holds(dev, b)) ==> Find(c.buf, c.lru, dev, b).None?
  {
  }

  // ----- where such a run stops early -----

  /** The process has a step to take and cannot take it: it waits for a buffer's lock, or bget panics
      for want of a buffer. */
  ghost predicate Blocked(l: Layout, m: Sys) {
    Inv(l, m) && Sane(l, m) && WellFormed(m.cache) && !m.phase.Idle? && NextLogStep(l, m) == None
  }

  ghost predicate BlockedAfter(l: Layout, s: Sys, k: nat) {
    match Exec(l, s, Repeat(k)) case Some(m) => Blocked(l, m) case None => false
  }

  /** The run from s comes to such a step. */
  ghost predicate StopsEarly(l: Layout, s: Sys) {
    exists k :: BlockedAfter(l, s, k)
  }

  predicate BothUnlocked(l: Layout, c: Cache, a: nat, b: nat)
    requires WellFormed(c)
  {
    Unlocked(c, l.dev, a) && Unlocked(c, l.dev, b)
  }

  /** The block write of the current step does not go through. */
  predicate Fails(l: Layout, m: Sys)
    requires Sane(l, m) && WellFormed(m.cache)
  {
    match m.phase
    case WriteLog(t) =>
      t < |m.lh| && (BothUnlocked(l, m.cache, Slot(l, t), m.lh[t]) ==>
                       CopyToLog(l, m.disk, m.cache, Slot(l, t), m.lh[t]) == None)
    case Install(t) =>
      t < |m.lh| && (BothUnlocked(l, m.cache, Slot(l, t), m.lh[t]) ==>
                       CopyHome(l, m.disk, m.cache, Slot(l, t), m.lh[t], true) == None)
    case Reinstall(t) =>
      t < |m.lh| && (BothUnlocked(l, m.cache, Slot(l, t), m.lh[t]) ==>
                       CopyHome(l, m.disk, m.cache, Slot(l, t), m.lh[t], false) == None)
    case WriteHead =>
      (forall k :: 0 <= k < |m.lh| ==> m.lh[k] < WORD_LIMIT)
      && (Unlocked(m.cache, l.dev, l.start) ==> StoreHead(l, m.disk, m.cache, m.lh) == None)
    case Erase => Unlocked(m.cache, l.dev, l.start) ==> StoreHead(l, m.disk, m.cache, []) == None
    case Clear => Unlocked(m.cache, l.dev, l.start) ==> StoreHead(l, m.disk, m.cache, []) == None
    case ReadLog => Unlocked(m.cache, l.dev, l.start) ==> Bread(m.disk, m.cache, KERNEL, l.dev, l.start) == None
    case _ => false
  }

  lemma FailsBlocks(l: Layout, s: Sys, k: nat, m: Sys)
    requires Inv(l, m) && Sane(l, m) && WellFormed(m.cache) && Exec(l, s, Repeat(k)) == Some(m) && Fails(l, m)
    ensures StopsEarly(l, s)
  {
    hide Inv, Exec, CopyToLog, CopyHome, StoreHead, Bread, Unlocked, WellFormed;
    assert NextLogStep(l, m) == None;
    assert BlockedAfter(l, s, k);
  }
}
