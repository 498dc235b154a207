/** How full the log can get: runs from power-on that fill it to its last slot. */
module LogReach {
  import opened Blocks
  import opened BufferCache
  import opened CacheInvariant
  import opened LogMachine
  import opened LogSteps
  import opened LogSafety
  import opened CommitSafety
  import opened StorageTheorems
  import opened CommitRuns
  import opened BufferSupply

  /** Some run leads from s to s'. */
  ghost predicate Reaches(l: Layout, s: Sys, s': Sys) {
    exists steps :: Exec(l, s, steps) == Some(s')
  }

  lemma ReachesSelf(l: Layout, s: Sys)
    ensures Reaches(l, s, s)
  {
    assert Exec(l, s, []) == Some(s);
  }

  lemma ReachesMore(l: Layout, s: Sys, m: Sys, step: Step, s': Sys)
    requires Reaches(l, s, m) && Sane(l, m) && WellFormed(m.cache) && Do(l, m, step) == Some(s')
    ensures Reaches(l, s, s')
  {
    hide Do, Sane, WellFormed;
    var steps :| Exec(l, s, steps) == Some(m);
    var more := steps + [step];
    assert more[..|more| - 1] == steps && more[|more| - 1] == step;
    assert Exec(l, s, more) == Some(s');
  }

  /** Between operations on buffers: nobody holds one, none is edited, no commit runs. */
  ghost predicate Calm(l: Layout, s: Sys) {
    && Inv(l, s) && WellFormed(s.cache) && |s.committed| == l.nblocks && Sane(l, s)
    && s.phase.Idle? && NoRefs(s.refs) && s.dirty == {}
  }

  lemma InvOf(l: Layout, s: Sys)
    requires Inv(l, s)
    ensures Sane(l, s) && WellFormed(s.cache) && |s.committed| == l.nblocks
  {
    Parts(l, s);
  }

  /** One step of recovery. */
  lemma BootStep(l: Layout, s0: Sys, s: Sys) returns (s': Sys)
    requires Reaches(l, s0, s) && Inv(l, s) && s.phase.Booting() && NoRefs(s.refs)
    ensures Reaches(l, s0, s') && Inv(l, s') && Sane(l, s) && WellFormed(s.cache) && NextLogStep(l, s) == Some(s')
  {
    hide Inv, CacheInv, WellFormed, NextLogStep, Exec, Reaches, Abs, AllUnlocked;
    InvOf(l, s);
    Parts(l, s);
    PinsCount(l, s);
    NoneLocked(l, s);
    StepGoes(l, s, {});
    s' := NextLogStep(l, s).value;
    StepRefines(l, s, LogStep, s');
    ReachesMore(l, s0, s, LogStep, s');
  }

  /** Booting from a disk with an empty log. */
  lemma Boots(l: Layout, disk: seq<Block>) returns (s: Sys)
    requires l.Good() && |disk| == l.nblocks && HeadCount(disk[l.start]) == 0
    ensures GoodHead(l, disk[l.start]) && Reaches(l, PowerOn(l, disk), s) && Calm(l, s) && s.ops == map[] && s.lh == []
  {
    hide Inv, CacheInv, WellFormed, NextLogStep, Exec, Reaches, CopyHome, StoreHead, Bread, BRelse, View, Durable;
    BlankLogBoots(l, disk);
    var s0 := PowerOn(l, disk);
    ReachesSelf(l, s0);
    var s1 := BootStep(l, s0, s0);
    ReadsNothing(l, s0, s1);
    var s2 := BootStep(l, s0, s1);
    LeavesReplay(l, s1, s2);
    s := BootStep(l, s0, s2);
    EndsBoot(l, s2, s);
    InvOf(l, s);
  }

  lemma ReadsNothing(l: Layout, s: Sys, s': Sys)
    requires Inv(l, s) && Sane(l, s) && WellFormed(s.cache) && NextLogStep(l, s) == Some(s') && s.phase.ReadLog?
    requires Inv(l, s') && HeadCount(s.disk[l.start]) == 0
    ensures s'.phase == Reinstall(0) && s'.lh == [] && s'.refs == s.refs && s'.ops == s.ops && s'.dirty == s.dirty
  {
    hide CacheInv, View, Recoverable, GoodList, DirtyHeld, Reserved, Bread, BRelse;
    Parts(l, s');
  }

  lemma LeavesReplay(l: Layout, s: Sys, s': Sys)
    requires Sane(l, s) && WellFormed(s.cache) && NextLogStep(l, s) == Some(s') && s.phase == Reinstall(0) && s.lh == []
    ensures s'.phase == Clear && s'.lh == [] && s'.refs == s.refs && s'.ops == s.ops && s'.dirty == s.dirty
  {
  }

  lemma EndsBoot(l: Layout, s: Sys, s': Sys)
    requires Sane(l, s) && WellFormed(s.cache) && NextLogStep(l, s) == Some(s') && s.phase == Clear
    ensures s'.phase == Idle && s'.lh == s.lh && s'.refs == s.refs && s'.ops == s.ops && s'.dirty == s.dirty
  {
    hide StoreHead;
  }

  /** begin_op goes through. */
  lemma Admits(l: Layout, s0: Sys, s: Sys, p: Pid) returns (s': Sys)
    requires Reaches(l, s0, s) && Calm(l, s) && p != KERNEL && p !in s.ops && MayBegin(s)
    ensures Reaches(l, s0, s') && Calm(l, s') && s' == s.(ops := s.ops[p := 0])
  {
    hide Inv, WellFormed, Sane, NoRefs;
    s' := s.(ops := s.ops[p := 0]);
    BeginStep(l, s, p, s');
    InvOf(l, s');
    ReachesMore(l, s0, s, BeginOp(p), s');
  }

  /** end_op. */
  lemma Finishes(l: Layout, s0: Sys, s: Sys, p: Pid) returns (s': Sys)
    requires Reaches(l, s0, s) && Inv(l, s) && Sane(l, s) && WellFormed(s.cache) && s.dirty == {} && p in s.ops
    ensures Reaches(l, s0, s') && Inv(l, s') && Sane(l, s') && WellFormed(s'.cache) && DoEnd(l, s, p) == Some(s')
  {
    hide Inv, WellFormed, Sane;
    s' := DoEnd(l, s, p).value;
    EndStep(l, s, p, s');
    InvOf(l, s');
    ReachesMore(l, s0, s, EndOp(p), s');
  }

  // ----- one block logged -----

  /** One process holds buffer i with block b, nobody holds another one, and nothing else differs from s. */
  ghost predicate Holding(l: Layout, s: Sys, m: Sys, b: nat, i: nat) {
    && Inv(l, m) && Sane(l, m) && WellFormed(m.cache) && i < NBUF == |s.refs|
    && m == s.(cache := m.cache, refs := s.refs[i := 1])
    && m.cache.buf[i].Holds(l.dev, b)
  }

  /** Fewer blocks are pinned than there are buffers, so bget has one, and nobody has it locked. */
  lemma HasBuffer(l: Layout, s: Sys, b: nat)
    requires Calm(l, s) && b < l.nblocks && |s.lh| < NBUF
    ensures BGet(s.cache, l.dev, b).Some?
    ensures var (c, i) := BGet(s.cache, l.dev, b).value;
            WellFormed(c) && i < NBUF == |s.refs| && c.buf[i].Holds(l.dev, b) && c.buf[i].owner.None? && s.refs[i] == 0
  {
    NoneLocked(l, s);
    Parts(l, s);
    QuietDirty(s);
    PinsCount(l, s);
    hide Inv, CacheInv, View, WellFormed, Sane, Pins, PhaseInv, Recoverable, GoodList, Reserved, DirtyHeld, SameView,
      Find, FindFree;
    BreadGoes(l, s.disk, s.cache, s.refs, Pins(s), {}, b);
    GetKeeps(l, s.disk, s.cache, s.refs, Pins(s), Pins(s), b);
  }

  lemma GetIs(l: Layout, s: Sys, b: nat) returns (m: Sys, i: nat)
    requires Sane(l, s) && WellFormed(s.cache) && !s.phase.Booting() && b < l.nblocks
    requires BGet(s.cache, l.dev, b).Some? && BGet(s.cache, l.dev, b).value.1 < |s.refs|
    ensures i == BGet(s.cache, l.dev, b).value.1 && DoGet(l, s, b) == Some(m)
    ensures m == s.(cache := BGet(s.cache, l.dev, b).value.0, refs := s.refs[i := s.refs[i] + 1])
  {
    hide BGet, WellFormed;
    m, i := DoGet(l, s, b).value, BGet(s.cache, l.dev, b).value.1;
  }

  lemma Gets(l: Layout, s0: Sys, s: Sys, b: nat) returns (m: Sys, i: nat)
    requires Reaches(l, s0, s) && Calm(l, s) && b < l.nblocks && |s.lh| < NBUF
    ensures Reaches(l, s0, m) && Holding(l, s, m, b, i) && m.cache.buf[i].owner.None?
  {
    HasBuffer(l, s, b);
    hide Inv, WellFormed, Reaches, DoGet, NoRefs, Sane, BGet, View, Holding;
    m, i := GetIs(l, s, b);
    GetReached(l, s0, s, b, m);
    IsHolding(l, s, m, b, i);
  }

  lemma GetReached(l: Layout, s0: Sys, s: Sys, b: nat, m: Sys)
    requires Reaches(l, s0, s) && Inv(l, s) && Sane(l, s) && WellFormed(s.cache) && DoGet(l, s, b) == Some(m)
    ensures Reaches(l, s0, m) && Inv(l, m) && Sane(l, m) && WellFormed(m.cache)
  {
    hide Inv, WellFormed, Reaches, DoGet, Sane, View;
    GetStep(l, s, b, m);
    InvOf(l, m);
    ReachesMore(l, s0, s, Get(b), m);
  }

  lemma IsHolding(l: Layout, s: Sys, m: Sys, b: nat, i: nat)
    requires Inv(l, m) && Sane(l, m) && WellFormed(m.cache) && i < NBUF == |s.refs| && s.refs[i] == 0
    requires m == s.(cache := m.cache, refs := s.refs[i := s.refs[i] + 1]) && m.cache.buf[i].Holds(l.dev, b)
    ensures Holding(l, s, m, b, i)
  {
    hide Inv, Sane, WellFormed;
  }

  lemma Locks(l: Layout, s0: Sys, s: Sys, m: Sys, p: Pid, b: nat, i: nat) returns (m': Sys)
    requires Reaches(l, s0, m) && Holding(l, s, m, b, i) && m.cache.buf[i].owner.None? && p != KERNEL
    ensures Reaches(l, s0, m') && Holding(l, s, m', b, i) && m'.cache.buf[i].owner == Some(p)
  {
    hide Inv, WellFormed, Reaches;
    m' := m.(cache := Lock(m.cache, i, p));
    assert DoLock(l, m, p, i) == Some(m');
    LockStep(l, m, p, i, m');
    InvOf(l, m');
    ReachesMore(l, s0, m, LockBuf(p, i), m');
  }

  lemma Fills(l: Layout, s0: Sys, s: Sys, m: Sys, p: Pid, b: nat, i: nat) returns (m': Sys)
    requires Reaches(l, s0, m) && Holding(l, s, m, b, i) && m.cache.buf[i].owner == Some(p) && b < l.nblocks
    ensures Reaches(l, s0, m') && Holding(l, s, m', b, i) && m'.cache.buf[i].owner == Some(p) && m'.cache.buf[i].valid
  {
    hide Inv, WellFormed, Reaches;
    m' := m.(cache := Fill(m.disk, m.cache, i));
    assert DoFill(l, m, p, i) == Some(m');
    FillStep(l, m, p, i, m');
    InvOf(l, m');
    ReachesMore(l, s0, m, FillBuf(p, i), m');
  }

  /** bread, log_write and brelse of a block that is not logged yet. */
  lemma LogsOne(l: Layout, s0: Sys, s: Sys, p: Pid, b: nat) returns (s': Sys)
    requires Reaches(l, s0, s) && Calm(l, s) && l.Home(b) && b !in s.lh && |s.lh| < NBUF
    requires p in s.ops && p != KERNEL && s.ops[p] < MAXOPBLOCKS && !LogWritePanics(l, s)
    ensures Reaches(l, s0, s') && Calm(l, s')
    ensures s'.lh == s.lh + [b] && s'.ops == s.ops[p := s.ops[p] + 1]
  {
    hide Inv, WellFormed, Reaches, View, BRelse, BPin;
    var m, i := Gets(l, s0, s, b);
    m := Locks(l, s0, s, m, p, b, i);
    m := Fills(l, s0, s, m, p, b, i);
    var m' := m.(lh := m.lh + [b], cache := BPin(m.cache, i), ops := m.ops[p := m.ops[p] + 1]);
    assert m.dirty - {i} == m.dirty;
    assert DoLogWrite(l, m, p, i) == Some(m');
    LogWriteStep(l, m, p, i, m');
    InvOf(l, m');
    ReachesMore(l, s0, m, LogWrite(p, i), m');
    PinnedStays(m.cache, i);
    s' := m'.(cache := BRelse(m'.cache, i), refs := m'.refs[i := m'.refs[i] - 1]);
    assert DoRelease(l, m', p, i) == Some(s');
    ReleaseStep(l, m', p, i, s');
    InvOf(l, s');
    ReachesMore(l, s0, m', Release(p, i), s');
  }

  lemma PinnedStays(c: Cache, i: nat)
    requires i < |c.buf|
    ensures |BPin(c, i).buf| == |c.buf| && BPin(c, i).buf[i].owner == c.buf[i].owner
  {
  }

  // ----- a full log -----

  function Dealt(j: nat, k: nat): nat {
    if j < MAXOPBLOCKS * k then 0 else if j < MAXOPBLOCKS * (k + 1) then j - MAXOPBLOCKS * k else MAXOPBLOCKS
  }

  /** Three operations that have logged j blocks, the first ten of them by the first and so on. */
  function ThreeOps(j: nat): map<Pid, nat> {
    map[1 := Dealt(j, 0), 2 := Dealt(j, 1), 3 := Dealt(j, 2)]
  }

  /** LOGSIZE different home blocks. */
  ghost predicate Homes(l: Layout, homes: seq<nat>) {
    |homes| == LOGSIZE && Distinct(homes) && forall k :: 0 <= k < LOGSIZE ==> l.Home(homes[k])
  }

  function Longest(l: Layout): int {
    if l.size > LOGSIZE then LOGSIZE else l.size - 1
  }

  lemma ThreeAdmitted(l: Layout, disk: seq<Block>) returns (s: Sys)
    requires l.Good() && |disk| == l.nblocks && HeadCount(disk[l.start]) == 0
    ensures GoodHead(l, disk[l.start]) && Reaches(l, PowerOn(l, disk), s) && Calm(l, s)
    ensures s.ops == ThreeOps(0) && s.lh == []
  {
    hide Calm, Reaches, PowerOn;
    s := Boots(l, disk);
    var s0 := PowerOn(l, disk);
    CalmIdle(l, s);
    s := Admits(l, s0, s, 1);
    CalmIdle(l, s);
    s := Admits(l, s0, s, 2);
    CalmIdle(l, s);
    s := Admits(l, s0, s, 3);
  }

  lemma CalmIdle(l: Layout, s: Sys)
    requires Calm(l, s)
    ensures s.phase.Idle?
  {
  }

  /** Those three can log as many blocks as the log takes. */
  lemma {:induction false} FillsUp(l: Layout, disk: seq<Block>, homes: seq<nat>, j: nat) returns (s: Sys)
    requires l.Good() && |disk| == l.nblocks && HeadCount(disk[l.start]) == 0 && Homes(l, homes) && j <= Longest(l)
    ensures GoodHead(l, disk[l.start]) && Reaches(l, PowerOn(l, disk), s) && Calm(l, s)
    ensures s.lh == homes[..j] && s.ops == ThreeOps(j)
    decreases j
  {
    hide Calm, Reaches, PowerOn, Distinct, ThreeOps, GoodHead, LogWritePanics, Inv, WellFormed, HeadCount;
    if j == 0 {
      s := ThreeAdmitted(l, disk);
    } else {
      s := FillsUp(l, disk, homes, j - 1);
      s := FillsOne(l, PowerOn(l, disk), s, homes, j - 1);
    }
  }

  lemma FillsOne(l: Layout, s0: Sys, s: Sys, homes: seq<nat>, j: nat) returns (s': Sys)
    requires Reaches(l, s0, s) && Calm(l, s) && Homes(l, homes) && j < Longest(l)
    requires s.lh == homes[..j] && s.ops == ThreeOps(j)
    ensures Reaches(l, s0, s') && Calm(l, s') && s'.lh == homes[..j + 1] && s'.ops == ThreeOps(j + 1)
  {
    hide Calm, Reaches, Distinct, ThreeOps, Inv, WellFormed;
    NotYet(homes, j);
    DealtMore(j);
    s' := LogsOne(l, s0, s, 1 + j / MAXOPBLOCKS, homes[j]);
    assert homes[..j] + [homes[j]] == homes[..j + 1];
  }

  lemma DealtMore(j: nat)
    requires j < LOGSIZE
    ensures var p := 1 + j / MAXOPBLOCKS;
            && p in ThreeOps(j) && ThreeOps(j)[p] < MAXOPBLOCKS && |ThreeOps(j)| >= 1
            && ThreeOps(j)[p := ThreeOps(j)[p] + 1] == ThreeOps(j + 1)
  {
  }

  lemma NotYet(homes: seq<nat>, j: nat)
    requires Distinct(homes) && j < |homes|
    ensures homes[j] !in homes[..j]
  {
  }

  /** For every log there is a run in which log_write panics for an operation that still has u blocks
      reserved, exactly if u is within what the log lacks. So with mkfs's log, of LOGSIZE blocks, an
      operation may find it panicking with its last reserved block, but never with two. */
  lemma ReservedPanicIff(l: Layout, disk: seq<Block>, homes: seq<nat>, u: nat)
    requires l.Good() && |disk| == l.nblocks && HeadCount(disk[l.start]) == 0 && Homes(l, homes) && u <= MAXOPBLOCKS
    ensures GoodHead(l, disk[l.start])
    ensures (exists s, p :: (Reaches(l, PowerOn(l, disk), s) && p in s.ops
                             && s.ops[p] + u <= MAXOPBLOCKS && LogWritePanics(l, s)))
            <==> u <= Slack(l)
  {
    hide Calm, Reaches, PowerOn, Inv;
    var s := FillsUp(l, disk, homes, Longest(l));
    if u <= Slack(l) {
      assert 3 in s.ops && s.ops[3] + u <= MAXOPBLOCKS && LogWritePanics(l, s);
    }
    forall s', p | Reaches(l, PowerOn(l, disk), s') && p in s'.ops && s'.ops[p] + u <= MAXOPBLOCKS
        && LogWritePanics(l, s')
      ensures u <= Slack(l)
    {
      ReachedInv(l, disk, s');
      LogWritePanicsIff(l, s', p);
    }
  }

  /** ... and there is a run to the very call: p has read another block, with some of its blocks still
      reserved, and log_write panics. */
  lemma PanicsAtCall(l: Layout, disk: seq<Block>, homes: seq<nat>) returns (s: Sys, p: Pid, i: nat)
    requires l.Good() && |disk| == l.nblocks && HeadCount(disk[l.start]) == 0 && Homes(l, homes) && l.size <= LOGSIZE
    ensures GoodHead(l, disk[l.start]) && Reaches(l, PowerOn(l, disk), s)
    ensures p in s.ops && s.ops[p] < MAXOPBLOCKS && LogWritePanics(l, s)
    ensures i < |s.cache.buf| && s.cache.buf[i].owner == Some(p) && s.cache.buf[i].valid
            && l.Home(s.cache.buf[i].blockno) && s.cache.buf[i].blockno !in s.lh
  {
    hide Calm, Reaches, PowerOn, Inv;
    var j := l.size - 1;
    var m := FillsUp(l, disk, homes, j);
    var s0 := PowerOn(l, disk);
    NotYet(homes, j);
    p := 3;
    s, i := Gets(l, s0, m, homes[j]);
    s := Locks(l, s0, m, s, p, homes[j], i);
    s := Fills(l, s0, m, s, p, homes[j], i);
  }

  lemma ReachedInv(l: Layout, disk: seq<Block>, s: Sys)
    requires l.Good() && |disk| == l.nblocks && GoodHead(l, disk[l.start]) && Reaches(l, PowerOn(l, disk), s)
    ensures Inv(l, s)
  {
    hide Inv, CacheInv, WellFormed, Abs, GoodHead, PowerOn;
    PowerOnInv(l, disk);
    var steps :| Exec(l, PowerOn(l, disk), steps) == Some(s);
    RunRefines(l, PowerOn(l, disk), steps, s);
  }

  /** On a log that has room for LOGSIZE blocks there is a run to a commit that must fail: NBUF
      blocks are logged, no process holds a buffer, and none is left for write_log. */
  lemma FullCommit(l: Layout, disk: seq<Block>, homes: seq<nat>) returns (s: Sys)
    requires l.Good() && |disk| == l.nblocks && HeadCount(disk[l.start]) == 0 && Homes(l, homes) && l.size > LOGSIZE
    ensures GoodHead(l, disk[l.start]) && Reaches(l, PowerOn(l, disk), s) && Inv(l, s) && WellFormed(s.cache)
    ensures s.phase == WriteLog(0) && |s.lh| == NBUF && NoRefs(s.refs) && StopsEarly(l, s)
  {
    hide Reaches, PowerOn, Inv, WellFormed, StopsEarly;
    s := FillsUp(l, disk, homes, LOGSIZE);
    var s0 := PowerOn(l, disk);
    s := Finishes(l, s0, s, 1);
    s := Finishes(l, s0, s, 2);
    s := Finishes(l, s0, s, 3);
    Parts(l, s);
    CommitStopsIff(l, s, {});
  }
}
