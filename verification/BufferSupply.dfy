/** Whether the cache has buffers enough for a commit. The cache has NBUF buffers, and every logged
    block keeps one of them until it is installed. */
module BufferSupply {
  import opened Blocks
  import opened BufferCache
  import opened CacheInvariant
  import opened LogMachine
  import opened LogSteps
  import opened LogSafety
  import opened CommitSafety
  import opened StorageTheorems
  import opened CommitRuns

  /** No process holds or waits for a buffer. */
  ghost predicate NoRefs(refs: seq<nat>) {
    forall i :: 0 <= i < |refs| ==> refs[i] == 0
  }

  /** The buffers that processes hold or wait for are among held. */
  ghost predicate HeldIn(refs: seq<nat>, held: set<nat>) {
    forall i: nat :: i < |refs| && refs[i] > 0 ==> i in held
  }

  // ----- counting buffers -----

  function Indices(n: nat): (s: set<nat>)
    ensures |s| == n && forall i: nat :: i in s <==> i < n
  {
    if n == 0 then {} else Indices(n - 1) + {n - 1}
  }

  lemma {:induction false} ElementsCount(s: seq<nat>)
    requires Distinct(s)
    ensures |Elements(s)| == |s|
    decreases |s|
  {
    if s == [] {
      assert Elements(s) == {};
    } else {
      var before, last := s[..|s| - 1], s[|s| - 1];
      ElementsCount(before);
      assert Elements(s) == Elements(before) + {last};
      assert last !in Elements(before);
    }
  }

  lemma {:induction false} SmallerSet(a: set<nat>, b: set<nat>)
    requires a <= b
    ensures |a| <= |b| && (|a| == |b| ==> a == b)
    decreases a
  {
    if a != {} {
      var x :| x in a;
      SmallerSet(a - {x}, b - {x});
    }
  }

  /** A buffer that is referenced is held by a process or pinned. */
  predicate Taken(l: Layout, c: Cache, refs: seq<nat>, pins: set<nat>, i: nat) {
    i < |c.buf| && i < |refs| && (refs[i] > 0 || (c.buf[i].dev == l.dev && c.buf[i].blockno in pins))
  }

  /** At most one buffer is taken for each pinned block and each held buffer. */
  lemma {:induction false} TakenFit(l: Layout, c: Cache, refs: seq<nat>, pins: set<nat>, held: set<nat>, ks: set<nat>)
    requires UniqueLabels(c) && l.dev != 0
    requires forall i :: i in ks ==> Taken(l, c, refs, pins, i) && (refs[i] > 0 ==> i in held)
    ensures |ks| <= |held| + |pins|
    decreases ks
  {
    if ks != {} {
      var i :| i in ks;
      if i in held {
        TakenFit(l, c, refs, pins, held - {i}, ks - {i});
      } else {
        TakenFit(l, c, refs, pins - {c.buf[i].blockno}, held, ks - {i});
      }
    }
  }

  /** Every block of a set is in a buffer of its own. */
  lemma {:induction false} BlocksFit(l: Layout, c: Cache, pins: set<nat>, ks: set<nat>)
    requires forall b :: b in pins ==> exists i :: i in ks && i < |c.buf| && c.buf[i].Holds(l.dev, b)
    ensures |pins| <= |ks|
    decreases pins
  {
    if pins != {} {
      var b :| b in pins;
      var i :| i in ks && i < |c.buf| && c.buf[i].Holds(l.dev, b);
      forall x | x in pins - {b} ensures exists j :: j in ks - {i} && j < |c.buf| && c.buf[j].Holds(l.dev, x) {
        var j :| j in ks && j < |c.buf| && c.buf[j].Holds(l.dev, x);
        assert j in ks - {i};
      }
      BlocksFit(l, c, pins - {b}, ks - {i});
    }
  }

  /** With fewer buffers taken than there are, bread finds one. */
  lemma BreadGoes(l: Layout, disk: seq<Block>, c: Cache, refs: seq<nat>, pins: set<nat>, held: set<nat>, b: nat)
    requires CacheInv(l, disk, c, refs, pins, pins) && WellFormed(c) && b < l.nblocks == |disk|
    requires HeldIn(refs, held) && |held| + |pins| < NBUF
    ensures Bread(disk, c, KERNEL, l.dev, b).Some?
  {
    hide Indices;
    if FindFree(c.buf, c.lru).None? {
      forall i: nat | i < NBUF ensures Taken(l, c, refs, pins, i) {
        assert i in c.lru;
      }
      TakenFit(l, c, refs, pins, held, Indices(NBUF));
    }
  }

  lemma CachedGoes(l: Layout, disk: seq<Block>, c: Cache, refs: seq<nat>, pins: set<nat>, b: nat)
    requires CacheInv(l, disk, c, refs, pins, pins) && WellFormed(c) && b < l.nblocks == |disk| && b in pins
    ensures Bread(disk, c, KERNEL, l.dev, b).Some?
  {
    assert Cached(c, l.dev, b);
    var i :| 0 <= i < |c.buf| && c.buf[i].Holds(l.dev, b) && c.buf[i].valid && c.buf[i].refcnt > 0;
    FindIs(c, l.dev, b, i);
  }

  /** One iteration of write_log or of a commit's install_trans: the home block is cached. */
  lemma CommitCopiesGo(l: Layout, disk: seq<Block>, c: Cache, refs: seq<nat>, pins: set<nat>, held: set<nat>,
                       slot: nat, home: nat, unpin: bool)
    requires CacheInv(l, disk, c, refs, pins, pins) && WellFormed(c) && HeldIn(refs, held) && |held| + |pins| < NBUF
    requires slot < l.nblocks == |disk| && home < l.nblocks && home in pins
    ensures CopyToLog(l, disk, c, slot, home).Some? && CopyHome(l, disk, c, slot, home, unpin).Some?
  {
    hide CacheInv, Bread, BRelse, View, WellFormed;
    Shape(l, disk, c, refs, pins, pins);
    BreadGoes(l, disk, c, refs, pins, held, slot);
    var (c1, i) := Bread(disk, c, KERNEL, l.dev, slot).value;
    BreadKeeps(l, disk, c, refs, pins, pins, KERNEL, slot);
    CachedGoes(l, disk, c1, refs[i := refs[i] + 1], pins, home);
  }

  /** One iteration of install_trans at boot: nothing is pinned, two buffers are enough. */
  lemma ReplayGoes(l: Layout, disk: seq<Block>, c: Cache, refs: seq<nat>, held: set<nat>, slot: nat, home: nat)
    requires CacheInv(l, disk, c, refs, {}, {}) && WellFormed(c) && HeldIn(refs, held) && |held| + 1 < NBUF
    requires slot < l.nblocks == |disk| && home < l.nblocks
    ensures CopyHome(l, disk, c, slot, home, false).Some?
  {
    hide CacheInv, Bread, BRelse, View, WellFormed;
    Shape(l, disk, c, refs, {}, {});
    BreadGoes(l, disk, c, refs, {}, held, slot);
    var (c1, i) := Bread(disk, c, KERNEL, l.dev, slot).value;
    BreadKeeps(l, disk, c, refs, {}, {}, KERNEL, slot);
    BreadGoes(l, disk, c1, refs[i := refs[i] + 1], {}, held + {i}, home);
  }

  lemma HeadGoes(l: Layout, disk: seq<Block>, c: Cache, refs: seq<nat>, pins: set<nat>, held: set<nat>, lh: seq<nat>)
    requires CacheInv(l, disk, c, refs, pins, pins) && WellFormed(c) && HeldIn(refs, held) && |held| + |pins| < NBUF
    requires l.start < l.nblocks == |disk|
    requires |lh| <= LOGSIZE && forall k :: 0 <= k < |lh| ==> lh[k] < WORD_LIMIT
    ensures Bread(disk, c, KERNEL, l.dev, l.start).Some? && StoreHead(l, disk, c, lh).Some?
  {
    BreadGoes(l, disk, c, refs, pins, held, l.start);
  }

  // ----- whole commits and recoveries -----

  lemma NoneLocked(l: Layout, s: Sys)
    requires Inv(l, s) && WellFormed(s.cache) && NoRefs(s.refs)
    ensures AllUnlocked(s.cache)
  {
    hide PhaseInv, Recoverable, View, WellFormed, UniqueLabels;
  }

  /** Buffers that a step of the current phase may need besides those pinned or held. */
  function Extra(phase: Phase): nat {
    if phase.Booting() then 1 else 0
  }

  /** While no buffer is locked and those pinned or held leave one over (at boot two), a commit or
      recovery can always take its next step. */
  lemma StepGoes(l: Layout, s: Sys, held: set<nat>)
    requires Inv(l, s) && Sane(l, s) && WellFormed(s.cache) && AllUnlocked(s.cache) && !s.phase.Idle?
    requires HeldIn(s.refs, held) && |held| + |Pins(s)| + Extra(s.phase) < NBUF
    ensures NextLogStep(l, s).Some?
  {
    hide Inv, CacheInv, View, WellFormed, Recoverable, DirtyHeld, Reserved, HeldIn, AllUnlocked, Unlocked, CopyToLog,
      CopyHome, StoreHead, Bread, Elements, BRelse;
    Parts(l, s);
    QuietDirty(s);
    match s.phase {
      case WriteLog(t) =>
        if t < |s.lh| {
          SlotsAreNotHome(l, s.lh, t);
          InElements(s.lh, t);
          PairUnlocked(s.cache, l.dev, Slot(l, t), s.lh[t]);
          CommitCopiesGo(l, s.disk, s.cache, s.refs, Pins(s), held, Slot(l, t), s.lh[t], true);
        }
      case Install(t) =>
        if t < |s.lh| {
          SlotsAreNotHome(l, s.lh, t);
          PinsAfterInstall(l, s.lh, t);
          PairUnlocked(s.cache, l.dev, Slot(l, t), s.lh[t]);
          CommitCopiesGo(l, s.disk, s.cache, s.refs, Pins(s), held, Slot(l, t), s.lh[t], true);
        }
      case Reinstall(t) =>
        if t < |s.lh| {
          SlotsAreNotHome(l, s.lh, t);
          PairUnlocked(s.cache, l.dev, Slot(l, t), s.lh[t]);
          ReplayGoes(l, s.disk, s.cache, s.refs, held, Slot(l, t), s.lh[t]);
        }
      case Finish =>
      case _ =>
        AllUnlockedBoth(s.cache, l.dev, l.start);
        HeadGoes(l, s.disk, s.cache, s.refs, Pins(s), held, s.lh);
        HeadGoes(l, s.disk, s.cache, s.refs, Pins(s), held, []);
    }
  }

  lemma PairUnlocked(c: Cache, dev: nat, a: nat, b: nat)
    requires WellFormed(c) && AllUnlocked(c)
    ensures Unlocked(c, dev, a) && Unlocked(c, dev, b)
  {
    AllUnlockedBoth(c, dev, a);
    AllUnlockedBoth(c, dev, b);
  }

  lemma InElements(lh: seq<nat>, t: nat)
    requires t < |lh|
    ensures lh[t] in Elements(lh)
  {
  }

  /** A step of a commit or recovery takes no reference and pins nothing. */
  lemma StepPins(l: Layout, s: Sys, s': Sys)
    requires Inv(l, s) && Sane(l, s) && WellFormed(s.cache) && NextLogStep(l, s) == Some(s')
    ensures s'.refs == s.refs && Pins(s') <= Pins(s) && !s.phase.Idle? && Extra(s'.phase) <= Extra(s.phase)
  {
    hide Inv, CacheInv, View, WellFormed, Recoverable, DirtyHeld, Reserved, GoodList, CopyToLog, CopyHome, StoreHead,
      Bread, Unlocked, BRelse;
    Parts(l, s);
  }

  lemma CopiesUnlock(l: Layout, disk: seq<Block>, c: Cache, slot: nat, home: nat, unpin: bool)
    requires WellFormed(c) && AllUnlocked(c) && slot < |disk| && home < |disk| && slot != home
    ensures CopyToLog(l, disk, c, slot, home).Some? ==> AllUnlocked(CopyToLog(l, disk, c, slot, home).value.cache)
    ensures CopyHome(l, disk, c, slot, home, unpin).Some? ==>
              AllUnlocked(CopyHome(l, disk, c, slot, home, unpin).value.cache)
  {
    hide Bread;
    if Bread(disk, c, KERNEL, l.dev, slot).Some? {
      BreadOne(disk, c, KERNEL, l.dev, slot);
      var c1 := Bread(disk, c, KERNEL, l.dev, slot).value.0;
      if Bread(disk, c1, KERNEL, l.dev, home).Some? {
        BreadOne(disk, c1, KERNEL, l.dev, home);
      }
    }
  }

  lemma HeadUnlocks(l: Layout, disk: seq<Block>, c: Cache, lh: seq<nat>)
    requires WellFormed(c) && AllUnlocked(c) && l.start < |disk|
    requires |lh| <= LOGSIZE && forall k :: 0 <= k < |lh| ==> lh[k] < WORD_LIMIT
    ensures StoreHead(l, disk, c, lh).Some? ==> AllUnlocked(StoreHead(l, disk, c, lh).value.cache)
    ensures Bread(disk, c, KERNEL, l.dev, l.start).Some? ==>
              var (c1, i) := Bread(disk, c, KERNEL, l.dev, l.start).value; AllUnlocked(BRelse(c1, i))
  {
    hide Bread;
    if Bread(disk, c, KERNEL, l.dev, l.start).Some? {
      BreadOne(disk, c, KERNEL, l.dev, l.start);
    }
  }

  /** It leaves no buffer locked. */
  lemma StepUnlocks(l: Layout, s: Sys, s': Sys)
    requires Inv(l, s) && Sane(l, s) && WellFormed(s.cache) && AllUnlocked(s.cache) && NextLogStep(l, s) == Some(s')
    ensures AllUnlocked(s'.cache)
  {
    hide Inv, CacheInv, View, WellFormed, Recoverable, DirtyHeld, Reserved, CopyToLog, CopyHome, StoreHead, Bread,
      Unlocked, BRelse, AllUnlocked, PhaseInv;
    Parts(l, s);
    HeadUnlocks(l, s.disk, s.cache, s.lh);
    HeadUnlocks(l, s.disk, s.cache, []);
    forall t: nat | t < |s.lh|
      ensures (CopyToLog(l, s.disk, s.cache, Slot(l, t), s.lh[t]).Some? ==>
                 AllUnlocked(CopyToLog(l, s.disk, s.cache, Slot(l, t), s.lh[t]).value.cache))
      ensures forall unpin :: (CopyHome(l, s.disk, s.cache, Slot(l, t), s.lh[t], unpin).Some? ==>
                 AllUnlocked(CopyHome(l, s.disk, s.cache, Slot(l, t), s.lh[t], unpin).value.cache))
    {
      SlotsAreNotHome(l, s.lh, t);
      CopiesUnlock(l, s.disk, s.cache, Slot(l, t), s.lh[t], true);
      CopiesUnlock(l, s.disk, s.cache, Slot(l, t), s.lh[t], false);
    }
  }

  lemma {:induction false} RunPins(l: Layout, s: Sys, k: nat, m: Sys)
    requires Inv(l, s) && WellFormed(s.cache) && |s.committed| == l.nblocks && Exec(l, s, Repeat(k)) == Some(m)
    requires AllUnlocked(s.cache)
    ensures Inv(l, m) && WellFormed(m.cache) && m.refs == s.refs && Pins(m) <= Pins(s)
    ensures AllUnlocked(m.cache) && Extra(m.phase) <= Extra(s.phase)
    decreases k
  {
    hide Inv, CacheInv, View, WellFormed, NextLogStep, Abs, ApplyAll, Pins, AllUnlocked, Extra;
    RunRefines(l, s, Repeat(k), m);
    if k > 0 {
      assert Repeat(k)[..k - 1] == Repeat(k - 1);
      var before := Exec(l, s, Repeat(k - 1)).value;
      RunPins(l, s, k - 1, before);
      StepPins(l, before, m);
      StepUnlocks(l, before, m);
    }
  }

  /** So it goes through to its end. */
  lemma SupplySuffices(l: Layout, s: Sys, held: set<nat>)
    requires Inv(l, s) && WellFormed(s.cache) && |s.committed| == l.nblocks && AllUnlocked(s.cache)
    requires HeldIn(s.refs, held) && |held| + |Pins(s)| + Extra(s.phase) < NBUF
    ensures !StopsEarly(l, s)
  {
    hide Inv, CacheInv, View, WellFormed, NextLogStep, Exec, Pins, Repeat, AllUnlocked, HeldIn, Extra;
    if StopsEarly(l, s) {
      var k :| BlockedAfter(l, s, k);
      var m := Exec(l, s, Repeat(k)).value;
      RunPins(l, s, k, m);
      SmallerSet(Pins(m), Pins(s));
      StepGoes(l, m, held);
      assert false;
    }
  }

  /** With NBUF blocks cached and referenced, every buffer holds one of them. */
  lemma AllPinned(l: Layout, c: Cache, pins: set<nat>)
    requires (forall b :: b in pins ==> Cached(c, l.dev, b)) && |pins| == NBUF == |c.buf|
    ensures forall i: nat :: i < NBUF ==> c.buf[i].refcnt > 0 && c.buf[i].blockno in pins
  {
    hide Cached, Indices;
    var ks := set i | i in Indices(NBUF) && c.buf[i].refcnt > 0 && c.buf[i].blockno in pins;
    forall b | b in pins ensures exists i :: i in ks && i < |c.buf| && c.buf[i].Holds(l.dev, b) {
      var i := BufferFor(l, c, b);
      assert i in ks;
    }
    BlocksFit(l, c, pins, ks);
    SmallerSet(ks, Indices(NBUF));
    assert ks == Indices(NBUF);
    forall i: nat | i < NBUF ensures c.buf[i].refcnt > 0 && c.buf[i].blockno in pins {
      assert i in ks;
    }
  }

  lemma BufferFor(l: Layout, c: Cache, b: nat) returns (i: nat)
    requires Cached(c, l.dev, b)
    ensures i < |c.buf| && c.buf[i].Holds(l.dev, b) && c.buf[i].refcnt > 0
  {
    i :| 0 <= i < |c.buf| && c.buf[i].Holds(l.dev, b) && c.buf[i].valid && c.buf[i].refcnt > 0;
  }

  /** ... so bread of any other block panics. */
  lemma NoBufferFor(l: Layout, disk: seq<Block>, c: Cache, refs: seq<nat>, pins: set<nat>, b: nat)
    requires CacheInv(l, disk, c, refs, pins, pins) && WellFormed(c) && |pins| == NBUF && b < |disk| && b !in pins
    ensures Bread(disk, c, KERNEL, l.dev, b) == None
  {
    AllPinned(l, c, pins);
  }

  /** With NBUF blocks logged, write_log cannot read its first slot. */
  lemma FullLogBlocks(l: Layout, s: Sys)
    requires Inv(l, s) && Sane(l, s) && WellFormed(s.cache) && s.phase == WriteLog(0) && |s.lh| == NBUF
    ensures CopyToLog(l, s.disk, s.cache, Slot(l, 0), s.lh[0]) == None
  {
    hide Inv, CacheInv, View, WellFormed, Recoverable, DirtyHeld, Reserved, Bread, BRelse, Elements;
    Parts(l, s);
    QuietDirty(s);
    SlotsAreNotHome(l, s.lh, 0);
    ElementsCount(s.lh);
    NoBufferFor(l, s.disk, s.cache, s.refs, Elements(s.lh), Slot(l, 0));
  }

  /** A commit of NBUF blocks always stops; one of fewer goes through as long as no buffer is locked
      and other processes do not hold those that are left. So a commit that no process disturbs
      stops exactly if NBUF blocks are logged. */
  lemma CommitStopsIff(l: Layout, s: Sys, held: set<nat>)
    requires Inv(l, s) && WellFormed(s.cache) && |s.committed| == l.nblocks && s.phase == WriteLog(0)
    ensures |s.lh| == NBUF ==> StopsEarly(l, s)
    ensures AllUnlocked(s.cache) && HeldIn(s.refs, held) && |held| + |s.lh| < NBUF ==> !StopsEarly(l, s)
    ensures NoRefs(s.refs) ==> (StopsEarly(l, s) <==> |s.lh| == NBUF)
  {
    if NoRefs(s.refs) {
      NoneLocked(l, s);
    }
    hide Inv, CacheInv, View, WellFormed, NextLogStep, Exec, StopsEarly, AllUnlocked, CopyToLog, CopyHome, StoreHead,
      Bread, PhaseInv, Recoverable;
    Parts(l, s);
    ElementsCount(s.lh);
    if |s.lh| == NBUF {
      FullLogBlocks(l, s);
      ExecNothing(l, s);
      FailsBlocks(l, s, 0, s);
    } else {
      if AllUnlocked(s.cache) && HeldIn(s.refs, held) && |held| + |s.lh| < NBUF {
        SupplySuffices(l, s, held);
      }
      if NoRefs(s.refs) {
        SupplySuffices(l, s, {});
      }
    }
  }

  /** With the log that mkfs makes a commit goes through while no process holds a buffer; and so does
      a recovery with any log, even while all buffers but two are held. */
  lemma SmallLogSuffices(l: Layout, s: Sys, held: set<nat>)
    requires Inv(l, s) && WellFormed(s.cache) && |s.committed| == l.nblocks && AllUnlocked(s.cache)
             && HeldIn(s.refs, held)
    requires if s.phase.Booting() then |held| + 1 < NBUF else |held| + l.size <= NBUF
    ensures !StopsEarly(l, s)
  {
    hide Inv, CacheInv, View, WellFormed, StopsEarly, HeldIn, PhaseInv, Recoverable, AllUnlocked;
    Parts(l, s);
    PinsCount(l, s);
    SupplySuffices(l, s, held);
  }

  lemma PinsCount(l: Layout, s: Sys)
    requires GoodList(l, s.lh)
    ensures |Pins(s)| <= |s.lh| && (s.phase.Booting() ==> Pins(s) == {})
  {
    ElementsCount(s.lh);
    forall t: nat | t <= |s.lh| ensures |Elements(s.lh[t..])| <= |s.lh| {
      SmallerSet(Elements(s.lh[t..]), Elements(s.lh));
    }
  }
}
