/** commit() and recover_from_log(), one block write at a time, and power failures. */
module CommitSafety {
  import opened Blocks
  import opened BufferCache
  import opened CacheInvariant
  import opened LogMachine
  import opened LogSteps
  import opened LogSafety

  lemma IndexOfDistinct(lh: seq<nat>, k: nat)
    requires Distinct(lh) && k < |lh|
    ensures IndexOf(lh, lh[k]) == Some(k)
  {
  }

  lemma NoHeadDurable(l: Layout, disk: seq<Block>)
    requires l.Good() && |disk| == l.nblocks && HeadCount(disk[l.start]) == 0
    ensures GoodHead(l, disk[l.start])
    ensures forall b: nat :: l.Home(b) ==> Durable(l, disk, b) == disk[b]
  {
  }

  /** Before the header is written, only home blocks matter. */
  lemma RecoverableUnlogged(l: Layout, disk: seq<Block>, disk': seq<Block>, committed: seq<Block>)
    requires l.Good() && |disk| == |disk'| == l.nblocks == |committed| && Recoverable(l, disk, committed)
    requires HeadCount(disk[l.start]) == 0 == HeadCount(disk'[l.start])
    requires forall b: nat :: l.Home(b) ==> disk'[b] == disk[b]
    ensures Recoverable(l, disk', committed)
  {
    NoHeadDurable(l, disk);
    NoHeadDurable(l, disk');
  }

  lemma SlotsAreNotHome(l: Layout, lh: seq<nat>, t: nat)
    requires l.Good() && GoodList(l, lh) && t < |lh|
    ensures Slot(l, t) < l.nblocks && !l.Home(Slot(l, t)) && Slot(l, t) !in Elements(lh)
    ensures l.Home(lh[t]) && lh[t] != Slot(l, t) && Slot(l, t) != l.start
    ensures forall b: nat :: l.Home(b) ==> b != Slot(l, t) && b != l.start
  {
  }

  lemma QuietDirty(s: Sys)
    requires s.dirty == {}
    ensures Dirty(s) == {} && Pins(s) + Dirty(s) == Pins(s)
  {
  }

  /** What a step of the committing process keeps besides the disk. */
  lemma WholeQuiet(l: Layout, s: Sys)
    requires Sane(l, s) && WellFormed(s.cache) && Quiet(s) && GoodList(l, s.lh)
    requires CacheInv(l, s.disk, s.cache, s.refs, Pins(s), Pins(s))
    requires |s.committed| == l.nblocks && PhaseInv(l, s) && Recoverable(l, s.disk, s.committed)
    ensures Inv(l, s)
  {
    hide CacheInv, PhaseInv, Recoverable, GoodList, Pins;
    QuietDirty(s);
    assert Reserved(s.lh, s.ops) by { assert Unused(s.ops) == 0; assert |s.lh| <= LOGSIZE; }
    Whole(l, s, Pins(s), Pins(s));
  }

  lemma LoggedOneMore(l: Layout, s: Sys, s': Sys, t: nat)
    requires Sane(l, s) && Sane(l, s') && WellFormed(s.cache) && WellFormed(s'.cache) && GoodList(l, s.lh)
    requires t < |s.lh| && Logged(l, s, t) && s'.lh == s.lh
    requires s'.disk == s.disk[Slot(l, t) := ViewOf(l, s, s.lh[t])]
    requires Edited(l.dev, s.disk, s.cache, s'.disk, s'.cache, Slot(l, t), ViewOf(l, s, s.lh[t]))
    ensures Logged(l, s', t + 1)
  {
    hide View, WellFormed;
    forall k | 0 <= k < t + 1 ensures s'.disk[Slot(l, k)] == ViewOf(l, s', s'.lh[k]) {
      assert l.Home(s.lh[k]);
    }
  }

  /** write_log copies one block into the log; nothing durable changes yet. */
  lemma WriteLogStep(l: Layout, s: Sys, t: nat, s': Sys)
    requires Inv(l, s) && WellFormed(s.cache) && s.phase == WriteLog(t) && t < |s.lh|
    requires StepWriteLog(l, s, t) == Some(s')
    ensures Inv(l, s') && WellFormed(s'.cache) && s'.committed == s.committed
    ensures Edited(l.dev, s.disk, s.cache, s'.disk, s'.cache, Slot(l, t), ViewOf(l, s, s.lh[t])) && !l.Home(Slot(l, t))
  {
    hide Inv, CacheInv, View, Reserved, GoodList, UniqueLabels, Recoverable, WellFormed, Unlocked, CopyToLog, Logged,
      DirtyHeld, Elements, Dirty, Edited, StepWriteLog;
    Parts(l, s);
    WriteLogIs(l, s, t, s');
    QuietDirty(s);
    SlotsAreNotHome(l, s.lh, t);
    CopyToLogKeeps(l, s.disk, s.cache, s.refs, Pins(s), Slot(l, t), s.lh[t], Store(s'.disk, s'.cache));
    LoggedOneMore(l, s, s', t);
    RecoverableUnlogged(l, s.disk, s'.disk, s.committed);
    WholeQuiet(l, s');
  }

  lemma WriteLogIs(l: Layout, s: Sys, t: nat, s': Sys)
    requires Sane(l, s) && WellFormed(s.cache) && t < |s.lh| && StepWriteLog(l, s, t) == Some(s')
    ensures s' == s.(disk := s'.disk, cache := s'.cache, phase := WriteLog(t + 1))
    ensures CopyToLog(l, s.disk, s.cache, Slot(l, t), s.lh[t]) == Some(Store(s'.disk, s'.cache))
  {
    hide CopyToLog, Unlocked, WellFormed;
  }

  lemma WriteLogDone(l: Layout, s: Sys, t: nat, s': Sys)
    requires Inv(l, s) && WellFormed(s.cache) && s.phase == WriteLog(t) && t >= |s.lh|
    requires StepWriteLog(l, s, t) == Some(s')
    ensures Inv(l, s') && s'.disk == s.disk && s'.cache == s.cache && s'.committed == s.committed
  {
    hide Inv, CacheInv, View, Reserved, GoodList, UniqueLabels, Recoverable, WellFormed, DirtyHeld, Elements, Dirty;
    Parts(l, s);
    QuietDirty(s);
    WholeQuiet(l, s');
  }

  lemma HomeViewsKept(l: Layout, s: Sys, s': Sys, b: nat, data: Block)
    requires Sane(l, s) && Sane(l, s') && WellFormed(s.cache) && WellFormed(s'.cache) && !l.Home(b)
    requires Edited(l.dev, s.disk, s.cache, s'.disk, s'.cache, b, data)
    ensures forall x: nat :: l.Home(x) ==> ViewOf(l, s', x) == ViewOf(l, s, x)
  {
  }

  lemma DurableAfterHead(l: Layout, s: Sys, s': Sys)
    requires Sane(l, s) && WellFormed(s.cache) && GoodList(l, s.lh) && Logged(l, s, |s.lh|) && |s'.disk| == l.nblocks
    requires ReadHead(s'.disk[l.start]) == s.lh && HeadCount(s'.disk[l.start]) == |s.lh|
    requires forall b: nat :: b < l.nblocks && b != l.start ==> s'.disk[b] == s.disk[b]
    requires forall b: nat :: l.Home(b) && b !in s.lh ==> ViewOf(l, s, b) == s.disk[b]
    requires |s'.committed| == l.nblocks && forall b: nat :: l.Home(b) ==> s'.committed[b] == ViewOf(l, s, b)
    ensures Recoverable(l, s'.disk, s'.committed)
  {
    hide View, WellFormed;
    forall b: nat | l.Home(b) ensures Durable(l, s'.disk, b) == s'.committed[b] {
      if b in s.lh {
        var k :| 0 <= k < |s.lh| && s.lh[k] == b;
        IndexOfDistinct(s.lh, k);
      }
    }
  }

  lemma HeadNotLogged(l: Layout, lh: seq<nat>)
    requires l.Good() && GoodList(l, lh)
    ensures l.start !in Elements(lh) && Elements(lh[0..]) == Elements(lh)
    ensures forall b: nat :: b in Elements(lh) ==> b in lh
  {
    assert lh[0..] == lh;
  }

  /** The header write makes exactly the current contents durable. */
  lemma WriteHeadStep(l: Layout, s: Sys, s': Sys)
    requires Inv(l, s) && WellFormed(s.cache) && s.phase == WriteHead && StepWriteHead(l, s) == Some(s')
    ensures Inv(l, s') && WellFormed(s'.cache)
    ensures forall b: nat :: l.Home(b) ==> ViewOf(l, s', b) == ViewOf(l, s, b) && s'.committed[b] == ViewOf(l, s, b)
  {
    hide Inv, CacheInv, View, Reserved, UniqueLabels, WellFormed, Unlocked, StoreHead, Logged, DirtyHeld, Dirty,
      Recoverable, PutHead, Elements, GoodList, ReadHead, HeadCount;
    Parts(l, s);
    QuietDirty(s);
    HeadNotLogged(l, s.lh);
    StoreHeadKeeps(l, s.disk, s.cache, s.refs, Pins(s), s.lh, Store(s'.disk, s'.cache));
    HeadRoundTrip(ViewOf(l, s, l.start), s.lh);
    forall b: nat | l.Home(b) && b !in s.lh ensures ViewOf(l, s, b) == s.disk[b] {
      CleanView(l, s.disk, s.cache, s.refs, Pins(s), Pins(s), b);
    }
    DurableAfterHead(l, s, s');
    WholeQuiet(l, s');
  }

  lemma DurableInSlot(l: Layout, disk: seq<Block>, lh: seq<nat>, k: nat, committed: seq<Block>)
    requires l.Good() && |disk| == l.nblocks == |committed| && Recoverable(l, disk, committed)
    requires ReadHead(disk[l.start]) == lh && k < |lh|
    ensures GoodList(l, lh) && disk[Slot(l, k)] == committed[lh[k]]
  {
    IndexOfDistinct(lh, k);
  }

  /** Copying a slot home, where it already belongs durably, changes nothing durable. */
  lemma RecoverableInstall(l: Layout, disk: seq<Block>, disk': seq<Block>, lh: seq<nat>, t: nat, committed: seq<Block>)
    requires l.Good() && |disk| == l.nblocks == |committed| && Recoverable(l, disk, committed)
    requires ReadHead(disk[l.start]) == lh && t < |lh| && disk' == disk[lh[t] := committed[lh[t]]]
    requires GoodList(l, lh)
    ensures Recoverable(l, disk', committed)
  {
    forall b: nat | l.Home(b) ensures Durable(l, disk', b) == committed[b] {
      if b in lh {
        var k :| 0 <= k < |lh| && lh[k] == b;
        IndexOfDistinct(lh, k);
        SlotsAreNotHome(l, lh, k);
      }
    }
  }

  lemma PinsAfterInstall(l: Layout, lh: seq<nat>, t: nat)
    requires GoodList(l, lh) && t < |lh|
    ensures lh[t] in Elements(lh[t..]) && Elements(lh[t..]) - {lh[t]} == Elements(lh[t + 1..])
    ensures l.Good() ==> Slot(l, t) !in Elements(lh[t..])
  {
    var rest := lh[t..];
    assert rest[0] == lh[t];
    assert rest == [lh[t]] + lh[t + 1..];
    assert forall k :: 0 < k < |rest| ==> rest[k] == lh[t + 1..][k - 1];
    assert forall k :: 0 <= k < |rest| ==> rest[k] == lh[t + k];
  }

  lemma InstalledOneMore(l: Layout, s: Sys, s': Sys, t: nat)
    requires Sane(l, s) && Sane(l, s') && |s.committed| == l.nblocks && GoodList(l, s.lh)
    requires t < |s.lh| && Installed(l, s, t) && s'.lh == s.lh && s'.committed == s.committed
    requires s'.disk == s.disk[s.lh[t] := s.committed[s.lh[t]]]
    ensures Installed(l, s', t + 1) && s'.disk[l.start] == s.disk[l.start]
  {
  }

  lemma ViewCommittedKept(l: Layout, s: Sys, s': Sys, b: nat, data: Block)
    requires Sane(l, s) && Sane(l, s') && WellFormed(s.cache) && WellFormed(s'.cache)
    requires |s.committed| == l.nblocks && s'.committed == s.committed && ViewCommitted(l, s)
    requires Edited(l.dev, s.disk, s.cache, s'.disk, s'.cache, b, data) && (l.Home(b) ==> data == s.committed[b])
    ensures ViewCommitted(l, s')
  {
    hide View, WellFormed;
  }

  /** install_trans: the pinned block is written home and unpinned; readers see no change. */
  lemma InstallStep(l: Layout, s: Sys, t: nat, s': Sys)
    requires Inv(l, s) && WellFormed(s.cache) && s.phase == Install(t) && t < |s.lh| && StepInstall(l, s, t) == Some(s')
    ensures Inv(l, s') && WellFormed(s'.cache) && s'.committed == s.committed
    ensures forall b: nat :: l.Home(b) ==> ViewOf(l, s, b) == s.committed[b] == ViewOf(l, s', b)
  {
    hide Inv, CacheInv, View, Reserved, GoodList, UniqueLabels, WellFormed, Unlocked, CopyHome, DirtyHeld, Dirty,
      Recoverable, Elements, Edited, Installed;
    Parts(l, s);
    QuietDirty(s);
    SlotsAreNotHome(l, s.lh, t);
    PinsAfterInstall(l, s.lh, t);
    DurableInSlot(l, s.disk, s.lh, t, s.committed);
    CleanView(l, s.disk, s.cache, s.refs, Pins(s), Pins(s), Slot(l, t));
    CopyHomeKeeps(l, s.disk, s.cache, s.refs, Pins(s), Slot(l, t), s.lh[t], true, Store(s'.disk, s'.cache));
    InstalledOneMore(l, s, s', t);
    ViewCommittedKept(l, s, s', s.lh[t], s.committed[s.lh[t]]);
    RecoverableInstall(l, s.disk, s'.disk, s.lh, t, s.committed);
    WholeQuiet(l, s');
  }

  lemma EmptyGood(l: Layout)
    requires l.Good()
    ensures GoodList(l, []) && Elements([]) == {}
  {
  }

  lemma InstallDone(l: Layout, s: Sys, t: nat, s': Sys)
    requires Inv(l, s) && WellFormed(s.cache) && s.phase == Install(t) && t >= |s.lh|
    requires StepInstall(l, s, t) == Some(s')
    ensures Inv(l, s') && s'.disk == s.disk && s'.cache == s.cache && s'.committed == s.committed
    ensures forall b: nat :: l.Home(b) ==> ViewOf(l, s, b) == s.committed[b]
  {
    hide Inv, CacheInv, View, Reserved, GoodList, UniqueLabels, WellFormed, DirtyHeld, Dirty, Recoverable;
    Parts(l, s);
    QuietDirty(s);
    EmptyGood(l);
    assert t == |s.lh| && s.lh[t..] == [];
    WholeQuiet(l, s');
  }

  /** write_head with an empty list, once every committed block is at home. */
  lemma ErasedHead(l: Layout, s: Sys, next: Phase, s': Sys)
    requires Sane(l, s) && WellFormed(s.cache) && Quiet(s) && s.lh == [] && |s.committed| == l.nblocks
    requires CacheInv(l, s.disk, s.cache, s.refs, {}, {}) && StepErase(l, s, next) == Some(s')
    requires next.Idle? || next.Finish?
    requires forall b: nat :: l.Home(b) ==> s.disk[b] == s.committed[b]
    ensures Inv(l, s') && WellFormed(s'.cache) && s'.committed == s.committed && s'.phase == next
    ensures forall b: nat :: l.Home(b) ==> ViewOf(l, s', b) == s.committed[b] == ViewOf(l, s, b)
  {
    hide Inv, CacheInv, View, GoodList, UniqueLabels, Unlocked, StoreHead, DirtyHeld, Dirty, Recoverable, PutHead;
    EmptyGood(l);
    StoreHeadKeeps(l, s.disk, s.cache, s.refs, {}, [], Store(s'.disk, s'.cache));
    HeadRoundTrip(ViewOf(l, s, l.start), []);
    forall b: nat | l.Home(b) ensures ViewOf(l, s, b) == s.committed[b] {
      CleanView(l, s.disk, s.cache, s.refs, {}, {}, b);
    }
    ErasedRecoverable(l, s'.disk, s.committed);
    WholeQuiet(l, s');
  }

  lemma ErasedRecoverable(l: Layout, disk: seq<Block>, committed: seq<Block>)
    requires l.Good() && |disk| == l.nblocks == |committed| && HeadCount(disk[l.start]) == 0
    requires forall b: nat :: l.Home(b) ==> disk[b] == committed[b]
    ensures Recoverable(l, disk, committed)
  {
    NoHeadDurable(l, disk);
  }

  lemma EraseStep(l: Layout, s: Sys, s': Sys)
    requires Inv(l, s) && WellFormed(s.cache) && s.phase == Erase && StepErase(l, s, Finish) == Some(s')
    ensures Inv(l, s') && WellFormed(s'.cache) && s'.committed == s.committed
    ensures forall b: nat :: l.Home(b) ==> ViewOf(l, s', b) == s.committed[b] == ViewOf(l, s, b)
  {
    hide Inv, CacheInv, View, GoodList, UniqueLabels, WellFormed, DirtyHeld, Dirty, Recoverable, StepErase;
    Parts(l, s);
    QuietDirty(s);
    forall b: nat | l.Home(b) ensures s.disk[b] == s.committed[b] {
      CleanView(l, s.disk, s.cache, s.refs, {}, {}, b);
    }
    ErasedHead(l, s, Finish, s');
  }

  lemma FinishStep(l: Layout, s: Sys, s': Sys)
    requires Inv(l, s) && WellFormed(s.cache) && s.phase == Finish && s' == s.(phase := Idle)
    ensures Inv(l, s')
  {
    hide Inv, CacheInv, View, GoodList, UniqueLabels, WellFormed, DirtyHeld, Dirty, Recoverable;
    Parts(l, s);
    QuietDirty(s);
    WholeQuiet(l, s');
  }

  /** read_head at boot. */
  lemma ReadLogStep(l: Layout, s: Sys, s': Sys)
    requires Inv(l, s) && WellFormed(s.cache) && s.phase == ReadLog && StepReadLog(l, s) == Some(s')
    ensures Inv(l, s') && WellFormed(s'.cache) && s'.committed == s.committed && s'.disk == s.disk
  {
    hide Inv, CacheInv, View, UniqueLabels, DirtyHeld, Dirty, Bread, ReadHead, BRelse;
    Parts(l, s);
    QuietDirty(s);
    var (c, i) := Bread(s.disk, s.cache, KERNEL, l.dev, l.start).value;
    BreadKeeps(l, s.disk, s.cache, s.refs, {}, {}, KERNEL, l.start);
    CleanView(l, s.disk, s.cache, s.refs, {}, {}, l.start);
    RelseKeeps(l, s.disk, c, s.refs[i := s.refs[i] + 1], {}, {}, i);
    BRelseWellFormed(c, i);
    assert s.refs[i := s.refs[i] + 1][i := s.refs[i]] == s.refs;
    WholeQuiet(l, s');
  }

  lemma ReinstallStep(l: Layout, s: Sys, t: nat, s': Sys)
    requires Inv(l, s) && WellFormed(s.cache) && s.phase == Reinstall(t) && t < |s.lh|
    requires StepReinstall(l, s, t) == Some(s')
    ensures Inv(l, s') && WellFormed(s'.cache) && s'.committed == s.committed
  {
    hide Inv, CacheInv, View, Reserved, GoodList, UniqueLabels, WellFormed, Unlocked, CopyHome, DirtyHeld, Dirty,
      Recoverable, Elements, Edited, Installed;
    Parts(l, s);
    QuietDirty(s);
    SlotsAreNotHome(l, s.lh, t);
    DurableInSlot(l, s.disk, s.lh, t, s.committed);
    CleanView(l, s.disk, s.cache, s.refs, {}, {}, Slot(l, t));
    CopyHomeKeeps(l, s.disk, s.cache, s.refs, {}, Slot(l, t), s.lh[t], false, Store(s'.disk, s'.cache));
    assert {} - {s.lh[t]} == {};
    InstalledOneMore(l, s, s', t);
    RecoverableInstall(l, s.disk, s'.disk, s.lh, t, s.committed);
    WholeQuiet(l, s');
  }

  lemma AllInstalled(l: Layout, s: Sys, t: nat)
    requires Sane(l, s) && |s.committed| == l.nblocks && Recoverable(l, s.disk, s.committed)
    requires ReadHead(s.disk[l.start]) == s.lh && Installed(l, s, t) && t >= |s.lh|
    ensures forall b: nat :: l.Home(b) ==> s.disk[b] == s.committed[b]
  {
    forall b: nat | l.Home(b) ensures s.disk[b] == s.committed[b] {
      if b in s.lh {
        var k :| 0 <= k < |s.lh| && s.lh[k] == b;
      }
    }
  }

  lemma ReinstallDone(l: Layout, s: Sys, t: nat, s': Sys)
    requires Inv(l, s) && WellFormed(s.cache) && s.phase == Reinstall(t) && t >= |s.lh|
    requires StepReinstall(l, s, t) == Some(s')
    ensures Inv(l, s') && s'.cache == s.cache && s'.committed == s.committed && s'.disk == s.disk
  {
    hide Inv, CacheInv, View, Reserved, GoodList, UniqueLabels, WellFormed, DirtyHeld, Dirty, Recoverable, Installed;
    Parts(l, s);
    QuietDirty(s);
    EmptyGood(l);
    AllInstalled(l, s, t);
    WholeQuiet(l, s');
  }

  lemma ClearStep(l: Layout, s: Sys, s': Sys)
    requires Inv(l, s) && WellFormed(s.cache) && s.phase == Clear && StepErase(l, s, Idle) == Some(s')
    ensures Inv(l, s') && WellFormed(s'.cache) && s'.committed == s.committed
    ensures forall b: nat :: l.Home(b) ==> ViewOf(l, s', b) == s.committed[b]
  {
    hide Inv, CacheInv, View, GoodList, UniqueLabels, WellFormed, DirtyHeld, Dirty, Recoverable, StepErase;
    Parts(l, s);
    QuietDirty(s);
    ErasedHead(l, s, Idle, s');
  }

  lemma FreshCache(l: Layout, disk: seq<Block>)
    requires l.Good() && |disk| == l.nblocks
    ensures WellFormed(INITIAL_CACHE) && |INITIAL_CACHE.buf| == NBUF
    ensures CacheInv(l, disk, INITIAL_CACHE, seq(NBUF, _ => 0), {}, {})
  {
  }

  /** A crash loses the cache and the operations that were running, and nothing committed. */
  lemma CrashStep(l: Layout, s: Sys)
    requires Inv(l, s)
    ensures Inv(l, AfterCrash(s)) && WellFormed(AfterCrash(s).cache)
  {
    hide Inv, CacheInv, View, GoodList, UniqueLabels, WellFormed, DirtyHeld, Dirty, Recoverable;
    Parts(l, s);
    FreshCache(l, s.disk);
    EmptyGood(l);
    WholeQuiet(l, AfterCrash(s));
  }
}
