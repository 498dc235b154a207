/** The invariant of the cache-and-log machine, kept by every step. */
module LogSafety {
  import opened Blocks
  import opened BufferCache
  import opened CacheInvariant
  import opened LogMachine
  import opened LogSteps

  ghost function Elements(s: seq<nat>): set<nat> { set k | 0 <= k < |s| :: s[k] }

  /** Blocks that carry a pin: logged and not yet installed. */
  ghost function Pins(s: Sys): set<nat> {
    match s.phase
    case Install(t) => if t <= |s.lh| then Elements(s.lh[t..]) else {}
    case Erase => {}
    case ReadLog => {}
    case Reinstall(_) => {}
    case Clear => {}
    case _ => Elements(s.lh)
  }

  ghost function Dirty(s: Sys): set<nat> {
    set i | 0 <= i < |s.cache.buf| && i in s.dirty :: s.cache.buf[i].blockno
  }

  /** Every edited buffer is locked by a running operation. */
  ghost predicate DirtyHeld(l: Layout, s: Sys) {
    forall i :: i in s.dirty ==>
      && 0 <= i < |s.cache.buf| && s.cache.buf[i].valid && s.cache.buf[i].dev == l.dev && l.Home(s.cache.buf[i].blockno)
      && s.cache.buf[i].owner.Some? && s.cache.buf[i].owner.value in s.ops
  }

  ghost predicate Quiet(s: Sys) { s.ops == map[] && s.dirty == {} }

  /** The first t logged blocks are in their log slots. */
  ghost predicate Logged(l: Layout, s: Sys, t: nat)
    requires Sane(l, s) && WellFormed(s.cache)
  {
    t <= |s.lh| && forall k :: 0 <= k < t ==> s.disk[Slot(l, k)] == ViewOf(l, s, s.lh[k])
  }

  /** The first t logged blocks are in their home blocks. */
  ghost predicate Installed(l: Layout, s: Sys, t: nat)
    requires Sane(l, s) && |s.committed| == l.nblocks
  {
    t <= |s.lh| && forall k :: 0 <= k < t ==> s.disk[s.lh[k]] == s.committed[s.lh[k]]
  }

  ghost predicate ViewCommitted(l: Layout, s: Sys)
    requires Sane(l, s) && WellFormed(s.cache) && |s.committed| == l.nblocks
  {
    forall b: nat :: l.Home(b) ==> ViewOf(l, s, b) == s.committed[b]
  }

  ghost predicate PhaseInv(l: Layout, s: Sys)
    requires Sane(l, s) && WellFormed(s.cache) && |s.committed| == l.nblocks
  {
    var head := s.disk[l.start];
    match s.phase
    case Idle => HeadCount(head) == 0
    case WriteLog(t) => HeadCount(head) == 0 && Quiet(s) && Logged(l, s, t)
    case WriteHead => HeadCount(head) == 0 && Quiet(s) && Logged(l, s, |s.lh|)
    case Install(t) => ReadHead(head) == s.lh && Quiet(s) && Installed(l, s, t) && ViewCommitted(l, s)
    case Erase => s.lh == [] && Quiet(s) && ViewCommitted(l, s)
    case Finish => HeadCount(head) == 0 && Quiet(s) && s.lh == []
    case ReadLog => s.lh == [] && Quiet(s)
    case Reinstall(t) => ReadHead(head) == s.lh && Quiet(s) && Installed(l, s, t)
    case Clear => s.lh == [] && Quiet(s) && forall b: nat :: l.Home(b) ==> s.disk[b] == s.committed[b]
  }

  /** Replaying the log of this disk would give the last committed contents. */
  ghost predicate Recoverable(l: Layout, disk: seq<Block>, committed: seq<Block>)
    requires l.Good() && |disk| == l.nblocks == |committed|
  {
    GoodHead(l, disk[l.start]) && forall b: nat :: l.Home(b) ==> Durable(l, disk, b) == committed[b]
  }

  ghost predicate Inv(l: Layout, s: Sys) {
    && Sane(l, s)
    && CacheInv(l, s.disk, s.cache, s.refs, Pins(s), Pins(s) + Dirty(s))
    && GoodList(l, s.lh)
    && DirtyHeld(l, s)
    && Reserved(s.lh, s.ops)
    && |s.committed| == l.nblocks
    && PhaseInv(l, s)
    && Recoverable(l, s.disk, s.committed)
  }

  // ----- steps of ordinary processes -----

  lemma PhaseOfCacheStep(l: Layout, s: Sys, s': Sys)
    requires Sane(l, s) && WellFormed(s.cache) && |s.committed| == l.nblocks && PhaseInv(l, s)
    requires s' == s.(cache := s'.cache, refs := s'.refs) && Sane(l, s') && WellFormed(s'.cache)
    requires SameView(l.dev, s.disk, s.cache, s.disk, s'.cache)
    ensures PhaseInv(l, s')
  {
    hide View, WellFormed;
  }

  /** The parts of the invariant, so that a step need not see inside those it does not touch. */
  lemma Parts(l: Layout, s: Sys)
    requires Inv(l, s)
    ensures Sane(l, s) && WellFormed(s.cache)
    ensures CacheInv(l, s.disk, s.cache, s.refs, Pins(s), Pins(s) + Dirty(s))
    ensures GoodList(l, s.lh) && DirtyHeld(l, s) && Reserved(s.lh, s.ops)
    ensures |s.committed| == l.nblocks && PhaseInv(l, s) && Recoverable(l, s.disk, s.committed)
    ensures s.ops != map[] || s.dirty != {} ==> s.phase.Idle?
  {
  }

  lemma Whole(l: Layout, s: Sys, pins: set<nat>, pend: set<nat>)
    requires Sane(l, s) && WellFormed(s.cache)
    requires CacheInv(l, s.disk, s.cache, s.refs, pins, pend) && pins == Pins(s) && pend == Pins(s) + Dirty(s)
    requires GoodList(l, s.lh) && DirtyHeld(l, s) && Reserved(s.lh, s.ops)
    requires |s.committed| == l.nblocks && PhaseInv(l, s) && Recoverable(l, s.disk, s.committed)
    ensures Inv(l, s)
  {
  }

  lemma OwnedBuffer(l: Layout, s: Sys, i: nat)
    requires CacheInv(l, s.disk, s.cache, s.refs, Pins(s), Pins(s) + Dirty(s)) && Sane(l, s)
    requires i < NBUF && s.cache.buf[i].owner.Some?
    ensures s.refs[i] > 0 && s.cache.buf[i].refcnt > 0
    ensures s.cache.buf[i].dev == l.dev && s.cache.buf[i].blockno < l.nblocks
    ensures UniqueLabels(s.cache) && l.dev != 0
  {
  }

  lemma DirtyOwned(l: Layout, s: Sys, i: nat)
    requires CacheInv(l, s.disk, s.cache, s.refs, Pins(s), Pins(s) + Dirty(s)) && DirtyHeld(l, s)
    requires i in s.dirty
    ensures i < NBUF && s.cache.buf[i].refcnt > 0 && s.cache.buf[i].valid && s.cache.buf[i].dev == l.dev
  {
  }

  /** The edited buffers and the logged blocks stay, as only a buffer that nobody has edited is recycled. */
  lemma DirtyStays(l: Layout, s: Sys, s': Sys, i: nat)
    requires DirtyHeld(l, s) && s' == s.(cache := s'.cache, refs := s'.refs)
    requires |s.cache.buf| == |s'.cache.buf| == NBUF
    requires i < NBUF && s'.cache.buf == s.cache.buf[i := s'.cache.buf[i]]
    requires i !in s.dirty || (s'.cache.buf[i].blockno == s.cache.buf[i].blockno && s'.cache.buf[i].dev == l.dev
      && s'.cache.buf[i].valid && s'.cache.buf[i].owner == s.cache.buf[i].owner)
    ensures DirtyHeld(l, s') && Dirty(s') == Dirty(s) && Pins(s') == Pins(s)
  {
    hide Elements;
    assert forall k :: k in s.dirty ==> s'.cache.buf[k].blockno == s.cache.buf[k].blockno;
  }

  /** A step that moves one buffer and edits nothing. */
  lemma CacheStepKeeps(l: Layout, s: Sys, s': Sys, i: nat)
    requires Inv(l, s) && s' == s.(cache := s'.cache, refs := s'.refs)
    requires CacheInv(l, s.disk, s'.cache, s'.refs, Pins(s), Pins(s) + Dirty(s))
    requires WellFormed(s.cache) && WellFormed(s'.cache) && |s'.refs| == |s.cache.buf| == |s'.cache.buf| == NBUF
    requires SameView(l.dev, s.disk, s.cache, s.disk, s'.cache)
    requires i < NBUF && s'.cache.buf == s.cache.buf[i := s'.cache.buf[i]]
    requires i !in s.dirty || (s'.cache.buf[i].blockno == s.cache.buf[i].blockno && s'.cache.buf[i].dev == l.dev
      && s'.cache.buf[i].valid && s'.cache.buf[i].owner == s.cache.buf[i].owner)
    ensures Inv(l, s')
  {
    hide Inv, CacheInv, Reserved, GoodList, Recoverable, PhaseInv, View, SameView, WellFormed, DirtyHeld, Dirty, Pins;
    Parts(l, s);
    DirtyStays(l, s, s', i);
    PhaseOfCacheStep(l, s, s');
    Whole(l, s', Pins(s), Pins(s) + Dirty(s));
  }

  lemma GetStep(l: Layout, s: Sys, b: nat, s': Sys)
    requires Inv(l, s) && WellFormed(s.cache) && DoGet(l, s, b) == Some(s')
    ensures s'.disk == s.disk && s'.phase == s.phase && s'.committed == s.committed
    ensures Inv(l, s') && WellFormed(s'.cache) && SameView(l.dev, s.disk, s.cache, s'.disk, s'.cache)
  {
    hide Inv, CacheInv, View, SameView, PhaseInv, Reserved, GoodList, Recoverable, BGet, UniqueLabels, WellFormed,
      DirtyHeld, Dirty, Pins;
    Parts(l, s);
    var i := BGet(s.cache, l.dev, b).value.1;
    GetKeeps(l, s.disk, s.cache, s.refs, Pins(s), Pins(s) + Dirty(s), b);
    if i in s.dirty {
      DirtyOwned(l, s, i);
    }
    CacheStepKeeps(l, s, s', i);
  }

  lemma LockStep(l: Layout, s: Sys, p: Pid, i: nat, s': Sys)
    requires Inv(l, s) && WellFormed(s.cache) && DoLock(l, s, p, i) == Some(s')
    ensures s'.disk == s.disk && s'.phase == s.phase && s'.committed == s.committed
    ensures Inv(l, s') && WellFormed(s'.cache) && SameView(l.dev, s.disk, s.cache, s'.disk, s'.cache)
  {
    hide Inv, CacheInv, View, SameView, PhaseInv, Reserved, GoodList, Recoverable, UniqueLabels, Dirty, Pins;
    Parts(l, s);
    LockKeeps(l, s.disk, s.cache, s.refs, Pins(s), Pins(s) + Dirty(s), i, p);
    CacheStepKeeps(l, s, s', i);
  }

  /** After bread the holder has the current contents. */
  lemma FillStep(l: Layout, s: Sys, p: Pid, i: nat, s': Sys)
    requires Inv(l, s) && WellFormed(s.cache) && DoFill(l, s, p, i) == Some(s')
    ensures s'.disk == s.disk && s'.phase == s.phase && s'.committed == s.committed
    ensures Inv(l, s') && WellFormed(s'.cache) && SameView(l.dev, s.disk, s.cache, s'.disk, s'.cache)
    ensures s'.cache.buf[i].valid && s'.cache.buf[i].data == ViewOf(l, s, s'.cache.buf[i].blockno)
  {
    hide Inv, CacheInv, View, SameView, PhaseInv, Reserved, GoodList, Recoverable, UniqueLabels, Dirty, Pins;
    Parts(l, s);
    OwnedBuffer(l, s, i);
    ViewOfBuffer(l, s.disk, s.cache, i);
    FillKeeps(l, s.disk, s.cache, s.refs, Pins(s), Pins(s) + Dirty(s), i);
    CacheStepKeeps(l, s, s', i);
  }

  lemma HeldNotDirty(l: Layout, s: Sys, i: nat)
    requires Inv(l, s) && i < NBUF && i !in s.dirty && s.cache.buf[i].dev == l.dev
    ensures s.cache.buf[i].blockno !in Dirty(s)
  {
  }

  lemma ReleaseStep(l: Layout, s: Sys, p: Pid, i: nat, s': Sys)
    requires Inv(l, s) && WellFormed(s.cache) && DoRelease(l, s, p, i) == Some(s')
    ensures s'.disk == s.disk && s'.phase == s.phase && s'.committed == s.committed
    ensures Inv(l, s') && WellFormed(s'.cache) && SameView(l.dev, s.disk, s.cache, s'.disk, s'.cache)
  {
    hide Inv, CacheInv, View, SameView, PhaseInv, Reserved, GoodList, Recoverable, UniqueLabels, WellFormed,
      DirtyHeld, Dirty, Pins;
    Parts(l, s);
    OwnedBuffer(l, s, i);
    HeldNotDirty(l, s, i);
    BRelseWellFormed(s.cache, i);
    RelseKeeps(l, s.disk, s.cache, s.refs, Pins(s), Pins(s) + Dirty(s), i);
    CacheStepKeeps(l, s, s', i);
  }

  lemma DirtyEdit(l: Layout, s: Sys, i: nat, data: Block)
    requires DirtyHeld(l, s) && |s.cache.buf| == NBUF && i < NBUF
    requires var b := s.cache.buf[i];
      && b.valid && b.dev == l.dev && l.Home(b.blockno)
      && b.owner.Some? && b.owner.value in s.ops
    ensures var s' := s.(cache := SetData(s.cache, i, data), dirty := s.dirty + {i});
      && DirtyHeld(l, s') && Pins(s') == Pins(s)
      && Pins(s') + Dirty(s') == Pins(s) + Dirty(s) + {s.cache.buf[i].blockno}
  {
    var s' := s.(cache := SetData(s.cache, i, data), dirty := s.dirty + {i});
    assert Dirty(s') == Dirty(s) + {s.cache.buf[i].blockno};
  }

  /** An edit changes the view of its block and nothing durable. */
  lemma ModifyStep(l: Layout, s: Sys, p: Pid, i: nat, data: Block, s': Sys)
    requires Inv(l, s) && WellFormed(s.cache) && DoModify(l, s, p, i, data) == Some(s')
    ensures Inv(l, s') && WellFormed(s'.cache) && i < NBUF
    ensures s'.disk == s.disk && s'.phase == s.phase && s'.phase.Idle? && s'.committed == s.committed
    ensures l.Home(s.cache.buf[i].blockno)
    ensures Edited(l.dev, s.disk, s.cache, s'.disk, s'.cache, s.cache.buf[i].blockno, data)
  {
    hide Inv, CacheInv, View, Reserved, GoodList, Recoverable, UniqueLabels, Edited, DirtyHeld, Dirty, Pins;
    Parts(l, s);
    OwnedBuffer(l, s, i);
    DirtyEdit(l, s, i, data);
    EditKeeps(l, s.disk, s.cache, s.refs, Pins(s), Pins(s) + Dirty(s), i, data);
    Whole(l, s', Pins(s), Pins(s') + Dirty(s'));
  }

  lemma DirtyLogged(l: Layout, s: Sys, s': Sys, i: nat)
    requires DirtyHeld(l, s) && |s.cache.buf| == |s'.cache.buf| == NBUF && i < NBUF
    requires s'.dirty == s.dirty - {i} && s.ops.Keys <= s'.ops.Keys
    requires s'.cache.buf == s.cache.buf || s'.cache.buf == BPin(s.cache, i).buf
    ensures DirtyHeld(l, s')
    ensures Dirty(s') + {s.cache.buf[i].blockno} == Dirty(s) + {s.cache.buf[i].blockno}
  {
    forall b | b in Dirty(s) ensures b in Dirty(s') + {s.cache.buf[i].blockno} {
      var k :| 0 <= k < NBUF && k in s.dirty && s.cache.buf[k].blockno == b;
      assert k != i ==> s'.cache.buf[k].blockno == b && k in s'.dirty;
    }
  }

  /** Logging an already logged block: the pin that is there keeps the edit. */
  lemma AbsorbStep(l: Layout, s: Sys, p: Pid, i: nat, s': Sys)
    requires Inv(l, s) && WellFormed(s.cache) && DoLogWrite(l, s, p, i) == Some(s') && s.cache.buf[i].blockno in s.lh
    ensures s'.disk == s.disk && s'.phase == s.phase && s'.committed == s.committed
    ensures Inv(l, s') && WellFormed(s'.cache) && SameView(l.dev, s.disk, s.cache, s'.disk, s'.cache)
  {
    hide Inv, CacheInv, View, Reserved, GoodList, Recoverable, UniqueLabels, WellFormed, DirtyHeld, Dirty;
    Parts(l, s);
    DirtyLogged(l, s, s', i);
    assert s.cache.buf[i].blockno in Pins(s);
    assert Pins(s) + Dirty(s) == Pins(s) + (Dirty(s) + {s.cache.buf[i].blockno});
    assert Pins(s) + Dirty(s') == Pins(s) + (Dirty(s') + {s.cache.buf[i].blockno});
    Whole(l, s', Pins(s), Pins(s) + Dirty(s'));
  }

  lemma AppendGood(l: Layout, lh: seq<nat>, b: nat)
    requires GoodList(l, lh) && b !in lh && l.Home(b) && |lh| < LOGSIZE && |lh| < l.size - 1
    ensures GoodList(l, lh + [b]) && Elements(lh + [b]) == Elements(lh) + {b}
  {
    assert (lh + [b])[|lh|] == b;
    assert forall k :: 0 <= k < |lh| ==> (lh + [b])[k] == lh[k];
  }

  lemma AppendReserved(lh: seq<nat>, ops: map<Pid, nat>, p: Pid, b: nat)
    requires Reserved(lh, ops) && p in ops && ops[p] < MAXOPBLOCKS
    ensures Reserved(lh + [b], ops[p := ops[p] + 1])
  {
    var ops' := ops[p := ops[p] + 1];
    UnusedOf(ops, p);
    UnusedOf(ops', p);
    assert ops - {p} == ops' - {p};
  }

  /** Logging a new block pins its buffer before the caller can let go of it. */
  lemma AppendStep(l: Layout, s: Sys, p: Pid, i: nat, s': Sys)
    requires Inv(l, s) && WellFormed(s.cache) && DoLogWrite(l, s, p, i) == Some(s') && s.cache.buf[i].blockno !in s.lh
    ensures s'.disk == s.disk && s'.phase == s.phase && s'.committed == s.committed
    ensures Inv(l, s') && WellFormed(s'.cache) && SameView(l.dev, s.disk, s.cache, s'.disk, s'.cache)
  {
    hide Inv, CacheInv, View, SameView, Reserved, GoodList, Recoverable, UniqueLabels, DirtyHeld, Dirty;
    var b := s.cache.buf[i].blockno;
    Parts(l, s);
    OwnedBuffer(l, s, i);
    AppendGood(l, s.lh, b);
    AppendReserved(s.lh, s.ops, p, b);
    DirtyLogged(l, s, s', i);
    PinKeeps(l, s.disk, s.cache, s.refs, Pins(s), Pins(s) + Dirty(s), i);
    assert Pins(s') == Pins(s) + {b};
    assert Pins(s) + Dirty(s) + {b} == Pins(s) + (Dirty(s) + {b}) == Pins(s) + (Dirty(s') + {b}) ==
           Pins(s') + Dirty(s');
    Whole(l, s', Pins(s) + {b}, Pins(s) + Dirty(s) + {b});
  }

  lemma LogWriteStep(l: Layout, s: Sys, p: Pid, i: nat, s': Sys)
    requires Inv(l, s) && WellFormed(s.cache) && DoLogWrite(l, s, p, i) == Some(s')
    ensures s'.disk == s.disk && s'.phase == s.phase && s'.committed == s.committed
    ensures Inv(l, s') && WellFormed(s'.cache) && SameView(l.dev, s.disk, s.cache, s'.disk, s'.cache)
  {
    hide Inv, CacheInv, View, SameView, Reserved, GoodList, Recoverable;
    if s.cache.buf[i].blockno in s.lh { AbsorbStep(l, s, p, i, s'); } else { AppendStep(l, s, p, i, s'); }
  }

  lemma BeginReserved(lh: seq<nat>, ops: map<Pid, nat>, p: Pid)
    requires Reserved(lh, ops) && p !in ops && |lh| + (|ops| + 1) * MAXOPBLOCKS <= LOGSIZE
    ensures Reserved(lh, ops[p := 0])
  {
    var ops' := ops[p := 0];
    UnusedOf(ops', p);
    assert ops' - {p} == ops;
    UnusedBounds(ops);
  }

  lemma OnlyOpsChange(l: Layout, s: Sys, s': Sys)
    requires DirtyHeld(l, s) && s' == s.(ops := s'.ops, phase := s'.phase)
    requires forall i :: i in s.dirty ==> s.cache.buf[i].owner.value in s'.ops
    requires Pins(s') == Pins(s)
    ensures DirtyHeld(l, s') && Pins(s') + Dirty(s') == Pins(s) + Dirty(s)
  {
    assert Dirty(s') == Dirty(s);
  }

  /** begin_op's test leaves room for every block the new operation may add. */
  lemma BeginStep(l: Layout, s: Sys, p: Pid, s': Sys)
    requires Inv(l, s) && WellFormed(s.cache) && DoBegin(s, p) == Some(s')
    ensures Inv(l, s') && s'.cache == s.cache && s'.disk == s.disk && s'.committed == s.committed
    ensures !s'.phase.Booting() && !s.phase.Booting()
  {
    hide Inv, CacheInv, View, Reserved, GoodList, Recoverable, UniqueLabels, WellFormed, Dirty;
    Parts(l, s);
    BeginReserved(s.lh, s.ops, p);
    OnlyOpsChange(l, s, s');
    Whole(l, s', Pins(s), Pins(s) + Dirty(s));
  }

  lemma EndReserved(lh: seq<nat>, ops: map<Pid, nat>, p: Pid)
    requires Reserved(lh, ops) && p in ops
    ensures Reserved(lh, ops - {p})
  {
    UnusedOf(ops, p);
  }

  /** end_op starts a commit exactly when no operation is left, and then nothing is half-edited. */
  lemma EndStep(l: Layout, s: Sys, p: Pid, s': Sys)
    requires Inv(l, s) && WellFormed(s.cache) && DoEnd(l, s, p) == Some(s')
    ensures Inv(l, s') && s'.cache == s.cache && s'.disk == s.disk && s'.committed == s.committed
    ensures !s'.phase.Booting() && !s.phase.Booting()
    ensures !s'.phase.Idle? <==> s'.ops == map[]
    ensures s'.ops == map[] ==> s'.dirty == {}
  {
    hide Inv, CacheInv, View, Reserved, GoodList, Recoverable, UniqueLabels, WellFormed, Dirty;
    Parts(l, s);
    EndReserved(s.lh, s.ops, p);
    assert forall i :: i in s.dirty ==> 0 <= i < NBUF && s.cache.buf[i].owner.value in s.ops - {p};
    OnlyOpsChange(l, s, s');
    Whole(l, s', Pins(s), Pins(s) + Dirty(s));
  }
}
