/** What every primitive of the buffer cache keeps, for one device of nblocks blocks. */
module CacheInvariant {
  import opened Blocks
  import opened BufferCache

  /** Where the log lies on the disk: a header block and size - 1 slots after it. */
  datatype Layout = Layout(dev: nat, start: nat, size: nat, nblocks: nat) {
    predicate Good() {
      dev != 0 && 0 < size && start + size <= nblocks <= WORD_LIMIT
    }

    predicate Home(b: nat) {
      b < nblocks && !(start <= b < start + size)
    }
  }

  /** The contents a reader of block b is given: the cached copy if there is one. */
  function View(dev: nat, disk: seq<Block>, c: Cache, b: nat): Block
    requires WellFormed(c) && b < |disk|
  {
    match Find(c.buf, c.lru, dev, b)
    case Some(i) => if c.buf[i].valid then c.buf[i].data else disk[b]
    case None => disk[b]
  }

  ghost predicate SameView(dev: nat, disk: seq<Block>, c: Cache, disk': seq<Block>, c': Cache)
    requires WellFormed(c) && WellFormed(c') && |disk| == |disk'|
  {
    forall b :: 0 <= b < |disk| ==> View(dev, disk', c', b) == View(dev, disk, c, b)
  }

  /** Readers see the new data in block b and the old contents everywhere else. */
  ghost predicate Edited(dev: nat, disk: seq<Block>, c: Cache, disk': seq<Block>, c': Cache, b: nat, data: Block)
    requires WellFormed(c) && WellFormed(c') && |disk| == |disk'|
  {
    forall x :: 0 <= x < |disk| ==> View(dev, disk', c', x) == if x == b then data else View(dev, disk, c, x)
  }

  ghost predicate Cached(c: Cache, dev: nat, b: nat) {
    exists i :: 0 <= i < |c.buf| && c.buf[i].Holds(dev, b) && c.buf[i].valid && c.buf[i].refcnt > 0
  }

  /** refs counts the processes that hold or wait for each buffer, pins are the
      logged blocks, and pend the blocks whose cached copy may be newer than the disk. */
  ghost predicate CacheInv(l: Layout, disk: seq<Block>, c: Cache, refs: seq<nat>, pins: set<nat>, pend: set<nat>) {
    && WellFormed(c) && UniqueLabels(c) && l.dev != 0
    && |disk| == l.nblocks && |refs| == NBUF && pins <= pend
    && (forall i :: 0 <= i < NBUF ==>
          || (c.buf[i].dev == l.dev && c.buf[i].blockno < l.nblocks)
          || (c.buf[i].Holds(0, 0) && !c.buf[i].valid && c.buf[i].refcnt == 0))
    && (forall i :: 0 <= i < NBUF ==> c.buf[i].refcnt == refs[i] + PinCount(l, c.buf[i], pins))
    && (forall i :: 0 <= i < NBUF && c.buf[i].owner.Some? ==> refs[i] > 0)
    && (forall i :: 0 <= i < NBUF && c.buf[i].valid && c.buf[i].blockno !in pend ==>
          c.buf[i].data == disk[c.buf[i].blockno])
    && (forall b :: b in pend ==> Cached(c, l.dev, b))
  }

  ghost function PinCount(l: Layout, b: Buf, pins: set<nat>): nat {
    if b.dev == l.dev && b.blockno in pins then 1 else 0
  }

  lemma Shape(l: Layout, disk: seq<Block>, c: Cache, refs: seq<nat>, pins: set<nat>, pend: set<nat>)
    requires CacheInv(l, disk, c, refs, pins, pend)
    ensures WellFormed(c) && UniqueLabels(c) && l.dev != 0 && |disk| == l.nblocks && |refs| == NBUF
  {
  }

  lemma ViewOfBuffer(l: Layout, disk: seq<Block>, c: Cache, i: nat)
    requires WellFormed(c) && UniqueLabels(c) && l.dev != 0 && i < NBUF
    requires c.buf[i].dev == l.dev && c.buf[i].blockno < |disk|
    ensures View(l.dev, disk, c, c.buf[i].blockno) == if c.buf[i].valid then c.buf[i].data else disk[c.buf[i].blockno]
  {
    FindIs(c, l.dev, c.buf[i].blockno, i);
  }

  /** Blocks outside pend read the same from the cache and from the disk. */
  lemma CleanView(l: Layout, disk: seq<Block>, c: Cache, refs: seq<nat>, pins: set<nat>, pend: set<nat>, b: nat)
    requires CacheInv(l, disk, c, refs, pins, pend) && b < l.nblocks && b !in pend
    ensures View(l.dev, disk, c, b) == disk[b]
  {
  }

  lemma ViewUncached(l: Layout, disk: seq<Block>, c: Cache, b: nat)
    requires WellFormed(c) && b < |disk|
    requires forall k :: 0 <= k < NBUF ==> !c.buf[k].Holds(l.dev, b)
    ensures View(l.dev, disk, c, b) == disk[b]
  {
  }

  /** A change to one buffer can only affect the view of its old and its new block. */
  lemma OtherViews(l: Layout, disk: seq<Block>, c: Cache, disk': seq<Block>, c': Cache, i: nat, x: nat)
    requires WellFormed(c) && UniqueLabels(c) && WellFormed(c') && UniqueLabels(c') && l.dev != 0
    requires i < NBUF && x < |disk| == |disk'| && disk[x] == disk'[x]
    requires forall k :: 0 <= k < NBUF && k != i ==> c'.buf[k] == c.buf[k]
    requires !c.buf[i].Holds(l.dev, x) && !c'.buf[i].Holds(l.dev, x)
    ensures View(l.dev, disk', c', x) == View(l.dev, disk, c, x)
  {
    if k :| 0 <= k < NBUF && c.buf[k].Holds(l.dev, x) {
      ViewOfBuffer(l, disk, c, k);
      ViewOfBuffer(l, disk', c', k);
    } else {
      ViewUncached(l, disk, c, x);
      ViewUncached(l, disk', c', x);
    }
  }

  lemma CachedKept(l: Layout, c: Cache, c': Cache, i: nat, x: nat)
    requires |c.buf| == |c'.buf| == NBUF && i < NBUF && Cached(c, l.dev, x)
    requires forall k :: 0 <= k < NBUF && k != i ==> c'.buf[k] == c.buf[k]
    requires c.buf[i].Holds(l.dev, x) && c.buf[i].valid && c.buf[i].refcnt > 0 ==>
      c'.buf[i].Holds(l.dev, x) && c'.buf[i].valid && c'.buf[i].refcnt > 0
    ensures Cached(c', l.dev, x)
  {
    var k :| 0 <= k < NBUF && c.buf[k].Holds(l.dev, x) && c.buf[k].valid && c.buf[k].refcnt > 0;
    assert c'.buf[k].Holds(l.dev, x) && c'.buf[k].valid && c'.buf[k].refcnt > 0;
  }

  lemma AllCachedKept(l: Layout, c: Cache, c': Cache, i: nat, pend: set<nat>)
    requires |c.buf| == |c'.buf| == NBUF && i < NBUF && forall x :: x in pend ==> Cached(c, l.dev, x)
    requires forall k :: 0 <= k < NBUF && k != i ==> c'.buf[k] == c.buf[k]
    requires c.buf[i].valid && c.buf[i].refcnt > 0 && c.buf[i].dev == l.dev && c.buf[i].blockno in pend ==>
      c'.buf[i].Holds(l.dev, c.buf[i].blockno) && c'.buf[i].valid && c'.buf[i].refcnt > 0
    ensures forall x :: x in pend ==> Cached(c', l.dev, x)
  {
    forall x | x in pend ensures Cached(c', l.dev, x) {
      CachedKept(l, c, c', i, x);
    }
  }

  /** Replacing one buffer keeps the invariant when the new contents are locally consistent. */
  lemma ReplaceKeeps(l: Layout, disk: seq<Block>, c: Cache, refs: seq<nat>, pins: set<nat>, pend: set<nat>,
                     c': Cache, i: nat, r: nat)
    requires CacheInv(l, disk, c, refs, pins, pend) && i < NBUF
    requires WellFormed(c') && c'.buf == c.buf[i := c'.buf[i]]
    requires c'.buf[i].dev == l.dev && c'.buf[i].blockno < l.nblocks
    requires c.buf[i].Holds(l.dev, c'.buf[i].blockno)
      || forall k :: 0 <= k < NBUF ==> !c.buf[k].Holds(l.dev, c'.buf[i].blockno)
    requires c'.buf[i].refcnt == r + PinCount(l, c'.buf[i], pins)
    requires c'.buf[i].owner.Some? ==> r > 0
    requires c'.buf[i].valid && c'.buf[i].blockno !in pend ==> c'.buf[i].data == disk[c'.buf[i].blockno]
    requires c.buf[i].valid && c.buf[i].refcnt > 0 && c.buf[i].dev == l.dev && c.buf[i].blockno in pend ==>
      c'.buf[i].blockno == c.buf[i].blockno && c'.buf[i].valid && c'.buf[i].refcnt > 0
    ensures CacheInv(l, disk, c', refs[i := r], pins, pend)
  {
    AllCachedKept(l, c, c', i, pend);
  }

  /** ... and keeps every view if the replaced buffer still reads the same for its old and new block. */
  lemma ReplaceViews(l: Layout, disk: seq<Block>, c: Cache, c': Cache, i: nat)
    requires WellFormed(c) && UniqueLabels(c) && WellFormed(c') && UniqueLabels(c') && l.dev != 0 && i < NBUF
    requires c'.buf == c.buf[i := c'.buf[i]]
    requires c'.buf[i].dev == l.dev && c'.buf[i].blockno < |disk|
    requires if c.buf[i].Holds(l.dev, c'.buf[i].blockno)
      then (if c.buf[i].valid then c.buf[i].data else disk[c.buf[i].blockno])
           == (if c'.buf[i].valid then c'.buf[i].data else disk[c'.buf[i].blockno])
      else (c.buf[i].valid && c.buf[i].dev == l.dev && c.buf[i].blockno < |disk| ==>
          c.buf[i].data == disk[c.buf[i].blockno])
           && (c'.buf[i].valid ==> c'.buf[i].data == disk[c'.buf[i].blockno])
           && forall k :: 0 <= k < NBUF ==> !c.buf[k].Holds(l.dev, c'.buf[i].blockno)
    ensures SameView(l.dev, disk, c, disk, c')
  {
    var b := c'.buf[i].blockno;
    ViewOfBuffer(l, disk, c', i);
    forall x | 0 <= x < |disk| ensures View(l.dev, disk, c', x) == View(l.dev, disk, c, x) {
      if x == b {
        if c.buf[i].Holds(l.dev, b) { ViewOfBuffer(l, disk, c, i); } else { ViewUncached(l, disk, c, b); }
      } else if c.buf[i].Holds(l.dev, x) {
        ViewOfBuffer(l, disk, c, i);
        ViewUncached(l, disk, c', x);
      } else {
        OtherViews(l, disk, c, disk, c', i, x);
      }
    }
  }

  /** bget: a recycled buffer was unreferenced, so nothing unwritten is lost. */
  lemma GetKeeps(l: Layout, disk: seq<Block>, c: Cache, refs: seq<nat>, pins: set<nat>, pend: set<nat>, b: nat)
    requires CacheInv(l, disk, c, refs, pins, pend) && b < l.nblocks && BGet(c, l.dev, b).Some?
    ensures var (c', i) := BGet(c, l.dev, b).value;
      && i < NBUF && c'.buf[i].Holds(l.dev, b)
      && CacheInv(l, disk, c', refs[i := refs[i] + 1], pins, pend)
      && SameView(l.dev, disk, c, disk, c')
      && c'.buf == c.buf[i := c'.buf[i]]
      && c'.buf[i].refcnt == c.buf[i].refcnt + 1
      && c'.buf[i].owner == c.buf[i].owner
      && (c.buf[i].refcnt > 0 ==> c'.buf[i] == c.buf[i].(refcnt := c'.buf[i].refcnt))
  {
    var (c', i) := BGet(c, l.dev, b).value;
    if Find(c.buf, c.lru, l.dev, b).None? {
      forall k | 0 <= k < NBUF ensures !c.buf[k].Holds(l.dev, b) { assert k in c.lru; }
      assert b !in pins;
    }
    ReplaceKeeps(l, disk, c, refs, pins, pend, c', i, refs[i] + 1);
    ReplaceViews(l, disk, c, c', i);
  }

  lemma LockKeeps(l: Layout, disk: seq<Block>, c: Cache, refs: seq<nat>, pins: set<nat>, pend: set<nat>, i: nat, p: Pid)
    requires CacheInv(l, disk, c, refs, pins, pend) && i < NBUF && refs[i] > 0
    ensures CacheInv(l, disk, Lock(c, i, p), refs, pins, pend)
    ensures SameView(l.dev, disk, c, disk, Lock(c, i, p))
  {
    assert refs == refs[i := refs[i]];
    ReplaceKeeps(l, disk, c, refs, pins, pend, Lock(c, i, p), i, refs[i]);
    ReplaceViews(l, disk, c, Lock(c, i, p), i);
  }

  lemma FillKeeps(l: Layout, disk: seq<Block>, c: Cache, refs: seq<nat>, pins: set<nat>, pend: set<nat>, i: nat)
    requires CacheInv(l, disk, c, refs, pins, pend) && i < NBUF && refs[i] > 0
    ensures CacheInv(l, disk, Fill(disk, c, i), refs, pins, pend)
    ensures SameView(l.dev, disk, c, disk, Fill(disk, c, i))
  {
    var c' := Fill(disk, c, i);
    assert refs == refs[i := refs[i]];
    assert c'.buf == c.buf[i := c'.buf[i]];
    ReplaceKeeps(l, disk, c, refs, pins, pend, c', i, refs[i]);
    ReplaceViews(l, disk, c, c', i);
  }

  /** bread hands out the current contents and changes no view. */
  lemma BreadKeeps(l: Layout, disk: seq<Block>, c: Cache, refs: seq<nat>, pins: set<nat>, pend: set<nat>, p: Pid,
                   b: nat)
    requires CacheInv(l, disk, c, refs, pins, pend) && b < l.nblocks && Bread(disk, c, p, l.dev, b).Some?
    ensures var (c', i) := Bread(disk, c, p, l.dev, b).value;
      && c'.buf[i].valid && c'.buf[i].owner == Some(p)
      && c'.buf[i].data == View(l.dev, disk, c, b)
      && c'.buf[i].refcnt == c.buf[i].refcnt + 1
      && c'.buf == c.buf[i := c'.buf[i]]
      && CacheInv(l, disk, c', refs[i := refs[i] + 1], pins, pend)
      && SameView(l.dev, disk, c, disk, c')
  {
    var (c1, i) := BGet(c, l.dev, b).value;
    var refs' := refs[i := refs[i] + 1];
    GetKeeps(l, disk, c, refs, pins, pend, b);
    LockKeeps(l, disk, c1, refs', pins, pend, i, p);
    FillKeeps(l, disk, Lock(c1, i, p), refs', pins, pend, i);
    ViewOfBuffer(l, disk, Fill(disk, Lock(c1, i, p), i), i);
  }

  /** Editing a held buffer makes its block pending and changes that view alone. */
  lemma EditKeeps(l: Layout, disk: seq<Block>, c: Cache, refs: seq<nat>, pins: set<nat>, pend: set<nat>, i: nat,
                  data: Block)
    requires CacheInv(l, disk, c, refs, pins, pend) && i < NBUF && refs[i] > 0 && c.buf[i].valid
    ensures CacheInv(l, disk, SetData(c, i, data), refs, pins, pend + {c.buf[i].blockno})
    ensures Edited(l.dev, disk, c, disk, SetData(c, i, data), c.buf[i].blockno, data)
  {
    var b, c', pend' := c.buf[i].blockno, SetData(c, i, data), pend + {c.buf[i].blockno};
    assert c.buf[i].Holds(l.dev, b) && Cached(c, l.dev, b);
    assert CacheInv(l, disk, c, refs, pins, pend');
    assert refs == refs[i := refs[i]];
    ReplaceKeeps(l, disk, c, refs, pins, pend', c', i, refs[i]);
    ViewOfBuffer(l, disk, c', i);
    forall x | 0 <= x < |disk| && x != b ensures View(l.dev, disk, c', x) == View(l.dev, disk, c, x) {
      OtherViews(l, disk, c, disk, c', i, x);
    }
  }

  /** bwrite: the disk gets the contents every reader already saw. */
  lemma FlushKeeps(l: Layout, disk: seq<Block>, c: Cache, refs: seq<nat>, pins: set<nat>, pend: set<nat>, i: nat)
    requires CacheInv(l, disk, c, refs, pins, pend) && i < NBUF && refs[i] > 0 && c.buf[i].valid
    ensures c.buf[i].blockno < |disk|
    ensures var disk' := disk[c.buf[i].blockno := c.buf[i].data];
      CacheInv(l, disk', c, refs, pins, pend) && SameView(l.dev, disk, c, disk', c)
  {
    var b := c.buf[i].blockno;
    var disk' := disk[b := c.buf[i].data];
    ViewOfBuffer(l, disk, c, i);
    ViewOfBuffer(l, disk', c, i);
    forall x | 0 <= x < |disk| && x != b ensures View(l.dev, disk', c, x) == View(l.dev, disk, c, x) {
      OtherViews(l, disk, c, disk', c, i, x);
    }
    forall k | 0 <= k < NBUF && c.buf[k].valid && c.buf[k].blockno !in pend
      ensures c.buf[k].data == disk'[c.buf[k].blockno]
    {
      if c.buf[k].blockno == b { assert k == i; }
    }
  }

  /** A block that is on disk as it is in the cache needs no further write. */
  lemma SettleKeeps(l: Layout, disk: seq<Block>, c: Cache, refs: seq<nat>, pins: set<nat>, pend: set<nat>, b: nat)
    requires CacheInv(l, disk, c, refs, pins, pend) && b < l.nblocks && b !in pins
    requires View(l.dev, disk, c, b) == disk[b]
    ensures CacheInv(l, disk, c, refs, pins, pend - {b})
  {
    forall k | 0 <= k < NBUF && c.buf[k].valid && c.buf[k].blockno == b ensures c.buf[k].data == disk[b] {
      ViewOfBuffer(l, disk, c, k);
    }
  }

  function Recounted(c: Cache, i: nat, n: nat): Cache
    requires i < |c.buf|
  {
    c.(buf := c.buf[i := c.buf[i].(refcnt := n)])
  }

  lemma RecountedShape(c: Cache, i: nat, n: nat)
    requires WellFormed(c) && UniqueLabels(c) && i < NBUF
    ensures WellFormed(Recounted(c, i, n)) && UniqueLabels(Recounted(c, i, n))
  {
  }

  /** A reference count is in no view. */
  lemma RecountedViews(l: Layout, disk: seq<Block>, c: Cache, i: nat, n: nat)
    requires WellFormed(c) && UniqueLabels(c) && i < NBUF && l.dev != 0
    requires c.buf[i].dev == l.dev && c.buf[i].blockno < |disk|
    requires WellFormed(Recounted(c, i, n)) && UniqueLabels(Recounted(c, i, n))
    ensures SameView(l.dev, disk, c, disk, Recounted(c, i, n))
  {
    hide WellFormed, UniqueLabels, View;
    ShapeSize(c);
    ReplaceViews(l, disk, c, Recounted(c, i, n), i);
  }

  lemma ShapeSize(c: Cache)
    requires WellFormed(c)
    ensures |c.buf| == NBUF
  {
  }

  /** The block of buffer i gains or loses its pin, and the buffer's count goes with it. */
  lemma RecountedKeeps(l: Layout, disk: seq<Block>, c: Cache, refs: seq<nat>, pins: set<nat>, pend: set<nat>, i: nat,
                       n: nat, pins': set<nat>, pend': set<nat>)
    requires CacheInv(l, disk, c, refs, pins, pend) && i < NBUF && refs[i] > 0 && c.buf[i].valid
    requires WellFormed(Recounted(c, i, n)) && UniqueLabels(Recounted(c, i, n))
    requires pins' <= pend' && n == refs[i] + PinCount(l, c.buf[i], pins')
    requires forall b :: b != c.buf[i].blockno ==> (b in pins' <==> b in pins) && (b in pend' <==> b in pend)
    requires c.buf[i].blockno in pend' || c.buf[i].data == disk[c.buf[i].blockno]
    ensures CacheInv(l, disk, Recounted(c, i, n), refs, pins', pend')
  {
    Shape(l, disk, c, refs, pins, pend);
    OneHolder(l, disk, c, refs, pins, pend, i);
    RecountedCached(l, disk, c, refs, pins, pend, i, n, pend');
    hide WellFormed, UniqueLabels, View, Cached;
  }

  lemma OneHolder(l: Layout, disk: seq<Block>, c: Cache, refs: seq<nat>, pins: set<nat>, pend: set<nat>, i: nat)
    requires CacheInv(l, disk, c, refs, pins, pend) && i < NBUF && refs[i] > 0
    ensures forall k :: 0 <= k < NBUF && k != i && c.buf[k].dev == l.dev ==> c.buf[k].blockno != c.buf[i].blockno
  {
    hide View, Cached;
  }

  lemma RecountedCached(l: Layout, disk: seq<Block>, c: Cache, refs: seq<nat>, pins: set<nat>, pend: set<nat>, i: nat,
                        n: nat, pend': set<nat>)
    requires CacheInv(l, disk, c, refs, pins, pend) && i < NBUF && refs[i] > 0 && c.buf[i].valid && n > 0
    requires forall b :: b != c.buf[i].blockno ==> (b in pend' <==> b in pend)
    ensures forall b :: b in pend' ==> Cached(Recounted(c, i, n), l.dev, b)
  {
    HeldIs(l, disk, c, refs, pins, pend, i);
    hide WellFormed, UniqueLabels, View;
    forall b | b in pend' ensures Cached(Recounted(c, i, n), l.dev, b) {
      if b == c.buf[i].blockno {
        assert Recounted(c, i, n).buf[i].Holds(l.dev, b);
      } else {
        CachedKept(l, c, Recounted(c, i, n), i, b);
      }
    }
  }

  /** bpin of a block that is logged now. */
  lemma PinKeeps(l: Layout, disk: seq<Block>, c: Cache, refs: seq<nat>, pins: set<nat>, pend: set<nat>, i: nat)
    requires CacheInv(l, disk, c, refs, pins, pend) && i < NBUF && refs[i] > 0 && c.buf[i].valid
    requires c.buf[i].blockno !in pins
    ensures var b := c.buf[i].blockno;
      CacheInv(l, disk, BPin(c, i), refs, pins + {b}, pend + {b})
    ensures SameView(l.dev, disk, c, disk, BPin(c, i))
  {
    HeldIs(l, disk, c, refs, pins, pend, i);
    var b, n := c.buf[i].blockno, c.buf[i].refcnt + 1;
    hide CacheInv, WellFormed, UniqueLabels, View;
    RecountedShape(c, i, n);
    RecountedKeeps(l, disk, c, refs, pins, pend, i, n, pins + {b}, pend + {b});
    RecountedViews(l, disk, c, i, n);
    assert BPin(c, i) == Recounted(c, i, n);
  }

  /** bunpin once the block has been installed. */
  lemma UnpinKeeps(l: Layout, disk: seq<Block>, c: Cache, refs: seq<nat>, pins: set<nat>, pend: set<nat>, i: nat)
    requires CacheInv(l, disk, c, refs, pins, pend) && i < NBUF && refs[i] > 0 && c.buf[i].valid
    requires c.buf[i].blockno in pins && c.buf[i].data == disk[c.buf[i].blockno]
    ensures var b := c.buf[i].blockno;
      CacheInv(l, disk, BUnpin(c, i), refs, pins - {b}, pend - {b})
    ensures SameView(l.dev, disk, c, disk, BUnpin(c, i))
  {
    HeldIs(l, disk, c, refs, pins, pend, i);
    var b, n := c.buf[i].blockno, c.buf[i].refcnt - 1;
    hide CacheInv, WellFormed, UniqueLabels, View;
    RecountedShape(c, i, n);
    RecountedKeeps(l, disk, c, refs, pins, pend, i, n, pins - {b}, pend - {b});
    RecountedViews(l, disk, c, i, n);
    assert BUnpin(c, i) == Recounted(c, i, n);
  }

  /** A buffer that a process holds. */
  lemma HeldIs(l: Layout, disk: seq<Block>, c: Cache, refs: seq<nat>, pins: set<nat>, pend: set<nat>, i: nat)
    requires CacheInv(l, disk, c, refs, pins, pend) && i < NBUF && refs[i] > 0
    ensures WellFormed(c) && UniqueLabels(c) && |c.buf| == NBUF && l.dev != 0 && |disk| == l.nblocks && pins <= pend
    ensures c.buf[i].dev == l.dev && c.buf[i].blockno < l.nblocks
    ensures c.buf[i].refcnt == refs[i] + PinCount(l, c.buf[i], pins)
  {
  }

  /** brelse: a pending block must be pinned before its buffer is let go. */
  lemma RelseKeeps(l: Layout, disk: seq<Block>, c: Cache, refs: seq<nat>, pins: set<nat>, pend: set<nat>, i: nat)
    requires CacheInv(l, disk, c, refs, pins, pend) && i < NBUF && refs[i] > 0
    requires c.buf[i].blockno in pend ==> c.buf[i].blockno in pins
    ensures CacheInv(l, disk, BRelse(c, i), refs[i := refs[i] - 1], pins, pend)
    ensures SameView(l.dev, disk, c, disk, BRelse(c, i))
  {
    BRelseWellFormed(c, i);
    ReplaceKeeps(l, disk, c, refs, pins, pend, BRelse(c, i), i, refs[i] - 1);
    ReplaceViews(l, disk, c, BRelse(c, i), i);
  }

  /** Two breads of different blocks in a row. */
  lemma BreadPairKeeps(l: Layout, disk: seq<Block>, c: Cache, refs: seq<nat>, pins: set<nat>, p: Pid,
                       a: nat, b: nat, c1: Cache, i: nat, c2: Cache, j: nat)
    requires CacheInv(l, disk, c, refs, pins, pins) && a < l.nblocks && b < l.nblocks && a != b
    requires Bread(disk, c, p, l.dev, a) == Some((c1, i))
    requires WellFormed(c1) && Bread(disk, c1, p, l.dev, b) == Some((c2, j))
    ensures i < NBUF && j < NBUF && i != j && |refs| == |c2.buf| == NBUF
    ensures CacheInv(l, disk, c2, refs[i := refs[i] + 1][j := refs[j] + 1], pins, pins)
    ensures c2.buf[i].Holds(l.dev, a) && c2.buf[i].valid && c2.buf[i].data == View(l.dev, disk, c, a)
    ensures c2.buf[j].Holds(l.dev, b) && c2.buf[j].valid && c2.buf[j].data == View(l.dev, disk, c, b)
    ensures SameView(l.dev, disk, c, disk, c2)
  {
    Shape(l, disk, c, refs, pins, pins);
    hide CacheInv, Bread, View;
    BreadKeeps(l, disk, c, refs, pins, pins, p, a);
    Shape(l, disk, c1, refs[i := refs[i] + 1], pins, pins);
    BreadKeeps(l, disk, c1, refs[i := refs[i] + 1], pins, pins, p, b);
    assert i != j by { assert c2.buf[i].blockno == a; }
  }

  /** Editing a held buffer and writing it out at once. */
  lemma WriteThroughKeeps(l: Layout, disk: seq<Block>, c: Cache, refs: seq<nat>, pins: set<nat>, pend: set<nat>,
                          i: nat, data: Block)
    requires CacheInv(l, disk, c, refs, pins, pend) && i < NBUF && refs[i] > 0 && c.buf[i].valid
    ensures c.buf[i].blockno < |disk|
    ensures var b := c.buf[i].blockno;
      var disk' := disk[b := data];
      var c' := SetData(c, i, data);
      && CacheInv(l, disk', c', refs, pins, if b in pins then pend else pend - {b})
      && Edited(l.dev, disk, c, disk', c', b, data)
  {
    var b := c.buf[i].blockno;
    EditKeeps(l, disk, c, refs, pins, pend, i, data);
    FlushKeeps(l, disk, SetData(c, i, data), refs, pins, pend + {b}, i);
    if b in pins {
      assert pend + {b} == pend;
    } else {
      SettleKeeps(l, disk[b := data], SetData(c, i, data), refs, pins, pend + {b}, b);
      assert pend + {b} - {b} == pend - {b};
    }
  }

  lemma UpdatesCommute(s: seq<nat>, i: nat, j: nat, x: nat, y: nat)
    requires i < |s| && j < |s| && i != j
    ensures s[i := x][j := y] == s[j := y][i := x]
  {
  }

  lemma RelsePairKeeps(l: Layout, disk: seq<Block>, c: Cache, refs: seq<nat>, pins: set<nat>, i: nat, j: nat)
    requires |refs| == NBUF && i < NBUF && j < NBUF && i != j
    requires CacheInv(l, disk, c, refs[i := refs[i] + 1][j := refs[j] + 1], pins, pins)
    ensures CacheInv(l, disk, BRelse(BRelse(c, i), j), refs, pins, pins)
    ensures SameView(l.dev, disk, c, disk, BRelse(BRelse(c, i), j))
  {
    var r2 := refs[i := refs[i] + 1][j := refs[j] + 1];
    Shape(l, disk, c, r2, pins, pins);
    hide CacheInv;
    RelseKeeps(l, disk, c, r2, pins, pins, i);
    RelseKeeps(l, disk, BRelse(c, i), r2[i := r2[i] - 1], pins, pins, j);
    assert r2[i := r2[i] - 1][j := r2[j] - 1] == refs;
  }
}
