/** Cache, redo log and disk (kernel/bio.c, kernel/log.c) as one state machine:
    any interleaving of processes, the committing process, crashes and boots. */
module LogMachine {
  import opened Blocks
  import opened BufferCache
  import opened CacheInvariant

  const MAXOPBLOCKS: nat := 10
  const LOGSIZE: nat := 30
  const KERNEL: Pid := 0   // the process that runs commit() or recover_from_log()

  // ----- the log header -----

  function HeadCount(b: Block): nat { Word(b, 0) }

  /** read_head. */
  function ReadHead(b: Block): (lh: seq<nat>)
    ensures |lh| <= LOGSIZE && forall k :: 0 <= k < |lh| ==> lh[k] < WORD_LIMIT
  {
    if HeadCount(b) <= LOGSIZE then seq(HeadCount(b), k requires 0 <= k < HeadCount(b) => Word(b, k + 1)) else []
  }

  /** write_head's edit of the header buffer: count first, then the block numbers. */
  function PutHead(b: Block, lh: seq<nat>): Block
    requires |lh| <= LOGSIZE && forall k :: 0 <= k < |lh| ==> lh[k] < WORD_LIMIT
  {
    SetWords(b, 0, [|lh|] + lh)
  }

  /** What write_head stores, read_head finds. */
  lemma HeadRoundTrip(b: Block, lh: seq<nat>)
    requires |lh| <= LOGSIZE && forall k :: 0 <= k < |lh| ==> lh[k] < WORD_LIMIT
    ensures HeadCount(PutHead(b, lh)) == |lh| && ReadHead(PutHead(b, lh)) == lh
  {
    forall j | 0 <= j <= |lh| ensures Word(PutHead(b, lh), j) == ([|lh|] + lh)[j] {
      WordOfSetWords(b, 0, [|lh|] + lh, j);
    }
  }

  /** The header block has the count in its first word and the block numbers in those after it; the blocks of
      the log follow it one by one. */
  lemma HeadLayout(l: Layout, b: Block, lh: seq<nat>, j: nat)
    requires |lh| <= LOGSIZE && (forall k :: 0 <= k < |lh| ==> lh[k] < WORD_LIMIT) && j < WORDS
    ensures Word(PutHead(b, lh), j) == if j == 0 then |lh| else if j <= |lh| then lh[j - 1] else Word(b, j)
    ensures HeadCount(b) == Word(b, 0) && Slot(l, j) == l.start + j + 1
  {
    WordOfSetWords(b, 0, [|lh|] + lh, j);
  }

  /** A list of logged blocks the log area has room for. */
  ghost predicate GoodList(l: Layout, lh: seq<nat>) {
    && Distinct(lh) && |lh| <= LOGSIZE && |lh| < l.size
    && forall k :: 0 <= k < |lh| ==> l.Home(lh[k])
  }

  ghost predicate GoodHead(l: Layout, b: Block) {
    HeadCount(b) <= LOGSIZE && GoodList(l, ReadHead(b))
  }

  function IndexOf(lh: seq<nat>, b: nat): (r: Option<nat>)
    ensures r.Some? ==> r.value < |lh| && lh[r.value] == b
    ensures r.None? ==> b !in lh
  {
    if lh == [] then None
    else if lh[0] == b then Some(0)
    else match IndexOf(lh[1..], b) case Some(k) => Some(k + 1) case None => None
  }

  function Slot(l: Layout, k: nat): nat { l.start + 1 + k }

  /** What block b holds once the log on this disk has been replayed. */
  ghost function Durable(l: Layout, disk: seq<Block>, b: nat): Block
    requires l.Good() && |disk| == l.nblocks && GoodHead(l, disk[l.start]) && b < l.nblocks
  {
    match IndexOf(ReadHead(disk[l.start]), b)
    case Some(k) => disk[Slot(l, k)]
    case None => disk[b]
  }

  // ----- the state -----

  datatype Phase =
    | Idle
    | WriteLog(tail: nat) | WriteHead | Install(tail: nat) | Erase | Finish    // commit()
    | ReadLog | Reinstall(tail: nat) | Clear                                 // recover_from_log()
  {
    predicate Booting() { ReadLog? || Reinstall? || Clear? }
  }

  /** disk survives a crash. lh is log.lh, ops the running operations with the
      blocks each has added to the log, refs the process references to each
      buffer, dirty the buffers edited since they were last logged, and
      committed the contents of the last commit. */
  datatype Sys = Sys(disk: seq<Block>, cache: Cache, lh: seq<nat>, phase: Phase, ops: map<Pid, nat>,
                     refs: seq<nat>, dirty: set<nat>, committed: seq<Block>)

  datatype Store = Store(disk: seq<Block>, cache: Cache)

  /** bread would not have to wait for a sleep lock. */
  predicate Unlocked(c: Cache, dev: nat, b: nat)
    requires WellFormed(c)
  {
    match Find(c.buf, c.lru, dev, b) case Some(i) => c.buf[i].owner.None? case None => true
  }

  /** One iteration of write_log: cached home block to log slot. */
  function CopyToLog(l: Layout, disk: seq<Block>, c: Cache, slot: nat, home: nat): Option<Store>
    requires WellFormed(c) && slot < |disk| && home < |disk|
  {
    match Bread(disk, c, KERNEL, l.dev, slot)
    case None => None
    case Some((c1, i)) =>
      match Bread(disk, c1, KERNEL, l.dev, home)
      case None => None
      case Some((c2, j)) =>
        var c3 := SetData(c2, i, c2.buf[j].data);
        Some(Store(disk[slot := c3.buf[i].data], BRelse(BRelse(c3, j), i)))
  }

  /** One iteration of install_trans: log slot to home block, unpinned unless booting. */
  function CopyHome(l: Layout, disk: seq<Block>, c: Cache, slot: nat, home: nat, unpin: bool): Option<Store>
    requires WellFormed(c) && slot < |disk| && home < |disk|
  {
    match Bread(disk, c, KERNEL, l.dev, slot)
    case None => None
    case Some((c1, i)) =>
      match Bread(disk, c1, KERNEL, l.dev, home)
      case None => None
      case Some((c2, j)) =>
        var c3 := SetData(c2, j, c2.buf[i].data);
        var c4 := if unpin then BUnpin(c3, j) else c3;
        Some(Store(disk[home := c3.buf[j].data], BRelse(BRelse(c4, i), j)))
  }

  /** write_head. */
  function StoreHead(l: Layout, disk: seq<Block>, c: Cache, lh: seq<nat>): Option<Store>
    requires WellFormed(c) && l.start < |disk|
    requires |lh| <= LOGSIZE && forall k :: 0 <= k < |lh| ==> lh[k] < WORD_LIMIT
  {
    match Bread(disk, c, KERNEL, l.dev, l.start)
    case None => None
    case Some((c1, i)) =>
      var c2 := SetData(c1, i, PutHead(c1.buf[i].data, lh));
      Some(Store(disk[l.start := c2.buf[i].data], BRelse(c2, i)))
  }

  // ----- what one iteration keeps -----

  lemma EditedBetween(dev: nat, disk: seq<Block>, c: Cache, c2: Cache, disk': seq<Block>, c3: Cache, c5: Cache,
                      b: nat, data: Block)
    requires WellFormed(c) && WellFormed(c2) && WellFormed(c3) && WellFormed(c5) && |disk| == |disk'|
    requires c2 == c || SameView(dev, disk, c, disk, c2)
    requires Edited(dev, disk, c2, disk', c3, b, data)
    requires SameView(dev, disk', c3, disk', c5)
    ensures Edited(dev, disk, c, disk', c5, b, data)
  {
    hide View, WellFormed;
  }

  /** With a buffer held, overwrite it, write it out and unpin it if it was pinned. */
  lemma OverwriteKeeps(l: Layout, disk: seq<Block>, c: Cache, held: seq<nat>, pins: set<nat>, to: nat, data: Block,
                       c4: Cache)
    requires CacheInv(l, disk, c, held, pins, pins) && |held| == |c.buf| == NBUF && to < NBUF && held[to] > 0
    requires c.buf[to].valid && c.buf[to].blockno < |disk| && WellFormed(c)
    requires c4 == if c.buf[to].blockno in pins then BUnpin(SetData(c, to, data), to) else SetData(c, to, data)
    ensures var b := c.buf[to].blockno;
      && CacheInv(l, disk[b := data], c4, held, pins - {b}, pins - {b})
      && WellFormed(c4) && Edited(l.dev, disk, c, disk[b := data], c4, b, data)
  {
    hide CacheInv, View, BRelse, SameView, Edited;
    var b := c.buf[to].blockno;
    WriteThroughKeeps(l, disk, c, held, pins, pins, to, data);
    if b in pins {
      UnpinKeeps(l, disk[b := data], SetData(c, to, data), held, pins, pins, to);
      EditedBetween(l.dev, disk, c, c, disk[b := data], SetData(c, to, data), c4, b, data);
    } else {
      assert pins - {b} == pins;
    }
  }

  /** The second half of an iteration: with both buffers held, overwrite one, then
      release the source and the target. */
  lemma CopyKeeps(l: Layout, disk: seq<Block>, c: Cache, refs: seq<nat>, pins: set<nat>, c2: Cache,
                  to: nat, from: nat, data: Block, c4: Cache)
    requires |refs| == |c2.buf| == NBUF && to < NBUF && from < NBUF && to != from && WellFormed(c) && WellFormed(c2)
    requires CacheInv(l, disk, c2, refs[to := refs[to] + 1][from := refs[from] + 1], pins, pins)
    requires SameView(l.dev, disk, c, disk, c2) && c2.buf[to].valid && c2.buf[to].blockno < |disk|
    requires c4 == if c2.buf[to].blockno in pins then BUnpin(SetData(c2, to, data), to) else SetData(c2, to, data)
    ensures var b := c2.buf[to].blockno;
      var c5 := BRelse(BRelse(c4, from), to);
      && CacheInv(l, disk[b := data], c5, refs, pins - {b}, pins - {b})
      && WellFormed(c5) && Edited(l.dev, disk, c, disk[b := data], c5, b, data)
  {
    hide CacheInv, View, WellFormed, SameView, Edited;
    var b := c2.buf[to].blockno;
    var c5 := BRelse(BRelse(c4, from), to);
    OverwriteKeeps(l, disk, c2, refs[to := refs[to] + 1][from := refs[from] + 1], pins, to, data, c4);
    UpdatesCommute(refs, to, from, refs[to] + 1, refs[from] + 1);
    RelsePairKeeps(l, disk[b := data], c4, refs, pins - {b}, from, to);
    Shape(l, disk[b := data], c5, refs, pins - {b}, pins - {b});
    EditedBetween(l.dev, disk, c, c2, disk[b := data], c4, c5, b, data);
  }

  /** write_log puts the current contents of a logged block into its slot. */
  lemma CopyToLogKeeps(l: Layout, disk: seq<Block>, c: Cache, refs: seq<nat>, pins: set<nat>, slot: nat, home: nat,
                       st: Store)
    requires CacheInv(l, disk, c, refs, pins, pins) && WellFormed(c) && |disk| == l.nblocks
    requires slot < l.nblocks && home < l.nblocks && slot != home && slot !in pins
    requires CopyToLog(l, disk, c, slot, home) == Some(st)
    ensures st.disk == disk[slot := View(l.dev, disk, c, home)] && WellFormed(st.cache) && |st.cache.buf| == NBUF
    ensures CacheInv(l, st.disk, st.cache, refs, pins, pins)
    ensures Edited(l.dev, disk, c, st.disk, st.cache, slot, View(l.dev, disk, c, home))
  {
    hide CacheInv, Bread, View, BRelse, SameView, Edited;
    var (c1, i) := Bread(disk, c, KERNEL, l.dev, slot).value;
    var (c2, j) := Bread(disk, c1, KERNEL, l.dev, home).value;
    BreadPairKeeps(l, disk, c, refs, pins, KERNEL, slot, home, c1, i, c2, j);
    Shape(l, disk, c2, refs[i := refs[i] + 1][j := refs[j] + 1], pins, pins);
    CopyKeeps(l, disk, c, refs, pins, c2, i, j, c2.buf[j].data, SetData(c2, i, c2.buf[j].data));
    assert pins - {slot} == pins;
  }

  /** install_trans puts a slot into its home block, which is clean and unpinned afterwards. */
  lemma CopyHomeKeeps(l: Layout, disk: seq<Block>, c: Cache, refs: seq<nat>, pins: set<nat>, slot: nat, home: nat,
                      unpin: bool, st: Store)
    requires CacheInv(l, disk, c, refs, pins, pins) && WellFormed(c) && |disk| == l.nblocks
    requires slot < l.nblocks && home < l.nblocks && slot != home && (unpin <==> home in pins)
    requires CopyHome(l, disk, c, slot, home, unpin) == Some(st)
    ensures st.disk == disk[home := View(l.dev, disk, c, slot)] && WellFormed(st.cache) && |st.cache.buf| == NBUF
    ensures CacheInv(l, st.disk, st.cache, refs, pins - {home}, pins - {home})
    ensures Edited(l.dev, disk, c, st.disk, st.cache, home, View(l.dev, disk, c, slot))
  {
    hide CacheInv, Bread, View, BRelse, SameView, Edited;
    var (c1, i) := Bread(disk, c, KERNEL, l.dev, slot).value;
    var (c2, j) := Bread(disk, c1, KERNEL, l.dev, home).value;
    BreadPairKeeps(l, disk, c, refs, pins, KERNEL, slot, home, c1, i, c2, j);
    Shape(l, disk, c2, refs[i := refs[i] + 1][j := refs[j] + 1], pins, pins);
    var c3 := SetData(c2, j, c2.buf[i].data);
    UpdatesCommute(refs, i, j, refs[i] + 1, refs[j] + 1);
    CopyKeeps(l, disk, c, refs, pins, c2, j, i, c2.buf[i].data, if unpin then BUnpin(c3, j) else c3);
  }

  /** write_head stores the list in the header block and touches nothing else. */
  lemma StoreHeadIs(l: Layout, disk: seq<Block>, c: Cache, lh: seq<nat>, st: Store)
    requires WellFormed(c) && l.start < |disk|
    requires |lh| <= LOGSIZE && forall k :: 0 <= k < |lh| ==> lh[k] < WORD_LIMIT
    requires StoreHead(l, disk, c, lh) == Some(st)
    ensures Bread(disk, c, KERNEL, l.dev, l.start).Some?
    ensures var (c1, i) := Bread(disk, c, KERNEL, l.dev, l.start).value;
            && i < |c1.buf|
            && st == Store(disk[l.start := PutHead(c1.buf[i].data, lh)],
                           BRelse(SetData(c1, i, PutHead(c1.buf[i].data, lh)), i))
  {
    hide Bread, BRelse, PutHead;
  }

  lemma StoreHeadKeeps(l: Layout, disk: seq<Block>, c: Cache, refs: seq<nat>, pins: set<nat>, lh: seq<nat>, st: Store)
    requires CacheInv(l, disk, c, refs, pins, pins) && WellFormed(c) && |disk| == l.nblocks
    requires l.start < l.nblocks && l.start !in pins
    requires |lh| <= LOGSIZE && forall k :: 0 <= k < |lh| ==> lh[k] < WORD_LIMIT
    requires StoreHead(l, disk, c, lh) == Some(st)
    ensures st.disk == disk[l.start := PutHead(View(l.dev, disk, c, l.start), lh)] && WellFormed(st.cache)
    ensures |st.cache.buf| == NBUF
    ensures CacheInv(l, st.disk, st.cache, refs, pins, pins)
    ensures Edited(l.dev, disk, c, st.disk, st.cache, l.start, PutHead(View(l.dev, disk, c, l.start), lh))
  {
    Shape(l, disk, c, refs, pins, pins);
    hide CacheInv, Bread, View, BRelse, SameView, Edited, StoreHead, WellFormed, PutHead, SetData;
    StoreHeadIs(l, disk, c, lh, st);
    var (c1, i) := Bread(disk, c, KERNEL, l.dev, l.start).value;
    BreadKeeps(l, disk, c, refs, pins, pins, KERNEL, l.start);
    var data := PutHead(c1.buf[i].data, lh);
    var held := refs[i := refs[i] + 1];
    WriteThroughKeeps(l, disk, c1, held, pins, pins, i, data);
    assert pins - {l.start} == pins;
    var disk' := disk[l.start := data];
    RelseKeeps(l, disk', SetData(c1, i, data), held, pins, pins, i);
    assert held[i := held[i] - 1] == refs;
    Shape(l, disk', SetData(c1, i, data), held, pins, pins);
    Shape(l, disk', st.cache, refs, pins, pins);
    EditedBetween(l.dev, disk, c, c1, disk', SetData(c1, i, data), st.cache, l.start, data);
  }
}
