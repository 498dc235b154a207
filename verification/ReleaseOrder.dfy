/** What "least recently used" means in kernel/bio.c, told from the calls alone: the list is in the order
    of the last releases, whatever was called in between. */
module ReleaseOrder {
  import opened Blocks
  import opened BufferCache

  /** A call and the buffer it is about: bget for a block, brelse, bpin, bunpin, and what the holder of a
      buffer does to its lock, its valid flag and its data. */
  datatype Event =
    | Get(dev: nat, b: nat, i: nat)
    | Relse(i: nat)
    | Pin(i: nat)
    | Unpin(i: nat)
    | Use(i: nat, owner: Option<Pid>, valid: bool, data: Block)

  /** One call; None where bget gives another buffer or panics, or a reference is dropped that nobody has. */
  function Call(c: Cache, e: Event): (r: Option<Cache>)
    requires WellFormed(c)
    ensures r.Some? ==> WellFormed(r.value)
  {
    if e.i >= NBUF then None
    else match e
      case Get(dev, b, i) =>
        var got := BGet(c, dev, b);
        if got.Some? && got.value.1 == i then Some(got.value.0) else None
      case Relse(i) =>
        if c.buf[i].refcnt == 0 then None
        else
          BRelseWellFormed(c, i);
          Some(BRelse(c, i))
      case Pin(i) => Some(BPin(c, i))
      case Unpin(i) => if c.buf[i].refcnt == 0 then None else Some(BUnpin(c, i))
      case Use(i, owner, valid, data) =>
        Some(c.(buf := c.buf[i := c.buf[i].(owner := owner, valid := valid, data := data)]))
  }

  /** The cache after some calls, from c0 on. */
  function After(c0: Cache, events: seq<Event>): (r: Option<Cache>)
    requires WellFormed(c0)
    ensures r.Some? ==> WellFormed(r.value)
  {
    if events == [] then Some(c0)
    else
      var c := After(c0, events[..|events| - 1]);
      if c.None? then None else Call(c.value, events[|events| - 1])
  }

  // ----- the same, counted off the calls -----

  /** References taken and not yet dropped. */
  function Refs(events: seq<Event>, i: nat): int {
    if events == [] then 0
    else
      var e := events[|events| - 1];
      Refs(events[..|events| - 1], i)
      + (if e.i != i || e.Use? then 0 else if e.Get? || e.Pin? then 1 else -1)
  }

  /** The number of the last release that left the buffer without references, 0 if there was none. */
  function LastFreed(events: seq<Event>, i: nat): (n: nat)
    ensures n <= |events|
  {
    if events == [] then 0
    else if events[|events| - 1] == Relse(i) && Refs(events, i) == 0 then |events|
    else LastFreed(events[..|events| - 1], i)
  }

  /** Buffer i has been unused for longer than j; those never released count by their index. */
  predicate Older(events: seq<Event>, i: nat, j: nat) {
    LastFreed(events, i) < LastFreed(events, j) || (LastFreed(events, i) == 0 == LastFreed(events, j) && i < j)
  }

  ghost predicate ByRelease(events: seq<Event>, lru: seq<nat>) {
    forall p: nat, q: nat :: p < q < |lru| ==> Older(events, lru[q], lru[p])
  }

  ghost predicate Counted(events: seq<Event>, c: Cache) {
    && |c.buf| == NBUF
    && forall i: nat :: i < NBUF ==> c.buf[i].refcnt == Refs(events, i)
  }

  lemma {:induction false} CountdownFalls(n: nat)
    ensures forall p: nat, q: nat :: p < q < n ==> Countdown(n)[q] < Countdown(n)[p]
  {
    if n > 0 {
      CountdownFalls(n - 1);
    }
  }

  lemma GetCounts(c: Cache, dev: nat, b: nat)
    requires WellFormed(c) && BGet(c, dev, b).Some?
    ensures var (c', i) := BGet(c, dev, b).value;
            && c'.lru == c.lru && c'.buf == c.buf[i := c'.buf[i]] && c'.buf[i].refcnt == c.buf[i].refcnt + 1
  {
  }

  lemma CallCounts(events: seq<Event>, c: Cache, e: Event, c': Cache)
    requires WellFormed(c) && Counted(events, c) && Call(c, e) == Some(c')
    ensures Counted(events + [e], c')
  {
    hide WellFormed, BGet;
    assert (events + [e])[..|events|] == events;
    if e.Get? {
      GetCounts(c, e.dev, e.b);
    }
  }

  /** A release that leaves references, or any other call, moves nothing. */
  lemma OthersStay(events: seq<Event>, c: Cache, e: Event, c': Cache)
    requires WellFormed(c) && Counted(events, c) && ByRelease(events, c.lru) && Call(c, e) == Some(c')
    requires !e.Relse? || c.buf[e.i].refcnt != 1
    ensures ByRelease(events + [e], c'.lru)
  {
    hide WellFormed, BGet;
    assert (events + [e])[..|events|] == events;
    if e.Get? {
      GetCounts(c, e.dev, e.b);
    }
    forall p: nat, q: nat | p < q < |c'.lru| ensures Older(events + [e], c'.lru[q], c'.lru[p]) {
      assert Older(events, c.lru[q], c.lru[p]);
    }
  }

  /** A release that leaves none makes the buffer the one used last. */
  lemma ReleasedIsFirst(events: seq<Event>, c: Cache, i: nat)
    requires WellFormed(c) && Counted(events, c) && ByRelease(events, c.lru)
    requires i < NBUF && c.buf[i].refcnt == 1
    ensures ByRelease(events + [Relse(i)], BRelse(c, i).lru)
  {
    hide Remove, ByRelease, LastFreed, Refs;
    assert i in c.lru;
    var k: nat :| k < |c.lru| && c.lru[k] == i;
    RemoveAt(c.lru, k);
    FrontInOrder(events, c.lru, k);
  }

  lemma FrontInOrder(events: seq<Event>, lru: seq<nat>, k: nat)
    requires ByRelease(events, lru) && k < |lru| && Refs(events, lru[k]) == 1
    ensures ByRelease(events + [Relse(lru[k])], [lru[k]] + (lru[..k] + lru[k + 1..]))
  {
    var events', r := events + [Relse(lru[k])], [lru[k]] + (lru[..k] + lru[k + 1..]);
    assert events'[..|events|] == events;
    assert LastFreed(events', lru[k]) == |events'|;
    hide LastFreed, Refs;
    forall p: nat, q: nat | p < q < |r| ensures Older(events', r[q], r[p]) {
      var q' := if q <= k then q - 1 else q;
      assert r[q] == lru[q'];
      NotAgain(events, lru, k, q');
      if p > 0 {
        var p' := if p <= k then p - 1 else p;
        assert r[p] == lru[p'];
        NotAgain(events, lru, k, p');
        assert Older(events, lru[q'], lru[p']);
      }
    }
  }

  /** The release of a buffer is not that of another. */
  lemma NotAgain(events: seq<Event>, lru: seq<nat>, k: nat, m: nat)
    requires ByRelease(events, lru) && k < |lru| && m < |lru| && m != k
    ensures lru[m] != lru[k]
    ensures LastFreed(events + [Relse(lru[k])], lru[m]) == LastFreed(events, lru[m])
  {
    assert (events + [Relse(lru[k])])[..|events|] == events;
    assert m < k ==> Older(events, lru[k], lru[m]);
    assert k < m ==> Older(events, lru[m], lru[k]);
  }

  lemma CallInOrder(events: seq<Event>, c: Cache, e: Event, c': Cache)
    requires WellFormed(c) && Counted(events, c) && ByRelease(events, c.lru) && Call(c, e) == Some(c')
    ensures Counted(events + [e], c') && ByRelease(events + [e], c'.lru)
  {
    hide ByRelease, BGet, Remove, Refs, LastFreed;
    CallCounts(events, c, e, c');
    if e.Relse? && c.buf[e.i].refcnt == 1 {
      ReleasedIsFirst(events, c, e.i);
    } else {
      OthersStay(events, c, e, c');
    }
  }

  lemma BootInOrder()
    ensures Counted([], INITIAL_CACHE) && ByRelease([], INITIAL_CACHE.lru)
  {
    CountdownFalls(NBUF);
  }

  /** After any calls, in any order and of any processes: a buffer has the references taken and not
      dropped, and the list is in the order of the last releases that left none, the latest first; behind
      them come the buffers never released, as binit linked them. */
  lemma {:induction false} ListInOrder(events: seq<Event>, c: Cache)
    requires After(INITIAL_CACHE, events) == Some(c)
    ensures Counted(events, c) && ByRelease(events, c.lru)
    decreases |events|
  {
    hide Counted, ByRelease, Call, Refs, LastFreed;
    if events == [] {
      BootInOrder();
    } else {
      var n := |events| - 1;
      var m := After(INITIAL_CACHE, events[..n]).value;
      ListInOrder(events[..n], m);
      CallInOrder(events[..n], m, events[n], c);
      assert events[..n] + [events[n]] == events;
    }
  }

  lemma NotCached(c: Cache, dev: nat, b: nat)
    requires WellFormed(c) && forall k: nat :: k < NBUF ==> !c.buf[k].Holds(dev, b)
    ensures BGet(c, dev, b).None? <==> FindFree(c.buf, c.lru).None?
    ensures BGet(c, dev, b).Some? ==> BGet(c, dev, b).value.1 == FindFree(c.buf, c.lru).value
  {
    assert Find(c.buf, c.lru, dev, b).None?;
  }

  /** Every buffer is referenced. */
  ghost predicate AllReferenced(events: seq<Event>) {
    forall j: nat :: j < NBUF ==> Refs(events, j) > 0
  }

  lemma OneFree(events: seq<Event>, c: Cache, i: nat)
    requires Counted(events, c) && i < NBUF && c.buf[i].refcnt == 0
    ensures Refs(events, i) == 0 && !AllReferenced(events)
  {
  }

  lemma NoneFree(events: seq<Event>, c: Cache)
    requires Counted(events, c) && WellFormed(c) && FindFree(c.buf, c.lru).None?
    ensures AllReferenced(events)
  {
    forall j: nat | j < NBUF ensures Refs(events, j) > 0 {
      assert j in c.lru;
    }
  }

  /** So bget, for a block that is not cached, recycles of all unreferenced buffers the one whose last
      release is the oldest, and it panics exactly if every buffer is referenced. */
  lemma RecyclesOldest(events: seq<Event>, c: Cache, dev: nat, b: nat)
    requires After(INITIAL_CACHE, events) == Some(c) && forall k: nat :: k < NBUF ==> !c.buf[k].Holds(dev, b)
    ensures BGet(c, dev, b).None? <==> AllReferenced(events)
    ensures BGet(c, dev, b).Some? ==>
              var i := BGet(c, dev, b).value.1;
              && Refs(events, i) == 0
              && forall j: nat :: j < NBUF && j != i && Refs(events, j) == 0 ==> Older(events, i, j)
  {
    hide After, LastFreed, FindFree, Older, BGet, AllReferenced;
    ListInOrder(events, c);
    NotCached(c, dev, b);
    if FindFree(c.buf, c.lru).Some? {
      var p := FindFreeOldest(c.buf, c.lru);
      var i: nat := c.lru[p];
      OneFree(events, c, i);
      forall j: nat | j < NBUF && j != i && Refs(events, j) == 0 ensures Older(events, i, j) {
        assert j in c.lru;
        var q: nat :| q < |c.lru| && c.lru[q] == j;
        assert q < p;
      }
    } else {
      NoneFree(events, c);
    }
  }
}
