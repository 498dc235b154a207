/** The buffer cache of kernel/bio.c as values: NBUF buffers and the order in
    which the linked list visits them, most recently used first. */
module BufferCache {
  import opened Blocks

  const NBUF: nat := 30
  const HEAD: nat := NBUF

  type Pid = nat

  /** struct buf without its links; owner is the holder of the sleep lock. */
  datatype Buf = Buf(dev: nat, blockno: nat, valid: bool, refcnt: nat, owner: Option<Pid>, data: Block) {
    predicate Holds(d: nat, b: nat) {
      dev == d && blockno == b
    }
  }

  datatype Cache = Cache(buf: seq<Buf>, lru: seq<nat>)

  const EMPTY_BUF := Buf(0, 0, false, 0, None, Zeroed())

  ghost predicate Distinct(s: seq<nat>) {
    forall i, j :: 0 <= i < j < |s| ==> s[i] != s[j]
  }

  ghost predicate IsPermutation(s: seq<nat>) {
    && Distinct(s)
    && (forall i :: 0 <= i < |s| ==> s[i] < NBUF)
    && (forall k :: 0 <= k < NBUF ==> k in s)
  }

  ghost predicate WellFormed(c: Cache) {
    |c.buf| == NBUF && IsPermutation(c.lru)
  }

  /** At most one buffer per block; only the label (0,0) that binit leaves everywhere may repeat. */
  ghost predicate UniqueLabels(c: Cache) {
    forall i, j :: 0 <= i < |c.buf| && 0 <= j < |c.buf| && i != j
      && c.buf[i].dev == c.buf[j].dev && c.buf[i].blockno == c.buf[j].blockno
      ==> c.buf[i].dev == 0 && c.buf[i].blockno == 0
  }

  /** First buffer in list order that holds the block. */
  function Find(buf: seq<Buf>, order: seq<nat>, dev: nat, b: nat): (r: Option<nat>)
    requires forall k :: 0 <= k < |order| ==> order[k] < |buf|
    ensures r.Some? ==> r.value in order && buf[r.value].Holds(dev, b)
    ensures r.None? ==> forall k :: k in order ==> !buf[k].Holds(dev, b)
  {
    if order == [] then None
    else if buf[order[0]].Holds(dev, b) then Some(order[0])
    else Find(buf, order[1..], dev, b)
  }

  /** Least recently used buffer that nobody references. */
  function FindFree(buf: seq<Buf>, order: seq<nat>): (r: Option<nat>)
    requires forall k :: 0 <= k < |order| ==> order[k] < |buf|
    ensures r.Some? ==> r.value in order && buf[r.value].refcnt == 0
    ensures r.None? ==> forall k :: k in order ==> buf[k].refcnt != 0
  {
    if order == [] then None
    else if buf[order[|order| - 1]].refcnt == 0 then Some(order[|order| - 1])
    else FindFree(buf, order[..|order| - 1])
  }

  /** bget up to its acquiresleep; None is the "bget: no buffers" panic. */
  function BGet(c: Cache, dev: nat, b: nat): (r: Option<(Cache, nat)>)
    requires WellFormed(c)
    ensures r.Some? ==> WellFormed(r.value.0) && r.value.1 < NBUF && r.value.0.buf[r.value.1].Holds(dev, b)
  {
    match Find(c.buf, c.lru, dev, b)
    case Some(i) =>
      Some((c.(buf := c.buf[i := c.buf[i].(refcnt := c.buf[i].refcnt + 1)]), i))
    case None =>
      match FindFree(c.buf, c.lru)
      case Some(i) =>
        Some((c.(buf := c.buf[i := c.buf[i].(dev := dev, blockno := b, valid := false, refcnt := 1)]), i))
      case None => None
  }

  function Lock(c: Cache, i: nat, p: Pid): Cache
    requires i < |c.buf|
  {
    c.(buf := c.buf[i := c.buf[i].(owner := Some(p))])
  }

  /** The rest of bread: read the block from disk unless the buffer is valid. */
  function Fill(disk: seq<Block>, c: Cache, i: nat): Cache
    requires i < |c.buf| && c.buf[i].blockno < |disk|
  {
    if c.buf[i].valid then c
    else c.(buf := c.buf[i := c.buf[i].(valid := true, data := disk[c.buf[i].blockno])])
  }

  function Bread(disk: seq<Block>, c: Cache, p: Pid, dev: nat, b: nat): (r: Option<(Cache, nat)>)
    requires WellFormed(c) && b < |disk|
    ensures r.Some? ==> WellFormed(r.value.0) && r.value.1 < NBUF && r.value.0.buf[r.value.1].Holds(dev, b)
  {
    match BGet(c, dev, b)
    case Some(got) => Some((Fill(disk, Lock(got.0, got.1, p), got.1), got.1))
    case None => None
  }

  /** bread changes one buffer, and never one that is referenced for another block. */
  lemma BreadOne(disk: seq<Block>, c: Cache, p: Pid, dev: nat, b: nat)
    requires WellFormed(c) && b < |disk| && Bread(disk, c, p, dev, b).Some?
    ensures var (c', i) := Bread(disk, c, p, dev, b).value;
      && c'.buf == c.buf[i := c'.buf[i]] && c'.lru == c.lru
      && c'.buf[i].owner == Some(p) && c'.buf[i].valid && c'.buf[i].refcnt > 0
      && (c.buf[i].refcnt > 0 ==> c.buf[i].Holds(dev, b))
  {
  }

  function SetData(c: Cache, i: nat, data: Block): Cache
    requires i < |c.buf|
  {
    c.(buf := c.buf[i := c.buf[i].(data := data)])
  }

  function Remove(s: seq<nat>, x: nat): (r: seq<nat>)
    ensures forall y :: y in r ==> y in s
  {
    if s == [] then [] else if s[0] == x then s[1..] else [s[0]] + Remove(s[1..], x)
  }

  /** refcnt-- on an unsigned int. */
  function Decremented(n: nat): nat {
    if n == 0 then WORD_LIMIT - 1 else n - 1
  }

  /** brelse: unlock, drop the reference, and move an unreferenced buffer to the front. */
  function BRelse(c: Cache, i: nat): Cache
    requires i < |c.buf|
  {
    var b := c.buf[i].(owner := None, refcnt := Decremented(c.buf[i].refcnt));
    Cache(c.buf[i := b], if b.refcnt == 0 then [i] + Remove(c.lru, i) else c.lru)
  }

  function BPin(c: Cache, i: nat): Cache
    requires i < |c.buf|
  {
    c.(buf := c.buf[i := c.buf[i].(refcnt := c.buf[i].refcnt + 1)])
  }

  function BUnpin(c: Cache, i: nat): Cache
    requires i < |c.buf|
  {
    c.(buf := c.buf[i := c.buf[i].(refcnt := Decremented(c.buf[i].refcnt))])
  }

  /** The list binit builds: every buffer pushed at the front in turn. */
  function Countdown(n: nat): (s: seq<nat>)
    ensures |s| == n && Distinct(s)
    ensures (forall i :: 0 <= i < n ==> s[i] < n) && (forall k :: 0 <= k < n ==> k in s)
  {
    if n == 0 then []
    else
      var rest := Countdown(n - 1);
      assert forall i :: 0 <= i < |rest| ==> rest[i] in rest;
      [n - 1] + rest
  }

  const INITIAL_CACHE := Cache(seq(NBUF, _ => EMPTY_BUF), Countdown(NBUF))

  // ----- the list stays a permutation -----

  lemma {:induction false} RemoveAt(s: seq<nat>, k: nat)
    requires Distinct(s) && k < |s|
    ensures Remove(s, s[k]) == s[..k] + s[k + 1..]
  {
    if k > 0 {
      RemoveAt(s[1..], k - 1);
      assert s[..k] + s[k + 1..] == [s[0]] + (s[1..][..k - 1] + s[1..][k..]);
    }
  }

  /** Position after the move of the element that was at position m. */
  function Moved(m: nat, k: nat): nat {
    if m < k then m + 1 else if m == k then 0 else m
  }

  lemma MovedElements(s: seq<nat>, k: nat)
    requires k < |s|
    ensures var r := [s[k]] + (s[..k] + s[k + 1..]);
      && |r| == |s|
      && (forall m :: 0 < m < |r| ==> r[m] == s[if m <= k then m - 1 else m])
      && (forall m :: 0 <= m < |s| ==> Moved(m, k) < |r| && r[Moved(m, k)] == s[m])
  {
  }

  lemma MovedDistinct(s: seq<nat>, r: seq<nat>, k: nat)
    requires Distinct(s) && k < |s| == |r| && r[0] == s[k]
    requires forall m :: 0 < m < |r| ==> r[m] == s[if m <= k then m - 1 else m]
    ensures Distinct(r)
  {
  }

  lemma MovedCovers(s: seq<nat>, r: seq<nat>, k: nat, x: nat)
    requires k < |s| == |r| && x in s
    requires forall m :: 0 <= m < |s| ==> Moved(m, k) < |r| && r[Moved(m, k)] == s[m]
    ensures x in r
  {
    var m :| 0 <= m < |s| && s[m] == x;
    assert r[Moved(m, k)] == x;
  }

  lemma MoveToFront(s: seq<nat>, i: nat)
    requires IsPermutation(s) && i < NBUF
    ensures IsPermutation([i] + Remove(s, i))
  {
    assert i in s;
    var k :| 0 <= k < |s| && s[k] == i;
    RemoveAt(s, k);
    MovedElements(s, k);
    var r := [s[k]] + (s[..k] + s[k + 1..]);
    MovedDistinct(s, r, k);
    hide Moved, Distinct, Remove;
    forall x | 0 <= x < NBUF ensures x in r {
      MovedCovers(s, r, k, x);
    }
  }

  /** brelse lets the next one lock the buffer and drops one reference; block, contents and all other
      buffers stay. */
  lemma RelseUnlocks(c: Cache, i: nat)
    requires i < |c.buf| && c.buf[i].refcnt > 0
    ensures |BRelse(c, i).buf| == |c.buf|
    ensures var b, b' := c.buf[i], BRelse(c, i).buf[i];
            && b'.owner == None && b'.refcnt == b.refcnt - 1 && b'.Holds(b.dev, b.blockno)
            && b'.valid == b.valid && b'.data == b.data
    ensures forall k: nat :: k < |c.buf| && k != i ==> BRelse(c, i).buf[k] == c.buf[k]
  {
  }

  /** brelse keeps the list a permutation of the buffers. */
  lemma BRelseWellFormed(c: Cache, i: nat)
    requires WellFormed(c) && i < NBUF
    ensures WellFormed(BRelse(c, i))
  {
    MoveToFront(c.lru, i);
  }

  /** bget never creates a second buffer for a block. */
  lemma BGetUnique(c: Cache, dev: nat, b: nat)
    requires WellFormed(c) && UniqueLabels(c)
    ensures BGet(c, dev, b).Some? ==> UniqueLabels(BGet(c, dev, b).value.0)
  {
    if Find(c.buf, c.lru, dev, b).None? {
      forall k | 0 <= k < NBUF ensures !c.buf[k].Holds(dev, b) {
        assert k in c.lru;
      }
    }
  }

  /** The label (0,0) is the exception: at boot every buffer carries it. */
  lemma BootLabelsRepeat()
    ensures WellFormed(INITIAL_CACHE) && UniqueLabels(INITIAL_CACHE)
    ensures INITIAL_CACHE.buf[0].Holds(0, 0) && INITIAL_CACHE.buf[1].Holds(0, 0)
  {
  }

  /** The recycled buffer is the least recently used of those that nobody references. */
  lemma {:induction false} FindFreeOldest(buf: seq<Buf>, order: seq<nat>) returns (p: nat)
    requires forall k :: 0 <= k < |order| ==> order[k] < |buf|
    requires FindFree(buf, order).Some?
    ensures p < |order| && order[p] == FindFree(buf, order).value && buf[order[p]].refcnt == 0
    ensures forall q :: p < q < |order| ==> buf[order[q]].refcnt != 0
    decreases |order|
  {
    if buf[order[|order| - 1]].refcnt == 0 {
      p := |order| - 1;
    } else {
      p := FindFreeOldest(buf, order[..|order| - 1]);
    }
  }

  /** When labels are unique the search does not depend on the list order. */
  lemma FindIs(c: Cache, dev: nat, b: nat, i: nat)
    requires WellFormed(c) && UniqueLabels(c) && dev != 0
    requires i < NBUF && c.buf[i].Holds(dev, b)
    ensures Find(c.buf, c.lru, dev, b) == Some(i)
  {
    assert i in c.lru;
  }
}
