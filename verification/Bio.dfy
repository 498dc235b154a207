/** kernel/bio.c in place: the buffers and their doubly linked list. */
module Bio {
  import opened Blocks
  import opened BufferCache

  /** The virtio disk: whole blocks are read and written atomically. */
  class Disk {
    var blocks: seq<Block>

    constructor (contents: seq<Block>)
      ensures blocks == contents
    {
      blocks := contents;
    }

    method Read(b: nat) returns (data: Block)
      requires b < |blocks|
      ensures data == blocks[b]
    {
      data := blocks[b];
    }

    method Write(b: nat, data: Block)
      requires b < |blocks|
      modifies this
      ensures blocks == old(blocks)[b := data]
    {
      blocks := blocks[b := data];
    }
  }

  /** Position i of the ring that starts and ends at the head. */
  function Node(lru: seq<nat>, i: int): nat {
    if 0 <= i < |lru| then lru[i] else HEAD
  }

  ghost predicate Link(next: seq<nat>, prev: seq<nat>, lru: seq<nat>, i: int) {
    && Node(lru, i) < |next| && Node(lru, i + 1) < |prev|
    && next[Node(lru, i)] == Node(lru, i + 1) && prev[Node(lru, i + 1)] == Node(lru, i)
  }

  /** next and prev link HEAD and the buffers in list order, both ways round. */
  ghost predicate Linked(next: seq<nat>, prev: seq<nat>, lru: seq<nat>) {
    && |next| == NBUF + 1 == |prev| && Distinct(lru)
    && (forall i :: 0 <= i < |lru| ==> lru[i] < NBUF)
    && (forall i :: -1 <= i < |lru| ==> Link(next, prev, lru, i))
  }

  lemma NodesDiffer(lru: seq<nat>, i: int, j: int)
    requires Distinct(lru) && (forall i :: 0 <= i < |lru| ==> lru[i] < NBUF)
    requires -1 <= i < j <= |lru| && !(i == -1 && j == |lru|)
    ensures Node(lru, i) != Node(lru, j)
  {
  }

  /** Inserting after the head. */
  lemma LinkFront(next: seq<nat>, prev: seq<nat>, lru: seq<nat>, b: nat)
    requires Linked(next, prev, lru) && b < NBUF && b !in lru
    ensures next[HEAD] < |prev|
    ensures Linked(next[b := next[HEAD]][HEAD := b], prev[b := HEAD][next[HEAD] := b], [b] + lru)
  {
    assert Link(next, prev, lru, -1);
    var r := [b] + lru;
    var n, p := next[b := next[HEAD]][HEAD := b], prev[b := HEAD][next[HEAD] := b];
    forall i | -1 <= i < |r| ensures Link(n, p, r, i) {
      assert i >= 0 ==> Node(r, i + 1) == Node(lru, i);
      if i >= 1 {
        assert Node(r, i) == Node(lru, i - 1);
        assert Link(next, prev, lru, i - 1);
        NodesDiffer(lru, 0, i);
        assert Node(lru, i - 1) == lru[i - 1] && lru[i - 1] in lru;
        assert i < |lru| ==> lru[i] in lru;
      }
    }
  }

  /** Unlinking the k-th buffer. */
  lemma Unlink(next: seq<nat>, prev: seq<nat>, lru: seq<nat>, k: nat)
    requires Linked(next, prev, lru) && k < |lru|
    ensures var b := lru[k];
      next[b] < |prev| && prev[b] < |next|
      && Linked(next[prev[b] := next[b]], prev[next[b] := prev[b]], lru[..k] + lru[k + 1..])
  {
    var b := lru[k];
    assert Link(next, prev, lru, k) && Link(next, prev, lru, k - 1);
    var r := lru[..k] + lru[k + 1..];
    var n, p := next[prev[b] := next[b]], prev[next[b] := prev[b]];
    forall i | -1 <= i < |r| ensures Link(n, p, r, i) {
      assert Node(r, i) == Node(lru, if i < k then i else i + 1);
      assert Node(r, i + 1) == Node(lru, if i + 1 < k then i + 1 else i + 2);
      if i < k - 1 {
        assert Link(next, prev, lru, i);
        NodesDiffer(lru, i, k - 1);
        NodesDiffer(lru, i + 1, k + 1);
      } else if i >= k {
        assert Link(next, prev, lru, i + 1);
        NodesDiffer(lru, k - 1, i + 1);
        NodesDiffer(lru, k + 1, i + 2);
      }
    }
  }

  class Bcache {
    const buf: array<Buf>
    const next: array<nat>
    const prev: array<nat>
    ghost var lru: seq<nat>

    ghost predicate Valid()
      reads this, buf, next, prev
    {
      && buf.Length == NBUF && next.Length == NBUF + 1 == prev.Length && next != prev
      && IsPermutation(lru)
      && Linked(next[..], prev[..], lru)
    }

    ghost function Abs(): Cache
      reads this, buf
    {
      Cache(buf[..], lru)
    }

    /** binit: every buffer pushed at the front of an empty ring. */
    constructor ()
      ensures Valid() && fresh(buf) && fresh(next) && fresh(prev)
      ensures Abs() == INITIAL_CACHE
    {
      buf := new Buf[NBUF](_ => EMPTY_BUF);
      next := new nat[NBUF + 1](_ => HEAD);
      prev := new nat[NBUF + 1](_ => HEAD);
      lru := [];
      new;
      for b := 0 to NBUF
        invariant lru == Countdown(b) && Linked(next[..], prev[..], lru)
        invariant buf[..] == seq(NBUF, _ => EMPTY_BUF)
      {
        LinkFront(next[..], prev[..], lru, b);
        next[b] := next[HEAD];
        prev[b] := HEAD;
        prev[next[HEAD]] := b;
        next[HEAD] := b;
        lru := [b] + lru;
      }
    }

    /** bget's first loop: search from the most recently used end. */
    method FindCached(dev: nat, blockno: nat) returns (r: Option<nat>)
      requires Valid()
      ensures r == Find(buf[..], lru, dev, blockno)
    {
      assert Link(next[..], prev[..], lru, -1);
      var b := next[HEAD];
      ghost var k := 0;
      assert lru[0..] == lru;
      while b != HEAD
        invariant 0 <= k <= |lru| && b == Node(lru, k)
        invariant Find(buf[..], lru, dev, blockno) == Find(buf[..], lru[k..], dev, blockno)
        decreases |lru| - k
      {
        assert lru[k..][1..] == lru[k + 1..] && Link(next[..], prev[..], lru, k);
        if buf[b].dev == dev && buf[b].blockno == blockno {
          return Some(b);
        }
        b, k := next[b], k + 1;
      }
      return None;
    }

    /** bget's second loop: search from the least recently used end. */
    method FindUnused() returns (r: Option<nat>)
      requires Valid()
      ensures r == FindFree(buf[..], lru)
    {
      assert Link(next[..], prev[..], lru, |lru| - 1);
      var b := prev[HEAD];
      ghost var k := |lru|;
      assert lru[..k] == lru;
      while b != HEAD
        invariant 0 <= k <= |lru| && b == Node(lru, k - 1)
        invariant FindFree(buf[..], lru) == FindFree(buf[..], lru[..k])
        decreases k
      {
        assert lru[..k][..k - 1] == lru[..k - 1] && Link(next[..], prev[..], lru, k - 2);
        if buf[b].refcnt == 0 {
          return Some(b);
        }
        b, k := prev[b], k - 1;
      }
      return None;
    }

    /** bget by process p: the buffer locked, or only referenced where p has to wait for its lock. */
    method Bget(p: Pid, dev: nat, blockno: nat) returns (r: Option<nat>, waits: bool)
      requires Valid()
      modifies buf
      ensures Valid() && lru == old(lru)
      ensures match BGet(old(Abs()), dev, blockno)
              case Some((c, i)) =>
                r == Some(i) && (waits <==> c.buf[i].owner.Some?) && Abs() == if waits then c else Lock(c, i, p)
              case None => r == None && !waits && Abs() == old(Abs())
      ensures r.Some? ==>
                r.value < NBUF && buf[r.value].Holds(dev, blockno) && (!waits ==> buf[r.value].owner == Some(p))
    {
      r := FindCached(dev, blockno);
      if r.Some? {
        var b := r.value;
        buf[b] := buf[b].(refcnt := buf[b].refcnt + 1);
      } else {
        r := FindUnused();
        if r.None? {
          return None, false;
        }
        var b := r.value;
        buf[b] := buf[b].(dev := dev, blockno := blockno, valid := false, refcnt := 1);
      }
      waits := buf[r.value].owner.Some?;
      if !waits {
        buf[r.value] := buf[r.value].(owner := Some(p));
      }
    }

    /** bread by process p. */
    method BreadBlock(p: Pid, disk: Disk, dev: nat, blockno: nat) returns (r: Option<nat>, waits: bool)
      requires Valid() && blockno < |disk.blocks|
      modifies buf
      ensures Valid() && lru == old(lru)
      ensures match BGet(old(Abs()), dev, blockno)
              case Some((c, i)) =>
                r == Some(i) && (waits <==> c.buf[i].owner.Some?)
                && (if waits then Abs() == c else Bread(disk.blocks, old(Abs()), p, dev, blockno) == Some((Abs(), i)))
              case None =>
                && r == None && !waits && Abs() == old(Abs())
                && Bread(disk.blocks, old(Abs()), p, dev, blockno) == None
    {
      r, waits := Bget(p, dev, blockno);
      if r.Some? && !waits {
        var i := r.value;
        if !buf[i].valid {
          var data := disk.Read(blockno);
          buf[i] := buf[i].(valid := true, data := data);
        }
      }
    }

    /** bwrite by process p, which panics unless it holds the lock. */
    method Bwrite(p: Pid, i: nat, disk: Disk) returns (panic: bool)
      requires Valid() && i < NBUF && buf[i].blockno < |disk.blocks|
      modifies disk
      ensures panic <==> buf[i].owner != Some(p)
      ensures disk.blocks == if panic then old(disk.blocks) else old(disk.blocks)[buf[i].blockno := buf[i].data]
    {
      if buf[i].owner != Some(p) {
        return true;
      }
      disk.Write(buf[i].blockno, buf[i].data);
      return false;
    }

    /** brelse by process p, which panics unless it holds the lock: an unreferenced buffer becomes
        the most recently used one. */
    method Brelse(p: Pid, i: nat) returns (panic: bool)
      requires Valid() && i < NBUF
      modifies this, buf, next, prev
      ensures panic <==> old(buf[i]).owner != Some(p)
      ensures Valid() && Abs() == if panic then old(Abs()) else BRelse(old(Abs()), i)
    {
      if buf[i].owner != Some(p) {
        return true;
      }
      panic := false;
      buf[i] := buf[i].(owner := None, refcnt := Decremented(buf[i].refcnt));
      if buf[i].refcnt == 0 {
        assert i in lru;
        ghost var k :| 0 <= k < |lru| && lru[k] == i;
        ghost var rest := lru[..k] + lru[k + 1..];
        RemoveAt(lru, k);
        MoveToFront(lru, i);
        Unlink(next[..], prev[..], lru, k);
        ghost var n0: seq<nat>, p0: seq<nat> := next[..], prev[..];
        prev[next[i]] := prev[i];
        next[prev[i]] := next[i];
        assert next[..] == n0[p0[i] := n0[i]] && prev[..] == p0[n0[i] := p0[i]];
        LinkFront(next[..], prev[..], rest, i);
        ghost var n1: seq<nat>, p1: seq<nat> := next[..], prev[..];
        next[i] := next[HEAD];
        prev[i] := HEAD;
        prev[next[HEAD]] := i;
        next[HEAD] := i;
        assert next[..] == n1[i := n1[HEAD]][HEAD := i] && prev[..] == p1[i := HEAD][n1[HEAD] := i];
        lru := [i] + rest;
      }
    }

    method Bpin(i: nat)
      requires Valid() && i < NBUF
      modifies buf
      ensures Valid() && Abs() == BPin(old(Abs()), i)
    {
      buf[i] := buf[i].(refcnt := buf[i].refcnt + 1);
    }

    method Bunpin(i: nat)
      requires Valid() && i < NBUF
      modifies buf
      ensures Valid() && Abs() == BUnpin(old(Abs()), i)
    {
      buf[i] := buf[i].(refcnt := Decremented(buf[i].refcnt));
    }

    /** The holder of a buffer overwrites its data. */
    method Store(i: nat, data: Block)
      requires Valid() && i < NBUF
      modifies buf
      ensures Valid() && Abs() == SetData(old(Abs()), i, data)
    {
      buf[i] := buf[i].(data := data);
    }
  }
}
