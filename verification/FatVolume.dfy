/** fat_table.c and the read, write, truncate and delete operations of fat_file.c, over an
    in-memory table and the data clusters of the volume. A result `fault` says that the code
    reads the table outside its bounds. */
module FatVolume {
  import opened Blocks
  import opened ByteArrays
  import opened FatChains
  import opened FatBytes
  import opened FatFilling
  import opened FatSpace

  const EIO: int := 5
  const EOVERFLOW: int := 75

  class FatVolume {
    const num: nat                 // num_data_clusters
    const bpc: nat                 // 1 << cluster_order
    const fat: array<nat>
    const data: array<seq<Byte>>   // the bytes of each cluster
    var files: seq<File>
    var errno: int
    ghost var chains: seq<seq<nat>>

    ghost function State(): Vol
      reads this, fat, data
    {
      Vol(fat[..], data[..], chains)
    }

    /** All chains are acyclic, disjoint and long enough for the size of their file. */
    ghost predicate Valid()
      reads this, fat, data
    {
      && Good(num, bpc, State()) && |files| == |chains|
      && forall f: nat :: f < |files| ==> FileOk(bpc, files[f], chains[f])
    }

    ghost function FileBytes(f: nat): seq<Byte>
      requires bpc > 0 && f < |files| && f < |chains|
      reads this, fat, data
    {
      Content(bpc, data[..], chains[f], files[f].size)
    }

    constructor (num: nat, bpc: nat, fat: array<nat>, data: array<seq<Byte>>, files: seq<File>,
                 ghost chains: seq<seq<nat>>)
      ensures this.num == num && this.bpc == bpc && this.fat == fat && this.data == data
      ensures this.files == files && this.chains == chains && errno == 0
    {
      this.num, this.bpc, this.fat, this.data := num, bpc, fat, data;
      this.files, this.chains, errno := files, chains, 0;
    }

    // ----- fat_table.c -----

    function GetNext(c: nat): (next: nat)
      requires c < fat.Length
      reads fat
      ensures next == Next(num, fat[..], c)
    {
      if IsCluster(num, fat[c]) then fat[c] else EOC_MAX
    }

    method SetNext(c: nat, next: nat)
      requires c < fat.Length
      modifies fat
      ensures fat[..] == old(fat[..])[c := next]
    {
      fat[c] := next;
    }

    /** The cluster of byte offset: the end mark just past the chain, an error further on. */
    method SeekCluster(start: nat, offset: nat, ghost ch: seq<nat>) returns (c: nat)
      requires bpc > 0 && GoodTable(num, fat[..]) && Chain(num, fat[..], ch) && ch != [] && start == ch[0]
      modifies this`errno
      ensures Position(bpc, offset) <= |ch| ==> c == Linked(ch, Position(bpc, offset)) && errno == old(errno)
      ensures Position(bpc, offset) > |ch| ==> c == 0 && errno == EOVERFLOW
    {
      var toMove := Position(bpc, offset);
      c := start;
      for i := 0 to toMove
        invariant i <= |ch| && c == Linked(ch, i) && errno == old(errno)
      {
        assert i < |ch| ==> LinkAt(num, fat[..], ch, i);
        if c == EOC_MAX {
          errno := EOVERFLOW;
          return 0;
        }
        c := GetNext(c);
      }
    }

    /** The lowest free cluster; the end mark when the first free entry lies past the clusters. */
    method GetNextFree() returns (c: nat, fault: bool)
      requires GoodTable(num, fat[..])
      ensures fault <==> NoneFree(fat[..])
      ensures !fault && IsCluster(num, c) ==> LowestFree(fat[..], c)
      ensures !fault && !IsCluster(num, c) ==> c == EOC_MAX && DiskFull(num, fat[..])
    {
      c := 2;
      while c < fat.Length && fat[c] != FREE
        invariant 2 <= c <= fat.Length
        invariant forall k: nat :: 2 <= k < c ==> fat[..][k] != FREE
      {
        c := c + 1;
      }
      if c == fat.Length {
        return c, true;
      }
      assert fat[..][c] == FREE;
      if !IsCluster(num, c) {
        return EOC_MAX, false;
      }
      return c, false;
    }

    // ----- fat_file.c -----

    /** The cluster after the idx-th of file f's chain. If that is the last, a free cluster is linked
        to it; without one the scan leaves the table or the call fails with EIO. */
    method NextOrNew(last: nat, ghost f: nat, ghost idx: nat) returns (next: nat, fault: bool)
      requires Good(num, bpc, State()) && f < |chains| && idx < |chains[f]| && last == chains[f][idx] && errno == 0
      modifies this`errno, this`chains, fat
      ensures Good(num, bpc, State()) && Grew(old(State()), State(), f) && data[..] == old(data[..])
      ensures !fault && errno == 0 ==> idx + 1 < |chains[f]| && next == chains[f][idx + 1]
      ensures !fault && errno != 0 ==> next == 0 && errno == EIO
      ensures idx + 1 < |old(chains)[f]| || FreeCount(num, old(fat[..])) == 0 ==> State() == old(State())
      ensures idx + 1 < |old(chains)[f]| || FreeCount(num, old(fat[..])) > 0 ==> !fault && errno == 0
      ensures idx + 1 == |old(chains)[f]| && FreeCount(num, old(fat[..])) == 0 ==>
                (fault <==> NoneBeyond(num, old(fat[..]))) && (fault || errno == EIO)
      ensures idx + 1 == |old(chains)[f]| && FreeCount(num, old(fat[..])) > 0 ==> |chains[f]| == idx + 2
      ensures Conserved(num, old(State()), State(), f)
    {
      hide Chains, Grew, FreeCount, NoneBeyond;
      ghost var v := State();
      ClusterOf(num, bpc, v, f, idx);
      GoodBpc(num, bpc, v);
      GrewRefl(v, f);
      CountIsZero(num, v.fat);
      fault := false;
      next := GetNext(last);
      EndMark(num, bpc, v, f, idx);
      if IsEOC(next) {
        next, fault := GetNextFree();
        if fault {
          return;
        }
        if IsEOC(next) {
          errno := EIO;
          return 0, false;
        }
        GrowKeeps(num, bpc, v, f, next);
        AppendCounts(num, v.fat, last, next);
        SetNext(last, next);
        SetNext(next, EOC_MAX);
        chains := chains[f := chains[f] + [next]];
      }
    }

    method PutBytes(c: nat, m: nat, bytes: seq<Byte>)
      requires c < data.Length && m + |bytes| <= |data[c]|
      modifies data
      ensures data[..] == Put(old(data[..]), c, m, bytes)
    {
      data[c] := data[c][..m] + bytes + data[c][m + |bytes|..];
    }

    /** A new file of size 0 in a cluster of its own. The code reads outside the table exactly
        when no data cluster is free. */
    method Create() returns (f: nat, fault: bool)
      requires Valid() && errno == 0
      modifies this`files, this`chains, fat
      ensures fault <==> DiskFull(num, old(fat[..]))
      ensures fault ==> State() == old(State()) && files == old(files)
      ensures !fault ==> Valid() && f == |old(files)| && |files| == f + 1 && files[..f] == old(files)
      ensures !fault ==>
                data[..] == old(data[..]) && chains[..f] == old(chains) && |chains[f]| == 1 && files[f].size == 0
      ensures !fault ==> LowestFree(old(fat[..]), chains[f][0]) && fat[..] == old(fat[..])[chains[f][0] := EOC_MAX]
    {
      hide Chains;
      ghost var v := State();
      GoodBpc(num, bpc, v);
      var start;
      start, fault := GetNextFree();
      if fault || start >= fat.Length {
        return 0, true;
      }
      NewFile(num, bpc, v, start);
      SetNext(start, EOC_MAX);
      files, chains, f := files + [File(start, 0)], chains + [[start]], |files|;
    }

    /** The bytes offset .. offset + size of the file, as far as the file goes. */
    method Pread(f: nat, size: nat, offset: nat) returns (buf: seq<Byte>)
      requires Valid() && f < |files| && chains[f] != [] && errno == 0
      modifies this`errno
      ensures bpc > 0
      ensures offset > files[f].size ==> buf == [] && errno == EOVERFLOW
      ensures offset <= files[f].size ==>
                errno == 0 && buf == FileBytes(f)[offset..offset + Least(size, files[f].size - offset)]
    {
      hide Chains, ByteOf, Content, LinkAt, Piece, GoodData, FileOk, Position, MaskOffset, Capacity;
      ghost var v, ch := State(), chains[f];
      GoodBpc(num, bpc, v);
      ChainsOf(num, bpc, v, f);
      assert FileOk(bpc, files[f], ch);
      StartsAt(bpc, files[f], ch, offset);
      buf := [];
      if offset > files[f].size {
        errno := EOVERFLOW;
        return;
      }
      var remaining := Least(size, files[f].size - offset);
      if remaining == 0 {
        return;
      }
      var cluster := SeekCluster(files[f].start, offset, ch);
      if errno != 0 {
        return;
      }
      ghost var end := offset + remaining;
      var at := offset;
      while remaining > 0
        invariant State() == v && errno == 0
        invariant offset <= at == end - remaining <= end <= files[f].size
        invariant remaining > 0 ==> Position(bpc, at) < |ch| && cluster == ch[Position(bpc, at)]
        invariant buf == FileBytes(f)[offset..at]
      {
        ClusterOf(num, bpc, v, f, Position(bpc, at));
        EndMark(num, bpc, v, f, Position(bpc, at));
        if !IsLinked(cluster) {
          break;
        }
        var m := Piece(bpc, remaining, at);
        ReadMore(bpc, v.data, ch, files[f].size, offset, at, m);
        var bytes := data[cluster][MaskOffset(bpc, at)..MaskOffset(bpc, at) + m];
        buf := buf + bytes;
        NextPiece(bpc, at, remaining, m, files[f], ch);
        at := at + m;
        remaining := remaining - m;
        cluster := GetNext(cluster);
      }
    }

    /** fat_file_pwrite's loop: the whole of buf, or as much as the chain holds when the free
        clusters have run out. */
    method WriteClusters(cluster0: nat, buf: seq<Byte>, offset: nat, ghost f: nat, ghost v0: Vol, ghost size: nat)
      returns (remaining: nat, fault: bool)
      requires bpc > 0 && Filling(num, bpc, v0, State(), f, size, offset, []) && errno == 0
      requires Position(bpc, offset) < |chains[f]| && cluster0 == chains[f][Position(bpc, offset)]
      modifies this`errno, this`chains, fat, data
      ensures remaining <= |buf| && Filling(num, bpc, v0, State(), f, size, offset, buf[..|buf| - remaining])
      ensures GoodTable(num, old(fat[..])) && Conserved(num, old(State()), State(), f)
      ensures remaining == 0 ==> !fault && errno == 0
      ensures remaining == 0 ==>
                |chains[f]| == Reach(|old(chains)[f]|, if buf == [] then 0 else Clusters(bpc, offset, |buf|))
      ensures remaining > 0 ==> FreeCount(num, fat[..]) == 0 && offset + (|buf| - remaining) == |chains[f]| * bpc
      ensures remaining > 0 ==> (fault <==> NoneBeyond(num, old(fat[..]))) && (fault || errno == EIO)
    {
      hide Good, Grew, OthersKept, Written, Filling, Piece, Put, FreeCount, NoneBeyond, Position, MaskOffset;
      var at, cluster := offset, cluster0;
      remaining, fault := |buf|, false;
      assert buf[..0] == [];
      ghost var start := State();
      FillGood(num, bpc, v0, start, f, size, offset, []);
      GoodBpc(num, bpc, start);
      while remaining > 0
        invariant 0 <= remaining <= |buf| && at == offset + (|buf| - remaining)
        invariant Filling(num, bpc, v0, State(), f, size, offset, buf[..|buf| - remaining])
        invariant f < |chains| && errno == 0 && |fat[..]| == |start.fat| && Conserved(num, start, State(), f)
        invariant remaining > 0 ==> Position(bpc, at) < |chains[f]| && cluster == chains[f][Position(bpc, at)]
        invariant remaining > 0 ==> |chains[f]| == Reach(|start.chains[f]|, Position(bpc, at) + 1)
        invariant remaining == 0 && |buf| > 0 ==> |chains[f]| == Reach(|start.chains[f]|, Position(bpc, at - 1) + 1)
        invariant remaining == 0 && |buf| == 0 ==> |chains[f]| == |start.chains[f]|
      {
        ghost var done, q, v := buf[..|buf| - remaining], Position(bpc, at), State();
        var m := Piece(bpc, remaining, at);
        LastOfPiece(bpc, at, m);
        FillGood(num, bpc, v0, v, f, size, offset, done);
        var from := |buf| - remaining;
        FillStore(num, bpc, v0, v, f, size, offset, done, buf[from..from + m], q);
        ClusterOf(num, bpc, v, f, q);
        PutBytes(cluster, MaskOffset(bpc, at), buf[from..from + m]);
        assert done + buf[from..from + m] == buf[..from + m];
        NextStarts(bpc, at, m, remaining);
        remaining, at := remaining - m, at + m;
        if remaining > 0 {
          ghost var v1 := State();
          FillGood(num, bpc, v0, v1, f, size, offset, buf[..from + m]);
          cluster, fault := NextOrNew(cluster, f, q);
          GrewChains(v1, State(), f);
          ConservedTrans(num, start, v1, State(), f);
          FillGrow(num, bpc, v0, v1, State(), f, size, offset, buf[..from + m]);
          if fault {
            return;
          }
          if errno != 0 || !IsLinked(cluster) {
            if errno == 0 {
              EndMark(num, bpc, State(), f, q);
              assert false;
            }
            return;
          }
        }
      }
    }

    /** fat_file_pwrite up to its loop: the cluster of byte offset, which may have to be a new one. */
    method FindStart(f: nat, offset: nat) returns (cluster: nat, fault: bool)
      requires Valid() && f < |files| && chains[f] != [] && errno == 0 && offset <= files[f].size
      modifies this`errno, this`chains, fat
      ensures bpc > 0 && |chains| == |files| && Filling(num, bpc, old(State()), State(), f, files[f].size, offset, [])
      ensures GoodTable(num, old(fat[..])) && Conserved(num, old(State()), State(), f)
      ensures fault || errno != 0 <==> offset == |old(chains)[f]| * bpc && FreeCount(num, old(fat[..])) == 0
      ensures fault || errno != 0 ==> State() == old(State()) && (fault <==> NoneBeyond(num, old(fat[..])))
      ensures NoneBeyond(num, fat[..]) <==> NoneBeyond(num, old(fat[..]))
      ensures !fault && errno != 0 ==> errno == EIO
      ensures !fault && errno == 0 ==> |chains[f]| == Reach(|old(chains)[f]|, Clusters(bpc, offset, 0))
      ensures !fault && errno == 0 ==>
                Position(bpc, offset) < |chains[f]| && cluster == chains[f][Position(bpc, offset)]
    {
      hide Good, Grew, OthersKept, Written, Filling, FileOk, Content, Position, MaskOffset, FreeCount, NoneBeyond,
        Clusters, Needed;
      ghost var v0, ch0, size0 := State(), chains[f], files[f].size;
      GoodBpc(num, bpc, v0);
      GrewRefl(v0, f);
      fault := false;
      var startingPoint := if offset != 0 then offset - 1 else 0;
      assert FileOk(bpc, files[f], ch0);
      ChainsOf(num, bpc, v0, f);
      WriteStart(num, bpc, v0, files[f], f, offset);
      ConservedRefl(num, v0, f);
      AtEdge(bpc, |ch0|, offset, 0);
      cluster := SeekCluster(files[f].start, startingPoint, ch0);
      if MaskOffset(bpc, offset) == 0 && cluster != 0 && offset != 0 {
        cluster, fault := NextOrNew(cluster, f, Position(bpc, startingPoint));
      }
      FillGrow(num, bpc, v0, v0, State(), f, size0, offset, []);
      GrewChains(v0, State(), f);
    }

    /** Write buf at offset. The chain gets the clusters it needs, as far as there are free ones; as
        many bytes as it then holds are spliced into the file (whose 32-bit size field wraps at
        4 GiB), and no other file changes. All of buf is written exactly if there are free clusters
        enough; otherwise the scan for one more leaves the table, exactly if no entry past the data
        clusters looks free, or the call ends with EIO. */
    method Pwrite(f: nat, buf: seq<Byte>, offset: nat) returns (r: int, fault: bool)
      requires Valid() && f < |files| && chains[f] != [] && errno == 0
      modifies this`errno, this`chains, this`files, fat, data
      ensures bpc > 0 && |files| == |old(files)| && |chains| == |files| && GoodTable(num, old(fat[..]))
      ensures offset > old(files)[f].size ==>
                !fault && r == 0 && errno == EOVERFLOW && State() == old(State()) && files == old(files)
      ensures Valid() && Grew(old(State()), State(), f)
      ensures forall g: nat :: g < |files| && g != f ==> files[g] == old(files)[g] && FileBytes(g) == old(FileBytes(g))
      ensures offset <= old(files)[f].size ==>
                WriteOutcome(num, bpc, old(State()), State(), f, old(files)[f].size, files[f].size, offset, buf, r,
                    fault, errno)
    {
      hide Good, Grew, OthersKept, Written, Filling, Content, Position, MaskOffset, FreeCount, NoneBeyond, Clusters,
        Needed, Conserved, WriteOutcome, Splice;
      ghost var v0, size0 := State(), files[f].size;
      GoodBpc(num, bpc, v0);
      assert FileOk(bpc, files[f], chains[f]);
      r, fault := 0, false;
      if offset > files[f].size {
        GrewRefl(v0, f);
        errno := EOVERFLOW;
        return;
      }
      var cluster;
      cluster, fault := FindStart(f, offset);
      if fault || errno != 0 {
        assert buf[..0] == [];
        WriteDone(num, bpc, v0, State(), files, f, offset, buf[..0]);
        NoStart(num, bpc, v0, f, size0, offset, buf, fault, errno);
        return if fault then 0 else -errno, fault;
      }
      var remaining;
      ghost var v1 := State();
      remaining, fault := WriteClusters(cluster, buf, offset, f, v0, size0);
      r := |buf| - remaining;
      ConservedTrans(num, v0, v1, State(), f);
      WriteDone(num, bpc, v0, State(), files, f, offset, buf[..r]);
      Wrote(num, bpc, v0, |v1.chains[f]|, State(), f, size0, offset, buf, r, fault, errno);
      if fault {
        return;
      }
      if offset + r > files[f].size {
        files := files[f := files[f].(size := (offset + r) % WORD_LIMIT)];
      }
    }

    /** Free the clusters of a chain from cluster c on. */
    method FreeRest(c: nat, ghost ch: seq<nat>, ghost k: nat)
      requires GoodTable(num, fat[..]) && k <= |ch| && c == Linked(ch, k)
      requires AllLead(num, fat[..], ch, k)
      requires forall i: nat, j: nat :: i < |ch| && j < |ch| && ch[i] == ch[j] ==> i == j
      modifies fat
      ensures fat[..] == Freed(old(fat[..]), ch[k..])
    {
      hide Freed, AllLead;
      ghost var base := fat[..];
      var cluster := c;
      ghost var i := k;
      FreedNone(base, ch, k);
      while IsLinked(cluster)
        invariant k <= i <= |ch| && cluster == Linked(ch, i)
        invariant fat[..] == Freed(base, ch[k..i])
        decreases |ch| - i
      {
        FreedStep(num, base, ch, k, i);
        var next := GetNext(cluster);
        SetNext(cluster, FREE);
        cluster := next;
        i := i + 1;
      }
      assert ch[k..i] == ch[k..] by { ClusterIsLinked(num, base, ch, k); }
    }

    /** Cut the file to offset bytes: exactly the clusters after that of byte offset are freed.
        The code reads outside the table exactly when offset is the size and the size fills the
        whole chain. */
    method Truncate(f: nat, offset: nat) returns (fault: bool)
      requires Valid() && f < |files| && chains[f] != [] && errno == 0
      modifies this`errno, this`chains, this`files, fat
      ensures bpc > 0 && |files| == |old(files)| && |chains| == |files| && data[..] == old(data[..])
      ensures fault <==> offset == old(files)[f].size == Capacity(bpc, old(chains)[f])
      ensures fault || offset > old(files)[f].size ==> State() == old(State()) && files == old(files)
      ensures !fault ==> Valid() && errno == 0
      ensures !fault && offset <= old(files)[f].size ==>
                Position(bpc, offset) < |old(chains)[f]|
                    && chains == old(chains)[f := old(chains)[f][..Position(bpc, offset) + 1]]
                && files == old(files)[f := File(old(files)[f].start, offset)]
      ensures !fault && offset <= old(files)[f].size ==>
                forall x: nat :: x < fat.Length ==>
                  (fat[..][x] == FREE <==> old(fat[..])[x] == FREE || x in old(chains)[f][Position(bpc, offset) + 1..])
      ensures !fault && offset <= old(files)[f].size ==>
                Ended(fat[..], chains[f])
                && forall x: nat :: x < fat.Length && x !in old(chains)[f] ==> fat[..][x] == old(fat[..])[x]
      ensures !fault && offset <= old(files)[f].size ==> FileBytes(f) == old(FileBytes(f))[..offset]
      ensures forall g: nat :: g < |files| && g != f ==> files[g] == old(files)[g] && FileBytes(g) == old(FileBytes(g))
    {
      hide Good, FileOk, Content, Cut, Freed, AllLead, Position, MaskOffset, Capacity;
      ghost var v0, ch := State(), chains[f];
      GoodBpc(num, bpc, v0);
      fault := false;
      if offset > files[f].size {
        return;
      }
      assert FileOk(bpc, files[f], ch);
      ChainsOf(num, bpc, v0, f);
      StartsAt(bpc, files[f], ch, offset);
      CutPoint(bpc, files[f], ch, offset);
      var last := SeekCluster(files[f].start, offset, ch);
      if errno != 0 {
        assert false;
        return;
      }
      ghost var k := Position(bpc, offset);
      MarkIsOutside(num, bpc, v0, f, k);
      if last >= fat.Length {
        return true;
      }
      CutReady(num, bpc, v0, f, k, EOC_MAX);
      var next := GetNext(last);
      SetNext(last, EOC_MAX);
      FreeRest(next, ch, k + 1);
      InsideCut(bpc, ch, k, offset);
      TruncIsCut(v0.fat, ch, k);
      CutDone(num, bpc, v0, State(), files, f, k + 1, offset);
      chains := chains[f := ch[..k + 1]];
      files := files[f := files[f].(size := offset)];
    }

    /** Free the whole chain of the file. */
    method Delete(f: nat)
      requires Valid() && f < |files| && chains[f] != [] && errno == 0
      modifies this`chains, this`files, fat
      ensures bpc > 0 && Valid() && |files| == |old(files)| && data[..] == old(data[..])
      ensures chains == old(chains)[f := []] && files == old(files)[f := File(old(files)[f].start, 0)]
      ensures forall x: nat :: x < fat.Length ==>
                (fat[..][x] == FREE <==> old(fat[..])[x] == FREE || x in old(chains)[f])
                && (x !in old(chains)[f] ==> fat[..][x] == old(fat[..])[x])
      ensures forall g: nat :: g < |files| && g != f ==> files[g] == old(files)[g] && FileBytes(g) == old(FileBytes(g))
    {
      hide Good, FileOk, Content, Cut, Freed, AllLead, Position, MaskOffset, Capacity;
      ghost var v0, ch := State(), chains[f];
      GoodBpc(num, bpc, v0);
      assert FileOk(bpc, files[f], ch);
      StartsAt(bpc, files[f], ch, 0);
      DeleteReady(num, bpc, v0, f);
      var start := files[f].start;
      var next := GetNext(start);
      SetNext(start, FREE);
      FreeRest(next, ch, 1);
      DeleteIsCut(v0.fat, ch);
      CutDone(num, bpc, v0, State(), files, f, 0, 0);
      assert ch[..0] == [] && ch[0..] == ch;
      chains := chains[f := []];
      files := files[f := files[f].(size := 0)];
    }
  }

  /** fat_table_get_cluster_remaining_bytes */
  function Piece(bpc: nat, remaining: nat, offset: nat): (m: nat)
    requires bpc > 0
    ensures m <= remaining && MaskOffset(bpc, offset) + m <= bpc && (remaining > 0 ==> m > 0)
    ensures m < remaining ==> MaskOffset(bpc, offset) + m == bpc
  {
    if bpc - MaskOffset(bpc, offset) < remaining then bpc - MaskOffset(bpc, offset) else remaining
  }

  /** After one piece either nothing remains or the next cluster starts. */
  lemma NextPiece(bpc: nat, at: nat, remaining: nat, m: nat, file: File, ch: seq<nat>)
    requires bpc > 0 && remaining > 0 && m == Piece(bpc, remaining, at) && at + remaining <= file.size
    requires FileOk(bpc, file, ch)
    ensures remaining - m > 0 ==> Position(bpc, at + m) == Position(bpc, at) + 1 && Position(bpc, at) + 1 < |ch|
  {
    if remaining - m > 0 {
      Within(bpc, at, m);
      Below(bpc, at + m, |ch|);
    }
  }

  /** Every offset inside a file falls into a cluster of its chain. */
  lemma StartsAt(bpc: nat, file: File, ch: seq<nat>, offset: nat)
    requires bpc > 0 && FileOk(bpc, file, ch) && ch != []
    ensures file.start == ch[0] && (offset < file.size ==> Position(bpc, offset) < |ch|)
  {
    Below(bpc, offset, |ch|);
  }

  lemma ReadMore(bpc: nat, data: seq<seq<Byte>>, ch: seq<nat>, size: nat, offset: nat, at: nat, m: nat)
    requires bpc > 0 && offset <= at && at + m <= size && MaskOffset(bpc, at) + m <= bpc
    requires Position(bpc, at) < |ch| && ch[Position(bpc, at)] < |data| && |data[ch[Position(bpc, at)]]| == bpc
    ensures Content(bpc, data, ch, size)[offset..at]
            + data[ch[Position(bpc, at)]][MaskOffset(bpc, at)..MaskOffset(bpc, at) + m]
            == Content(bpc, data, ch, size)[offset..at + m]
  {
    hide ByteOf;
    forall i: nat | at <= i < at + m
      ensures ByteOf(bpc, data, ch, i) == data[ch[Position(bpc, at)]][MaskOffset(bpc, at) + (i - at)]
    {
      ReadByte(bpc, data, ch, at, m, i);
    }
    JoinSlices(Content(bpc, data, ch, size), data[ch[Position(bpc, at)]], offset, at, MaskOffset(bpc, at), m);
  }

  lemma ReadByte(bpc: nat, data: seq<seq<Byte>>, ch: seq<nat>, at: nat, m: nat, i: nat)
    requires bpc > 0 && at <= i < at + m && MaskOffset(bpc, at) + m <= bpc
    requires Position(bpc, at) < |ch| && ch[Position(bpc, at)] < |data| && |data[ch[Position(bpc, at)]]| == bpc
    ensures ByteOf(bpc, data, ch, i) == data[ch[Position(bpc, at)]][MaskOffset(bpc, at) + (i - at)]
  {
    InPiece(bpc, at, m, i);
  }

  lemma JoinSlices(c: seq<Byte>, row: seq<Byte>, offset: nat, at: nat, r: nat, m: nat)
    requires offset <= at && at + m <= |c| && r + m <= |row|
    requires forall i: nat :: at <= i < at + m ==> c[i] == row[r + (i - at)]
    ensures c[offset..at] + row[r..r + m] == c[offset..at + m]
  {
    assert row[r..r + m] == c[at..at + m];
  }

  lemma ChainsOf(num: nat, bpc: nat, v: Vol, f: nat)
    requires Good(num, bpc, v) && f < |v.chains|
    ensures GoodTable(num, v.fat) && Chain(num, v.fat, v.chains[f])
  {
  }

  lemma NewFile(num: nat, bpc: nat, v: Vol, c: nat)
    requires Good(num, bpc, v) && IsCluster(num, c) && c < |v.fat| && v.fat[c] == FREE
    ensures Good(num, bpc, Vol(v.fat[c := EOC_MAX], v.data, v.chains + [[c]]))
  {
    hide Chains;
    assert Chains(num, v.fat, v.chains);
    NewChainKeeps(num, v.fat, v.chains, c);
  }

  /** The size field after bytes up to end are in place: 32 bits wide. */
  function NewSize(size: nat, end: nat): nat {
    if end > size then end % WORD_LIMIT else size
  }

  /** What a write leaves is the splice exactly when the write ends below 4 GiB; past that the
      size field wraps and the file loses bytes. */
  lemma WriteWraps(c: seq<Byte>, off: nat, bytes: seq<Byte>)
    requires off <= |c| < WORD_LIMIT
    ensures NewSize(|c|, off + |bytes|) <= |Splice(c, off, bytes)|
    ensures Splice(c, off, bytes)[..NewSize(|c|, off + |bytes|)] == Splice(c, off, bytes) <==>
              off + |bytes| < WORD_LIMIT
  {
    var d, n := Splice(c, off, bytes), NewSize(|c|, off + |bytes|);
    assert |d[..n]| == n;
    assert n == |d| ==> d[..n] == d;
  }

  lemma FillGood(num: nat, bpc: nat, v0: Vol, v: Vol, f: nat, size: nat, off: nat, bytes: seq<Byte>)
    requires Filling(num, bpc, v0, v, f, size, off, bytes)
    ensures Good(num, bpc, v) && f < |v.chains|
  {
  }

  lemma GrewChains(v0: Vol, v: Vol, f: nat)
    requires Grew(v0, v, f)
    ensures |v.chains| == |v0.chains| && |v.fat| == |v0.fat| && f < |v.chains| && v0.chains[f] <= v.chains[f]
    ensures forall g: nat :: g < |v.chains| && g != f ==> v.chains[g] == v0.chains[g]
  {
  }

  /** Where fat_file_pwrite starts: the cluster of the byte before offset. */
  lemma WriteStart(num: nat, bpc: nat, v: Vol, file: File, f: nat, offset: nat)
    requires Good(num, bpc, v) && f < |v.chains| && v.chains[f] != [] && FileOk(bpc, file, v.chains[f])
    requires offset <= file.size
    ensures bpc > 0 && file.start == v.chains[f][0]
    ensures Filling(num, bpc, v, v, f, file.size, offset, [])
    ensures offset == 0 ==> Position(bpc, offset) == 0
    ensures offset > 0 ==>
              Position(bpc, offset - 1) < |v.chains[f]| && IsCluster(num, v.chains[f][Position(bpc, offset - 1)])
    ensures offset > 0 ==>
              Position(bpc, offset) == if MaskOffset(bpc, offset) == 0 then Position(bpc, offset - 1) + 1
                  else Position(bpc, offset - 1)
  {
    FillStart(num, bpc, v, f, file.size, offset);
    if offset > 0 {
      Below(bpc, offset - 1, |v.chains[f]|);
      Before(bpc, offset);
      ClusterOf(num, bpc, v, f, Position(bpc, offset - 1));
    }
  }

  /** Clusters only move from the free ones to the end of chain f. */
  ghost predicate Conserved(num: nat, a: Vol, b: Vol, f: nat) {
    && GoodTable(num, a.fat) && GoodTable(num, b.fat) && f < |a.chains| && f < |b.chains|
    && |b.chains[f]| + FreeCount(num, b.fat) == |a.chains[f]| + FreeCount(num, a.fat)
    && (NoneBeyond(num, b.fat) <==> NoneBeyond(num, a.fat))
  }

  lemma ConservedRefl(num: nat, v: Vol, f: nat)
    requires GoodTable(num, v.fat) && f < |v.chains|
    ensures Conserved(num, v, v, f)
  {
  }

  lemma ConservedTrans(num: nat, a: Vol, b: Vol, c: Vol, f: nat)
    requires Conserved(num, a, b, f) && Conserved(num, b, c, f)
    ensures Conserved(num, a, c, f)
  {
  }

  /** After one piece the next cluster starts, if anything remains. */
  lemma NextStarts(bpc: nat, at: nat, m: nat, remaining: nat)
    requires bpc > 0 && MaskOffset(bpc, at) + m <= bpc && (m < remaining ==> MaskOffset(bpc, at) + m == bpc)
    ensures m < remaining ==> Position(bpc, at + m) == Position(bpc, at) + 1
  {
    Within(bpc, at, m);
  }

  /** Where a write starts that falls on the edge of a cluster. */
  lemma AtEdge(bpc: nat, n: nat, off: nat, len: nat)
    requires bpc > 0 && n > 0
    ensures off > 0 && MaskOffset(bpc, off) == 0 ==> Position(bpc, off - 1) + 1 == Position(bpc, off)
    ensures off > 0 && MaskOffset(bpc, off) == 0 && Position(bpc, off) == n ==>
              off == n * bpc && Needed(bpc, n, off, len) > 0
    ensures off == n * bpc ==> off > 0 && MaskOffset(bpc, off) == 0 && Position(bpc, off) == n
    ensures Clusters(bpc, off, 0) == if off > 0 && MaskOffset(bpc, off) == 0 then Position(bpc, off) + 1 else 0
  {
    if off > 0 {
      Before(bpc, off);
      Split(bpc, off);
      ClustersGrow(bpc, off, len);
    }
    Scale(1, n, bpc);
    DivMod(bpc, n, 0);
  }

  /** The sums at the end of fat_file_pwrite: the chain had n0 clusters, n1 after the first step and
      n2 at the end. */
  lemma Outcome(bpc: nat, n0: nat, free0: nat, off: nat, len: nat, n1: nat, n2: nat, free2: nat, rem: nat)
    requires bpc > 0 && rem <= len && n2 + free2 == n0 + free0 && off + (len - rem) <= n2 * bpc
    requires n1 == Reach(n0, Clusters(bpc, off, 0))
    requires rem == 0 ==> n2 == Reach(n1, if len == 0 then 0 else Clusters(bpc, off, len))
    requires rem > 0 ==> free2 == 0 && off + (len - rem) == n2 * bpc
    ensures n2 == n0 + Least(Needed(bpc, n0, off, len), free0)
    ensures Needed(bpc, n0, off, len) <= free0 <==> rem == 0
    ensures len - rem == Least(len, n2 * bpc - off)
  {
    hide Clusters;
    ClustersGrow(bpc, off, len);
    if rem > 0 {
      StoppedShort(bpc, n2, off, len);
    }
  }

  /** What fat_file_pwrite of buf at offset does to file f: volume a becomes b, and its size size'. */
  ghost predicate WriteOutcome(num: nat, bpc: nat, a: Vol, b: Vol, f: nat, size: nat, size': nat, offset: nat,
                               buf: seq<Byte>, r: int, fault: bool, errno: int)
    requires bpc > 0 && GoodTable(num, a.fat) && f < |a.chains| && f < |b.chains| && offset <= size
  {
    var free := FreeCount(num, a.fat);
    var needed := Needed(bpc, |a.chains[f]|, offset, |buf|);
    // the chain gets what it needs, or all there is
    && |b.chains[f]| == |a.chains[f]| + Least(needed, free)
    && (fault <==> needed > free && NoneBeyond(num, a.fat))
    // the bytes it then has room for are spliced in
    && offset <= Capacity(bpc, b.chains[f])
    && (var w := Least(|buf|, Capacity(bpc, b.chains[f]) - offset);
        var after := Splice(Content(bpc, a.data, a.chains[f], size), offset, buf[..w]);
        && Content(bpc, b.data, b.chains[f], Reach(size, offset + w)) == after
        && size' <= |after| && Content(bpc, b.data, b.chains[f], size') == after[..size']
        && (!fault ==> r == if offset == Capacity(bpc, a.chains[f]) && free == 0 then -EIO else w))
    // all of them exactly if there are clusters enough
    && (!fault ==> (r == |buf| <==> needed <= free) && errno == if r == |buf| then 0 else EIO)
    && size' == if fault || r < 0 then size else NewSize(size, offset + r)
  }

  /** With clusters enough, below 4 GiB, the write is the splice. */
  lemma EnoughClusters(num: nat, bpc: nat, a: Vol, b: Vol, f: nat, size: nat, size': nat, offset: nat, buf: seq<Byte>,
                       r: int, fault: bool, errno: int)
    requires bpc > 0 && GoodTable(num, a.fat) && f < |a.chains| && f < |b.chains| && offset <= size < WORD_LIMIT
    requires WriteOutcome(num, bpc, a, b, f, size, size', offset, buf, r, fault, errno)
    requires Needed(bpc, |a.chains[f]|, offset, |buf|) <= FreeCount(num, a.fat) && offset + |buf| < WORD_LIMIT
    ensures !fault && errno == 0 && r == |buf|
    ensures Content(bpc, b.data, b.chains[f], size') == Splice(Content(bpc, a.data, a.chains[f], size), offset, buf)
  {
    hide Content, Needed, FreeCount;
    WriteWraps(Content(bpc, a.data, a.chains[f], size), offset, buf);
    assert buf[..|buf|] == buf;
  }

  /** No cluster for the first byte. */
  lemma NoStart(num: nat, bpc: nat, v: Vol, f: nat, size: nat, offset: nat, buf: seq<Byte>, fault: bool,
                errno: int)
    requires bpc > 0 && GoodTable(num, v.fat) && f < |v.chains| && v.chains[f] != [] && offset <= size
    requires fault || errno == EIO
    requires offset == |v.chains[f]| * bpc && FreeCount(num, v.fat) == 0 && (fault <==> NoneBeyond(num, v.fat))
    requires Content(bpc, v.data, v.chains[f], Reach(size, offset + 0)) ==
             Splice(Content(bpc, v.data, v.chains[f], size), offset, [])
    ensures WriteOutcome(num, bpc, v, v, f, size, size, offset, buf, if fault then 0 else -errno, fault, errno)
  {
    hide Content, Position, MaskOffset, FreeCount, NoneBeyond, Clusters;
    AtEdge(bpc, |v.chains[f]|, offset, |buf|);
    assert buf[..0] == [];
    SpliceNothing(Content(bpc, v.data, v.chains[f], size), offset);
  }

  /** The end of the loop after r bytes. */
  lemma Wrote(num: nat, bpc: nat, a: Vol, n1: nat, b: Vol, f: nat, size: nat, offset: nat, buf: seq<Byte>, r: nat,
              fault: bool, errno: int)
    requires bpc > 0 && f < |a.chains| && a.chains[f] != [] && offset <= size < WORD_LIMIT && r <= |buf|
    requires Conserved(num, a, b, f) && Filling(num, bpc, a, b, f, size, offset, buf[..r])
    requires n1 == Reach(|a.chains[f]|, Clusters(bpc, offset, 0))
    requires !(offset == |a.chains[f]| * bpc && FreeCount(num, a.fat) == 0)
    requires r == |buf| ==> |b.chains[f]| == Reach(n1, if buf == [] then 0 else Clusters(bpc, offset, |buf|))
    requires r == |buf| ==> !fault && errno == 0
    requires r < |buf| ==> FreeCount(num, b.fat) == 0 && offset + r == |b.chains[f]| * bpc
    requires r < |buf| ==> (fault <==> NoneBeyond(num, a.fat)) && (fault || errno == EIO)
    ensures f < |b.chains| && GoodTable(num, a.fat)
    ensures WriteOutcome(num, bpc, a, b, f, size, if fault then size else NewSize(size, offset + r), offset, buf, r,
            fault, errno)
  {
    hide Good, Grew, OthersKept, Written, Content, Position, MaskOffset, FreeCount, NoneBeyond, Clusters, Splice;
    Outcome(bpc, |a.chains[f]|, FreeCount(num, a.fat), offset, |buf|, n1, |b.chains[f]|, FreeCount(num, b.fat),
        |buf| - r);
    FillGood(num, bpc, a, b, f, size, offset, buf[..r]);
    FillEnd(num, bpc, a, b, f, size, offset, buf[..r]);
    SplicePrefix(bpc, b.data, b.chains[f], size, offset + r);
    SpliceLength(Content(bpc, a.data, a.chains[f], size), offset, buf[..r]);
  }

  /** A file of a size no more than its reach is a prefix of it. */
  lemma SplicePrefix(bpc: nat, data: seq<seq<Byte>>, ch: seq<nat>, size: nat, end: nat)
    requires bpc > 0 && Reach(size, end) <= |ch| * bpc && size < WORD_LIMIT
    ensures NewSize(size, end) <= Reach(size, end)
    ensures Content(bpc, data, ch, size) == Content(bpc, data, ch, Reach(size, end))[..size]
    ensures Content(bpc, data, ch, NewSize(size, end)) == Content(bpc, data, ch, Reach(size, end))[..NewSize(size, end)]
  {
    hide Content;
    ContentPrefix(bpc, data, ch, ch, Reach(size, end), size);
    ContentPrefix(bpc, data, ch, ch, Reach(size, end), NewSize(size, end));
  }

  /** The end of a write that got as far as bytes. */
  lemma WriteDone(num: nat, bpc: nat, v0: Vol, v: Vol, files: seq<File>, f: nat, off: nat, bytes: seq<Byte>)
    requires f < |files| == |v0.chains| && Filling(num, bpc, v0, v, f, files[f].size, off, bytes) && v0.chains[f] != []
    requires forall g: nat :: g < |files| ==> FileOk(bpc, files[g], v0.chains[g])
    ensures bpc > 0 && Good(num, bpc, v) && Grew(v0, v, f) && |v.chains| == |files|
    ensures FileOk(bpc, files[f].(size := NewSize(files[f].size, off + |bytes|)), v.chains[f])
    ensures forall g: nat :: g < |files| && g != f ==> FileOk(bpc, files[g], v.chains[g])
    ensures FileOk(bpc, files[f], v.chains[f])
    ensures Content(bpc, v.data, v.chains[f], Reach(files[f].size, off + |bytes|)) ==
            Splice(Content(bpc, v0.data, v0.chains[f], files[f].size), off, bytes)
    ensures files[f].size <= |Splice(Content(bpc, v0.data, v0.chains[f], files[f].size), off, bytes)|
    ensures Content(bpc, v.data, v.chains[f], files[f].size) ==
            Splice(Content(bpc, v0.data, v0.chains[f], files[f].size), off, bytes)[..files[f].size]
    ensures NewSize(files[f].size, off + |bytes|) <=
            |Splice(Content(bpc, v0.data, v0.chains[f], files[f].size), off, bytes)|
    ensures Content(bpc, v.data, v.chains[f], NewSize(files[f].size, off + |bytes|)) ==
            Splice(Content(bpc, v0.data, v0.chains[f], files[f].size), off,
                bytes)[..NewSize(files[f].size, off + |bytes|)]
    ensures forall g: nat :: g < |files| && g != f ==>
                             Content(bpc, v.data, v.chains[g], files[g].size) ==
                                 Content(bpc, v0.data, v0.chains[g], files[g].size)
  {
    hide Good, Grew, OthersKept, Written, Content;
    FillGood(num, bpc, v0, v, f, files[f].size, off, bytes);
    GoodBpc(num, bpc, v);
    GrewChains(v0, v, f);
    FillEnd(num, bpc, v0, v, f, files[f].size, off, bytes);
    assert FileOk(bpc, files[f], v0.chains[f]);
    ContentPrefix(bpc, v.data, v.chains[f], v.chains[f], Reach(files[f].size, off + |bytes|),
                  NewSize(files[f].size, off + |bytes|));
    ContentPrefix(bpc, v.data, v.chains[f], v.chains[f], Reach(files[f].size, off + |bytes|), files[f].size);
    assert v.chains[f][0] == v0.chains[f][0];
  }

  /** The offsets a truncation can go to. */
  lemma CutPoint(bpc: nat, file: File, ch: seq<nat>, offset: nat)
    requires bpc > 0 && FileOk(bpc, file, ch) && offset <= file.size
    ensures Position(bpc, offset) <= |ch|
    ensures Position(bpc, offset) == |ch| <==> offset == file.size == Capacity(bpc, ch)
  {
    Below(bpc, offset, |ch|);
    if offset >= |ch| * bpc {
      DivMod(bpc, |ch|, 0);
    }
  }

  lemma InsideCut(bpc: nat, ch: seq<nat>, k: nat, offset: nat)
    requires bpc > 0 && k == Position(bpc, offset) < |ch|
    ensures offset <= Capacity(bpc, ch[..k + 1])
  {
    Below(bpc, offset, k + 1);
  }

  lemma MarkIsOutside(num: nat, bpc: nat, v: Vol, f: nat, k: nat)
    requires Good(num, bpc, v) && f < |v.chains| && k <= |v.chains[f]|
    ensures Linked(v.chains[f], k) < |v.fat| <==> k < |v.chains[f]|
  {
    if k < |v.chains[f]| {
      ClusterOf(num, bpc, v, f, k);
    }
  }

  /** With the k-th cluster marked last, the clusters after it can be freed one by one. */
  lemma CutReady(num: nat, bpc: nat, v: Vol, f: nat, k: nat, e: nat)
    requires Good(num, bpc, v) && f < |v.chains| && k < |v.chains[f]|
    ensures v.chains[f][k] < |v.fat| && GoodTable(num, v.fat)
    ensures Next(num, v.fat, v.chains[f][k]) == Linked(v.chains[f], k + 1)
    ensures AllLead(num, v.fat[v.chains[f][k] := e], v.chains[f], k + 1)
    ensures forall i: nat, j: nat :: i < |v.chains[f]| && j < |v.chains[f]| && v.chains[f][i] == v.chains[f][j] ==>
              i == j
  {
    hide Chains;
    NoRepeats(num, bpc, v, f);
    ClusterOf(num, bpc, v, f, k);
    GoodBpc(num, bpc, v);
    var fat' := v.fat[v.chains[f][k] := e];
    forall i: nat | k < i < |v.chains[f]| ensures Leads(num, fat', v.chains[f], i) {
      ClusterOf(num, bpc, v, f, i);
    }
  }

  lemma DeleteReady(num: nat, bpc: nat, v: Vol, f: nat)
    requires Good(num, bpc, v) && f < |v.chains| && v.chains[f] != []
    ensures v.chains[f][0] < |v.fat| && GoodTable(num, v.fat)
    ensures Next(num, v.fat, v.chains[f][0]) == Linked(v.chains[f], 1)
    ensures AllLead(num, v.fat[v.chains[f][0] := FREE], v.chains[f], 1)
    ensures forall i: nat, j: nat :: i < |v.chains[f]| && j < |v.chains[f]| && v.chains[f][i] == v.chains[f][j] ==>
              i == j
    ensures forall i: nat :: i < |v.chains[f]| ==> v.chains[f][i] < |v.fat|
  {
    hide Good;
    CutReady(num, bpc, v, f, 0, FREE);
    assert Linked(v.chains[f], 1) == Linked(v.chains[f], 0 + 1);
    forall i: nat | i < |v.chains[f]| ensures v.chains[f][i] < |v.fat| {
      ClusterOf(num, bpc, v, f, i);
    }
  }

  /** fat_file_delete frees the first cluster before its loop. */
  lemma {:induction false} FreedFirst(fat: seq<nat>, ch: seq<nat>)
    requires ch != []
    ensures Freed(Marked(fat, ch[0], FREE), ch[1..]) == Freed(fat, ch)
    decreases |ch|
  {
    if |ch| == 1 {
      assert ch[1..] == [] && ch[..0] == [];
    } else {
      FreedFirst(fat, ch[..|ch| - 1]);
      assert ch[1..][..|ch[1..]| - 1] == ch[..|ch| - 1][1..];
    }
  }

  lemma DeleteIsCut(fat: seq<nat>, ch: seq<nat>)
    requires ch != []
    ensures Freed(Marked(fat, ch[0], FREE), ch[1..]) == Cut(fat, ch, 0)
  {
    hide Freed;
    FreedFirst(fat, ch);
    assert ch[0..] == ch;
  }

  /** A chain cut back to k clusters, and the file to size bytes. */
  lemma CutDone(num: nat, bpc: nat, v0: Vol, v: Vol, files: seq<File>, f: nat, k: nat, size: nat)
    requires Good(num, bpc, v0) && f < |files| == |v0.chains| && k <= |v0.chains[f]|
    requires forall g: nat :: g < |files| ==> FileOk(bpc, files[g], v0.chains[g])
    requires v == Vol(Cut(v0.fat, v0.chains[f], k), v0.data, v0.chains)
    requires size <= files[f].size && size <= Capacity(bpc, v0.chains[f][..k])
    ensures bpc > 0 && Good(num, bpc, Vol(v.fat, v.data, v.chains[f := v.chains[f][..k]]))
    ensures FileOk(bpc, files[f].(size := size), v0.chains[f][..k])
    ensures forall x: nat :: x < |v0.fat| ==> (v.fat[x] == FREE <==> v0.fat[x] == FREE || x in v0.chains[f][k..])
    ensures k > 0 ==> Ended(v.fat, v0.chains[f][..k])
    ensures forall x: nat :: x < |v0.fat| && x !in v0.chains[f] ==> v.fat[x] == v0.fat[x]
    ensures Content(bpc, v.data, v0.chains[f][..k], size) == Content(bpc, v0.data, v0.chains[f], files[f].size)[..size]
  {
    hide Chains, Cut, Content;
    assert Chains(num, v0.fat, v0.chains);
    CutKeeps(num, v0.fat, v0.chains, f, k);
    ContentPrefix(bpc, v0.data, v0.chains[f], v0.chains[f][..k], files[f].size, size);
  }

  /** The i-th entry of ch is a cluster that leads to the next. */
  predicate Leads(num: nat, fat: seq<nat>, ch: seq<nat>, i: nat)
    requires GoodTable(num, fat) && i < |ch|
  {
    IsCluster(num, ch[i]) && Next(num, fat, ch[i]) == Linked(ch, i + 1)
  }

  ghost predicate AllLead(num: nat, fat: seq<nat>, ch: seq<nat>, k: nat)
    requires GoodTable(num, fat)
  {
    forall j: nat :: k <= j < |ch| ==> Leads(num, fat, ch, j)
  }

  lemma FreedNone(fat: seq<nat>, ch: seq<nat>, k: nat)
    requires k <= |ch|
    ensures Freed(fat, ch[k..k]) == fat
  {
    assert ch[k..k] == [];
  }

  /** Freeing the i-th cluster after those from k on: its successor can still be read before. */
  lemma FreedStep(num: nat, fat: seq<nat>, ch: seq<nat>, k: nat, i: nat)
    requires GoodTable(num, fat) && k <= i <= |ch| && IsLinked(Linked(ch, i))
    requires AllLead(num, fat, ch, k)
    requires forall j: nat, j': nat :: j < |ch| && j' < |ch| && ch[j] == ch[j'] ==> j == j'
    ensures i < |ch| && ch[i] < |fat|
    ensures Next(num, Freed(fat, ch[k..i]), ch[i]) == Linked(ch, i + 1)
    ensures Freed(fat, ch[k..i + 1]) == Freed(fat, ch[k..i])[ch[i] := FREE]
  {
    hide Freed;
    assert i < |ch| && Leads(num, fat, ch, i);
    FreedLater(fat, ch, k, i);
    FreedMore(fat, ch, k, i);
  }

  lemma FreedLater(fat: seq<nat>, ch: seq<nat>, k: nat, i: nat)
    requires k <= i < |ch| && ch[i] < |fat|
    requires forall j: nat, j': nat :: j < |ch| && j' < |ch| && ch[j] == ch[j'] ==> j == j'
    ensures Freed(fat, ch[k..i])[ch[i]] == fat[ch[i]]
  {
    hide Freed;
    FreedAt(fat, ch[k..i], ch[i]);
  }

  lemma FreedMore(fat: seq<nat>, ch: seq<nat>, k: nat, i: nat)
    requires k <= i < |ch|
    ensures Freed(fat, ch[k..i + 1]) == Marked(Freed(fat, ch[k..i]), ch[i], FREE)
  {
    assert ch[k..i + 1][..|ch[k..i + 1]| - 1] == ch[k..i];
  }

  lemma TruncIsCut(fat: seq<nat>, ch: seq<nat>, k: nat)
    requires k < |ch| && ch[k] < |fat|
    ensures Freed(fat[ch[k] := EOC_MAX], ch[k + 1..]) == Cut(fat, ch, k + 1)
  {
    hide Freed;
  }

  lemma ClusterIsLinked(num: nat, fat: seq<nat>, ch: seq<nat>, k: nat)
    requires GoodTable(num, fat) && AllLead(num, fat, ch, k)
    ensures forall j: nat :: k <= j ==> (IsLinked(Linked(ch, j)) <==> j < |ch|)
  {
    forall j: nat | k <= j < |ch| ensures IsLinked(Linked(ch, j)) {
      assert Leads(num, fat, ch, j);
    }
  }

  lemma GrewRefl(v: Vol, f: nat)
    requires f < |v.chains|
    ensures Grew(v, v, f)
  {
  }

  /** What the successor of the idx-th cluster says. */
  lemma EndMark(num: nat, bpc: nat, v: Vol, f: nat, idx: nat)
    requires Good(num, bpc, v) && f < |v.chains| && idx < |v.chains[f]|
    ensures v.chains[f][idx] < |v.fat|
    ensures IsEOC(Next(num, v.fat, v.chains[f][idx])) <==> idx + 1 == |v.chains[f]|
    ensures idx + 1 < |v.chains[f]| ==> Next(num, v.fat, v.chains[f][idx]) == v.chains[f][idx + 1]
    ensures forall c: nat :: IsCluster(num, c) ==> !IsEOC(c) && IsLinked(c)
  {
    ClusterOf(num, bpc, v, f, idx);
    if idx + 1 < |v.chains[f]| {
      ClusterOf(num, bpc, v, f, idx + 1);
    }
  }
}
