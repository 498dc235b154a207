/** kernel/log.c in place, over the cache and the disk. Every method is a run of the
    cache-and-log machine, so what is proved of the machine's runs holds of the code. */
module RedoLog {
  import opened Blocks
  import opened BufferCache
  import opened CacheInvariant
  import opened LogMachine
  import opened LogSteps
  import opened LogSafety
  import opened CommitSafety
  import opened StorageTheorems
  import opened CommitRuns
  import opened Bio

  class Log {
    const l: Layout
    const cache: Bcache
    const disk: Disk
    var n: nat                  // lh.n
    const block: array<nat>     // lh.block
    var outstanding: nat
    var committing: bool
    ghost var phase: Phase
    ghost var ops: map<Pid, nat>
    ghost var refs: seq<nat>
    ghost var dirty: set<nat>
    ghost var committed: seq<Block>

    ghost function State(): Sys
      reads this, cache, cache.buf, disk, block
      requires n <= block.Length
    {
      Sys(disk.blocks, cache.Abs(), block[..n], phase, ops, refs, dirty, committed)
    }

    /** The concrete fields agree with each other; true throughout. */
    ghost predicate Linkage()
      reads this, cache, cache.buf, cache.next, cache.prev, disk, block
    {
      && cache.Valid() && block.Length == LOGSIZE && n <= LOGSIZE
      && block != cache.next && block != cache.prev
      && outstanding == |ops|
    }

    ghost predicate Valid()
      reads this, cache, cache.buf, cache.next, cache.prev, disk, block
    {
      Linkage() && Inv(l, State()) && (committing <==> !phase.Idle? && !phase.Booting())
    }

    /** initlog before its recover_from_log: memory is as the boot left it. */
    constructor (l: Layout, cache: Bcache, disk: Disk)
      requires l.Good() && |disk.blocks| == l.nblocks && GoodHead(l, disk.blocks[l.start])
      requires cache.Valid() && cache.Abs() == INITIAL_CACHE
      ensures Valid() && this.l == l && this.cache == cache && this.disk == disk && fresh(block)
      ensures State() == PowerOn(l, disk.blocks)
    {
      hide Inv, CacheInv, GoodHead, Durable, IsPermutation, Linked, WellFormed, View, PowerOn, GoodList,
        UniqueLabels;
      this.l, this.cache, this.disk := l, cache, disk;
      n, outstanding, committing := 0, 0, false;
      block := new nat[LOGSIZE](_ => 0);
      phase, ops, refs, dirty := ReadLog, map[], seq(NBUF, _ => 0), {};
      committed := PowerOn(l, disk.blocks).committed;
      new;
      assert block[..0] == [];
      PowerOnInv(l, disk.blocks);
      PowerOnFields(l, disk.blocks);
    }

    /** The two breads with which an iteration of write_log and of install_trans begins; ok is false
        where one of them sleeps or panics. */
    method ReadPair(a: nat, b: nat) returns (i: nat, j: nat, ok: bool)
      requires cache.Valid() && a < |disk.blocks| && b < |disk.blocks| && a != b && l.dev != 0
      requires LocksRef(cache.Abs()) && UniqueLabels(cache.Abs())
      modifies cache.buf
      ensures cache.Valid() && WellFormed(old(cache.Abs())) && (ok ==> BothUnlocked(l, old(cache.Abs()), a, b))
      ensures var c := old(cache.Abs());
              if ok then
                Bread(disk.blocks, c, KERNEL, l.dev, a).Some?
                && (var (c1, i') := Bread(disk.blocks, c, KERNEL, l.dev, a).value;
                    i' == i && Bread(disk.blocks, c1, KERNEL, l.dev, b) == Some((cache.Abs(), j)))
              else
                BothUnlocked(l, c, a, b) && Bread(disk.blocks, c, KERNEL, l.dev, a).Some? ==>
                  Bread(disk.blocks, Bread(disk.blocks, c, KERNEL, l.dev, a).value.0, KERNEL, l.dev, b) == None
      ensures ok ==> i < NBUF && j < NBUF && i != j
                     && cache.buf[i].owner == cache.buf[j].owner == Some(KERNEL)
                     && cache.buf[i].blockno == a && cache.buf[j].blockno == b
    {
      hide Linked, IsPermutation, Bread, Distinct, UniqueLabels, LocksRef, Unlocked, BGet;
      ghost var c0 := cache.Abs();
      i, j, ok := 0, 0, false;
      FirstGet(c0, l.dev, a);
      var r, waits := cache.BreadBlock(KERNEL, disk, l.dev, a);
      if r.None? || waits { return; }
      i := r.value;
      ghost var c1 := cache.Abs();
      SecondGet(disk.blocks, c0, KERNEL, l.dev, a, b);
      FirstGet(c1, l.dev, b);
      r, waits := cache.BreadBlock(KERNEL, disk, l.dev, b);
      if r.None? || waits { return; }
      j, ok := r.value, true;
      BreadOne(disk.blocks, c0, KERNEL, l.dev, a);
      BreadOne(disk.blocks, c1, KERNEL, l.dev, b);
    }

    /** The two brelses with which such an iteration ends. */
    method RelsePair(i: nat, j: nat)
      requires cache.Valid() && i < NBUF && j < NBUF && i != j
      requires cache.buf[i].owner == cache.buf[j].owner == Some(KERNEL)
      modifies cache, cache.buf, cache.next, cache.prev
      ensures cache.Valid() && cache.Abs() == BRelse(BRelse(old(cache.Abs()), i), j)
    {
      hide Linked, IsPermutation, BRelse;
      RelseOther(cache.Abs(), i, j);
      var panic := cache.Brelse(KERNEL, i);
      panic := cache.Brelse(KERNEL, j);
    }

    /** One iteration of write_log's loop. */
    method LogOne(tail: nat) returns (ok: bool)
      requires Linkage() && Sane(l, State()) && tail < n && block[tail] != Slot(l, tail)
      requires LocksRef(cache.Abs()) && UniqueLabels(cache.Abs())
      modifies cache, cache.buf, cache.next, cache.prev, disk
      ensures ok ==> BothUnlocked(l, old(cache.Abs()), Slot(l, tail), block[tail])
      ensures ok ==> Linkage() && CopyToLog(l, old(disk.blocks), old(cache.Abs()), Slot(l, tail), block[tail])
                                  == Some(Store(disk.blocks, cache.Abs()))
      ensures !ok && BothUnlocked(l, old(cache.Abs()), Slot(l, tail), block[tail]) ==>
                CopyToLog(l, old(disk.blocks), old(cache.Abs()), Slot(l, tail), block[tail]) == None
    {
      hide Linked, IsPermutation, Bread, BRelse, Inv, Distinct, UniqueLabels, LocksRef, BothUnlocked, BGet;
      var to, from;
      to, from, ok := ReadPair(Slot(l, tail), block[tail]);
      if !ok { return; }
      ghost var c2 := cache.Abs();
      cache.Store(to, cache.buf[from].data);
      var panic := cache.Bwrite(KERNEL, to, disk);
      assert disk.blocks == old(disk.blocks)[Slot(l, tail) := c2.buf[from].data];
      RelsePair(from, to);
    }

    /** One iteration of install_trans's loop. */
    method InstallOne(tail: nat, recovering: bool) returns (ok: bool)
      requires Linkage() && Sane(l, State()) && tail < n && block[tail] != Slot(l, tail)
      requires LocksRef(cache.Abs()) && UniqueLabels(cache.Abs())
      modifies cache, cache.buf, cache.next, cache.prev, disk
      ensures ok ==> BothUnlocked(l, old(cache.Abs()), Slot(l, tail), block[tail])
      ensures ok ==>
                Linkage() && CopyHome(l, old(disk.blocks), old(cache.Abs()), Slot(l, tail), block[tail], !recovering)
                                  == Some(Store(disk.blocks, cache.Abs()))
      ensures !ok && BothUnlocked(l, old(cache.Abs()), Slot(l, tail), block[tail]) ==>
                CopyHome(l, old(disk.blocks), old(cache.Abs()), Slot(l, tail), block[tail], !recovering) == None
    {
      hide Linked, IsPermutation, Bread, BRelse, Inv, Distinct, UniqueLabels, LocksRef, BothUnlocked, BGet;
      var lbuf, dbuf;
      lbuf, dbuf, ok := ReadPair(Slot(l, tail), block[tail]);
      if !ok { return; }
      ghost var c2 := cache.Abs();
      cache.Store(dbuf, cache.buf[lbuf].data);
      var panic := cache.Bwrite(KERNEL, dbuf, disk);
      assert disk.blocks == old(disk.blocks)[block[tail] := c2.buf[lbuf].data];
      if !recovering {
        cache.Bunpin(dbuf);
      }
      RelsePair(lbuf, dbuf);
    }

    /** write_head's stores into the header buffer. */
    method FillHeader(data: Block) returns (hb: Block)
      requires n <= block.Length == LOGSIZE && forall k :: 0 <= k < n ==> block[k] < WORD_LIMIT
      ensures hb == PutHead(data, block[..n])
    {
      hb := SetWord(data, 0, n);
      for i := 0 to n
        invariant hb == SetWords(data, 0, [n] + block[..i])
      {
        hb := SetWord(hb, i + 1, block[i]);
        assert ([n] + block[..i + 1])[..i + 1] == [n] + block[..i];
      }
    }

    /** write_head. */
    method WriteHeader() returns (ok: bool)
      requires Linkage() && Sane(l, State()) && LocksRef(cache.Abs())
      modifies cache, cache.buf, cache.next, cache.prev, disk
      ensures ok ==> Unlocked(old(cache.Abs()), l.dev, l.start)
      ensures ok ==>
                Linkage() && StoreHead(l, old(disk.blocks), old(cache.Abs()), block[..n]) ==
                    Some(Store(disk.blocks, cache.Abs()))
      ensures !ok && Unlocked(old(cache.Abs()), l.dev, l.start) ==>
                StoreHead(l, old(disk.blocks), old(cache.Abs()), block[..n]) == None
    {
      hide Linked, IsPermutation, Bread, BRelse, Inv, Distinct, LocksRef, Unlocked, BGet, PutHead;
      FirstGet(cache.Abs(), l.dev, l.start);
      var r, waits := cache.BreadBlock(KERNEL, disk, l.dev, l.start);
      if r.None? || waits { return false; }
      ghost var c1 := cache.Abs();
      BreadOne(disk.blocks, old(cache.Abs()), KERNEL, l.dev, l.start);
      var b := r.value;
      var hb := FillHeader(cache.buf[b].data);
      cache.Store(b, hb);
      var panic := cache.Bwrite(KERNEL, b, disk);
      panic := cache.Brelse(KERNEL, b);
      ok := true;
    }

    /** write_log: ok is false where bget panics for want of a buffer. */
    method WriteLogBlocks() returns (ok: bool)
      requires Valid() && phase == Phase.WriteLog(0)
      modifies this`phase, cache, cache.buf, cache.next, cache.prev, disk
      ensures ok ==> Valid() && phase == Phase.WriteHead
      ensures ok ==> Exec(l, old(State()), Repeat(n + 1)) == Some(State())
      ensures !ok ==> StopsEarly(l, old(State()))
    {
      hide StopsEarly, Inv, CacheInv, CopyToLog, Unlocked, Linked, IsPermutation, Exec, PhaseInv,
        Recoverable, GoodList, Reserved, DirtyHeld, NextLogStep, Sane, WellFormed, View, BothUnlocked;
      ghost var s0 := State();
      ExecNothing(l, s0);
      for tail := 0 to n
        invariant Valid() && phase == Phase.WriteLog(tail)
        invariant Exec(l, s0, Repeat(tail)) == Some(State())
      {
        ghost var m := State();
        Parts(l, m);
        SlotsAreNotHome(l, m.lh, tail);
        LocksOf(l, m);
        ok := LogOne(tail);
        if !ok {
          FailsBlocks(l, s0, tail, m);
          return;
        }
        phase := Phase.WriteLog(tail + 1);
        LogOneIsStep(l, m, tail, State());
        Advance(l, s0, tail, m, State());
      }
      ghost var m := State();
      phase := Phase.WriteHead;
      LoopEndIsStep(l, m, State());
      Advance(l, s0, n, m, State());
      ok := true;
    }

    /** install_trans of a commit. */
    method InstallTrans(ghost s0: Sys, ghost k: nat) returns (ok: bool)
      requires Valid() && phase == Phase.Install(0)
      requires Exec(l, s0, Repeat(k)) == Some(State())
      modifies this`phase, cache, cache.buf, cache.next, cache.prev, disk
      ensures ok ==> Valid() && phase == Phase.Install(n)
      ensures ok ==> Exec(l, s0, Repeat(k + n)) == Some(State())
      ensures !ok ==> StopsEarly(l, s0)
    {
      hide StopsEarly, Inv, CacheInv, CopyHome, Unlocked, Linked, IsPermutation, Exec, PhaseInv,
        Recoverable, GoodList, Reserved, DirtyHeld, NextLogStep;
      for tail := 0 to n
        invariant Valid() && phase == Phase.Install(tail)
        invariant Exec(l, s0, Repeat(k + tail)) == Some(State())
      {
        ghost var m := State();
        Parts(l, m);
        SlotsAreNotHome(l, m.lh, tail);
        LocksOf(l, m);
        ok := InstallOne(tail, false);
        if !ok {
          FailsBlocks(l, s0, k + tail, m);
          return;
        }
        phase := Phase.Install(tail + 1);
        InstallOneIsStep(l, m, tail, State());
        Advance(l, s0, k + tail, m, State());
      }
      ok := true;
    }

    /** The header write that commits, after k steps of the run that began in s0. */
    method CommitPoint(ghost s0: Sys, ghost k: nat) returns (ok: bool)
      requires Valid() && phase == Phase.WriteHead
      requires Exec(l, s0, Repeat(k)) == Some(State())
      modifies this`phase, this`committed, cache, cache.buf, cache.next, cache.prev, disk
      ensures ok ==> Valid() && phase == Phase.Install(0)
      ensures ok ==> Exec(l, s0, Repeat(k + 1)) == Some(State())
      ensures !ok ==> StopsEarly(l, s0)
    {
      hide StopsEarly, Inv, CacheInv, StoreHead, Unlocked, Linked, IsPermutation, Exec, PhaseInv,
        Recoverable, GoodList, Reserved, DirtyHeld, View, NextLogStep;
      ghost var m := State();
      Parts(l, m);
      LocksOf(l, m);
      ok := WriteHeader();
      if !ok {
        FailsBlocks(l, s0, k, m);
        return;
      }
      committed := seq(l.nblocks, b requires 0 <= b < l.nblocks => ViewOf(l, m, b));
      phase := Phase.Install(0);
      HeaderIsStep(l, m, State());
      Advance(l, s0, k, m, State());
    }

    /** The header write that erases the log, at the end of a commit or of a recovery. */
    method EraseHeader(ghost s0: Sys, ghost k: nat) returns (ok: bool)
      requires Valid() && (phase.Erase? || phase.Clear?) && n == 0
      requires Exec(l, s0, Repeat(k)) == Some(State())
      modifies this`phase, cache, cache.buf, cache.next, cache.prev, disk
      ensures ok ==> Valid() && phase == if old(phase).Erase? then Finish else Idle
      ensures ok ==> Exec(l, s0, Repeat(k + 1)) == Some(State())
      ensures !ok ==> StopsEarly(l, s0)
    {
      hide StopsEarly, Inv, CacheInv, StoreHead, Unlocked, Linked, IsPermutation, Exec, PhaseInv,
        Recoverable, GoodList, Reserved, DirtyHeld, View, NextLogStep;
      ghost var m := State();
      Parts(l, m);
      assert block[..n] == [];
      LocksOf(l, m);
      ok := WriteHeader();
      if !ok {
        FailsBlocks(l, s0, k, m);
        return;
      }
      phase := if phase.Erase? then Finish else Idle;
      EraseIsStep(l, m, State(), phase);
      Advance(l, s0, k, m, State());
    }

    /** log.lh.n = 0 between install_trans and the last write_head. */
    method ForgetList(ghost s0: Sys, ghost k: nat)
      requires Valid() && (phase == Phase.Install(n) || phase == Phase.Reinstall(n))
      requires Exec(l, s0, Repeat(k)) == Some(State())
      modifies this`phase, this`n
      ensures Valid() && n == 0 && phase == (if old(phase).Install? then Phase.Erase else Phase.Clear)
      ensures Exec(l, s0, Repeat(k + 1)) == Some(State())
    {
      hide Inv, CacheInv, Linked, IsPermutation, Exec, NextLogStep, Sane, WellFormed;
      ghost var m := State();
      n := 0;
      phase := if phase.Install? then Phase.Erase else Phase.Clear;
      assert block[..n] == [];
      LoopEndIsStep(l, m, State());
      Advance(l, s0, k, m, State());
    }

    /** commit() of a log that is not empty. */
    method Commit() returns (ok: bool)
      requires Valid() && phase == Phase.WriteLog(0)
      modifies this`phase, this`n, this`committed, cache, cache.buf, cache.next, cache.prev, disk
      ensures ok ==> Valid() && phase == Phase.Finish && n == 0
      ensures ok ==> Exec(l, old(State()), Repeat(2 * old(n) + 4)) == Some(State())
      ensures !ok ==> StopsEarly(l, old(State()))
    {
      hide StopsEarly, NextLogStep, Distinct, UniqueLabels, Inv, CacheInv, Linked, IsPermutation,
        Exec, PhaseInv, Recoverable, GoodList, Reserved, DirtyHeld, View, CopyToLog, CopyHome, StoreHead, Sane,
        WellFormed;
      ghost var s0, n0 := State(), n;
      ok := WriteLogBlocks();
      if !ok { return; }
      ok := CommitPoint(s0, n + 1);
      if !ok { return; }
      ok := InstallTrans(s0, n + 2);
      if !ok { return; }
      ForgetList(s0, 2 * n0 + 2);
      ok := EraseHeader(s0, 2 * n0 + 3);
    }

    /** read_head's copy of the on-disk list. */
    method LoadList(data: Block)
      requires block.Length == LOGSIZE && HeadCount(data) <= LOGSIZE
      modifies this`n, block
      ensures n <= LOGSIZE && block[..n] == ReadHead(data)
    {
      n := Word(data, 0);
      for i := 0 to n
        invariant n == Word(data, 0) && block[..i] == ReadHead(data)[..i]
      {
        block[i] := Word(data, i + 1);
        assert block[..i + 1] == block[..i] + [block[i]];
      }
    }

    /** read_head's bread, copy and brelse. */
    method LoadHeader() returns (ok: bool)
      requires Linkage() && Sane(l, State()) && LocksRef(cache.Abs())
      requires match Bread(disk.blocks, cache.Abs(), KERNEL, l.dev, l.start)
               case Some((c, i)) => HeadCount(c.buf[i].data) <= LOGSIZE
               case None => true
      modifies this`n, block, cache, cache.buf, cache.next, cache.prev
      ensures ok ==> Linkage() && Unlocked(old(cache.Abs()), l.dev, l.start)
      ensures match Bread(disk.blocks, old(cache.Abs()), KERNEL, l.dev, l.start)
              case Some((c, i)) =>
                if ok then cache.Abs() == BRelse(c, i) && block[..n] == ReadHead(c.buf[i].data)
                else !Unlocked(old(cache.Abs()), l.dev, l.start)
              case None => !ok
    {
      hide Inv, Unlocked, Linked, IsPermutation, Bread, BRelse, Distinct, LocksRef, BGet, ReadHead;
      ghost var c0 := cache.Abs();
      FirstGet(c0, l.dev, l.start);
      var r, waits := cache.BreadBlock(KERNEL, disk, l.dev, l.start);
      if r.None? || waits {
        return false;
      }
      BreadOne(disk.blocks, c0, KERNEL, l.dev, l.start);
      var b := r.value;
      var data := cache.buf[b].data;
      LoadList(data);
      var panic := cache.Brelse(KERNEL, b);
      ok := true;
    }

    /** read_head at boot. */
    method ReadHeader(ghost s0: Sys) returns (ok: bool)
      requires Valid() && phase == Phase.ReadLog && s0 == State()
      modifies this`phase, this`n, block, cache, cache.buf, cache.next, cache.prev
      ensures ok ==> Valid() && phase == Phase.Reinstall(0)
      ensures ok ==> Exec(l, s0, Repeat(1)) == Some(State())
      ensures !ok ==> StopsEarly(l, s0)
    {
      hide StopsEarly, Inv, CacheInv, Unlocked, Linked, IsPermutation, Exec, PhaseInv, Recoverable, GoodList,
        Reserved, DirtyHeld, View, NextLogStep, Bread, BRelse, UniqueLabels, Distinct, LocksRef, ReadHead;
      Parts(l, s0);
      LocksOf(l, s0);
      ExecNothing(l, s0);
      if Bread(s0.disk, s0.cache, KERNEL, l.dev, l.start).Some? {
        HeadInCache(l, s0);
      }
      ok := LoadHeader();
      if !ok {
        FailsBlocks(l, s0, 0, s0);
        return;
      }
      phase := Phase.Reinstall(0);
      ghost var (c, i) := Bread(s0.disk, s0.cache, KERNEL, l.dev, l.start).value;
      ReadIsStep(l, s0, c, i, State());
      Advance(l, s0, 0, s0, State());
    }

    /** install_trans at boot: nothing is pinned. */
    method ReinstallTrans(ghost s0: Sys, ghost k: nat) returns (ok: bool)
      requires Valid() && phase == Phase.Reinstall(0)
      requires Exec(l, s0, Repeat(k)) == Some(State())
      modifies this`phase, cache, cache.buf, cache.next, cache.prev, disk
      ensures ok ==> Valid() && phase == Phase.Reinstall(n)
      ensures ok ==> Exec(l, s0, Repeat(k + n)) == Some(State())
      ensures !ok ==> StopsEarly(l, s0)
    {
      hide StopsEarly, Inv, CacheInv, CopyHome, Unlocked, Linked, IsPermutation, Exec, PhaseInv,
        Recoverable, GoodList, Reserved, DirtyHeld, NextLogStep;
      for tail := 0 to n
        invariant Valid() && phase == Phase.Reinstall(tail)
        invariant Exec(l, s0, Repeat(k + tail)) == Some(State())
      {
        ghost var m := State();
        Parts(l, m);
        SlotsAreNotHome(l, m.lh, tail);
        LocksOf(l, m);
        ok := InstallOne(tail, true);
        if !ok {
          FailsBlocks(l, s0, k + tail, m);
          return;
        }
        phase := Phase.Reinstall(tail + 1);
        ReinstallOneIsStep(l, m, tail, State());
        Advance(l, s0, k + tail, m, State());
      }
      ok := true;
    }

    /** recover_from_log: afterwards every home block on disk is the committed one. */
    method RecoverFromLog() returns (ok: bool)
      requires Valid() && phase == Phase.ReadLog
      modifies this`phase, this`n, block, cache, cache.buf, cache.next, cache.prev, disk
      ensures ok ==> Valid() && phase == Phase.Idle && n == 0
      ensures ok ==> exists k :: Exec(l, old(State()), Repeat(k)) == Some(State())
      ensures !ok ==> StopsEarly(l, old(State()))
      ensures ok ==> |disk.blocks| == l.nblocks == |committed|
      ensures ok ==> forall b: nat :: l.Home(b) ==> disk.blocks[b] == committed[b]
    {
      hide StopsEarly, Inv, CacheInv, Linked, IsPermutation, Exec, PhaseInv, Recoverable, GoodList,
        Reserved, DirtyHeld, View, CopyHome, StoreHead, Sane, WellFormed;
      ghost var s0 := State();
      ok := ReadHeader(s0);
      if !ok { return; }
      ghost var n0 := n;
      ok := ReinstallTrans(s0, 1);
      if !ok { return; }
      ForgetList(s0, n0 + 1);
      ok := EraseHeader(s0, n0 + 2);
      if ok {
        IdleDisk(l, State());
      }
    }

    /** log_write's search for an earlier entry of the same block. */
    method FindLogged(blockno: nat) returns (i: nat)
      requires n <= block.Length
      ensures i <= n && blockno !in block[..i] && (i < n ==> block[i] == blockno)
    {
      i := 0;
      while i < n && block[i] != blockno
        invariant i <= n && blockno !in block[..i]
      {
        i := i + 1;
      }
    }

    /** log_write after its panics: record the block unless it is logged already. */
    method Record(p: Pid, b: nat)
      requires Linkage() && Sane(l, State()) && b < NBUF && p in ops && !LogWritePanics(l, State())
      modifies this`n, this`ops, this`dirty, block, cache.buf
      ensures Linkage() && b < |old(cache.Abs()).buf| && State() == Recorded(old(State()), p, b)
    {
      hide Inv, CacheInv, Linked, IsPermutation, View, PhaseInv, Recoverable, GoodList, Reserved, DirtyHeld, DoLogWrite,
        Distinct, SameView;
      ghost var s0 := State();
      var blockno := cache.buf[b].blockno;
      var i := FindLogged(blockno);
      block[i] := blockno;
      if i == n {
        cache.Bpin(b);
        n := n + 1;
        ops := ops[p := ops[p] + 1];
        assert block[..n] == s0.lh + [blockno];
        assert ops.Keys == s0.ops.Keys;
      } else {
        assert block[..n] == s0.lh;
      }
      dirty := dirty - {b};
    }

    /** log_write by the holder of a buffer, inside an operation; ok is false where it panics. While
        the operation stays within its allowance this is the step of the machine. */
    method LogWriteBlock(p: Pid, b: nat) returns (ok: bool)
      requires Valid() && b < NBUF == |cache.Abs().buf| && p in ops
      requires var h := cache.Abs().buf[b]; h.owner == Some(p) && h.valid && l.Home(h.blockno)
      modifies this`n, this`ops, this`dirty, block, cache.buf
      ensures ok <==> !LogWritePanics(l, old(State()))
      ensures Linkage() && State() == if ok then Recorded(old(State()), p, b) else old(State())
      ensures old(cache.Abs().buf[b].blockno) in old(block[..n]) || old(ops)[p] < MAXOPBLOCKS ==>
                Valid() && (ok ==> DoLogWrite(l, old(State()), p, b) == Some(State()))
    {
      hide Inv, CacheInv, Linked, IsPermutation, View, PhaseInv, Recoverable, GoodList, Reserved, DirtyHeld, DoLogWrite,
        Distinct, SameView;
      ghost var s0 := State();
      Parts(l, s0);
      if n >= LOGSIZE || n >= l.size - 1 {
        return false;
      }
      if outstanding < 1 {
        return false;
      }
      Record(p, b);
      if s0.cache.buf[b].blockno in s0.lh || s0.ops[p] < MAXOPBLOCKS {
        RecordIsStep(l, s0, p, b, State());
        LogWriteStep(l, s0, p, b, State());
      }
      ok := true;
    }

    /** One pass of begin_op's loop; false where it goes to sleep. */
    method TryBeginOp(p: Pid) returns (ok: bool)
      requires Valid() && !phase.Booting() && p != KERNEL && p !in ops
      modifies this`outstanding, this`ops
      ensures ok <==> MayBegin(old(State()))
      ensures Valid() && if ok then DoBegin(old(State()), p) == Some(State()) else State() == old(State())
    {
      hide Inv, CacheInv, Linked, IsPermutation, View, PhaseInv, Recoverable, GoodList, Reserved, DirtyHeld;
      ghost var s0 := State();
      Parts(l, s0);
      if committing {
        ok := false;
      } else if n + (outstanding + 1) * MAXOPBLOCKS > LOGSIZE {
        ok := false;
      } else {
        outstanding := outstanding + 1;
        ops := ops[p := 0];
        BeginStep(l, s0, p, State());
        ok := true;
      }
    }

    /** The second half of end_op: commit, then let others in. */
    method CommitAndFinish() returns (ok: bool)
      requires Valid() && phase == if n == 0 then Finish else Phase.WriteLog(0)
      modifies this`phase, this`n, this`committed, this`committing, cache, cache.buf, cache.next, cache.prev, disk
      ensures ok ==> Valid() && phase == Phase.Idle && n == 0
      ensures ok ==> exists k :: Exec(l, old(State()), Repeat(k)) == Some(State())
      ensures !ok ==> StopsEarly(l, old(State()))
    {
      hide StopsEarly, Inv, CacheInv, Linked, IsPermutation, View, PhaseInv, Recoverable, GoodList, Reserved,
        DirtyHeld, Exec, NextLogStep;
      ghost var s0, k := State(), 0;
      ExecNothing(l, s0);
      if n > 0 {
        k := 2 * n + 4;
        ok := Commit();
        if !ok { return; }
      }
      ghost var f := State();
      Parts(l, f);
      committing := false;
      phase := Idle;
      FinishIsStep(l, f, State());
      Advance(l, s0, k, f, State());
      ok := true;
    }

    /** end_op, by a process that has logged all it edited. The last operation commits; the
        "log.committing" panic cannot happen. */
    method EndOperation(p: Pid) returns (ok: bool)
      requires Valid() && p in ops && |cache.Abs().buf| == NBUF
      requires forall i :: 0 <= i < NBUF && i in dirty ==> cache.Abs().buf[i].owner != Some(p)
      modifies this`phase, this`n, this`committed, this`outstanding, this`ops, this`committing,
        cache, cache.buf, cache.next, cache.prev, disk
      ensures ok ==> Valid() && ops == old(ops) - {p} && phase == Phase.Idle && (ops == map[] ==> n == 0)
      ensures ok ==> exists m, k :: DoEnd(l, old(State()), p) == Some(m) && Exec(l, m, Repeat(k)) == Some(State())
      ensures !ok ==> exists m :: DoEnd(l, old(State()), p) == Some(m) && StopsEarly(l, m)
    {
      hide StopsEarly, Inv, CacheInv, Linked, IsPermutation, View, PhaseInv, Recoverable, GoodList, Reserved,
        DirtyHeld, Exec, NextLogStep;
      ghost var s0 := State();
      Parts(l, s0);
      assert !committing;
      outstanding := outstanding - 1;
      ops := ops - {p};
      if outstanding == 0 {
        committing := true;
        phase := if n == 0 then Finish else Phase.WriteLog(0);
      }
      ghost var m := State();
      EndStep(l, s0, p, m);
      ExecNothing(l, m);
      ok := true;
      if committing {
        ok := CommitAndFinish();
      }
    }
  }

  /** What log_write does in memory. */
  function Recorded(s: Sys, p: Pid, b: nat): Sys
    requires b < |s.cache.buf| && p in s.ops
  {
    var blockno := s.cache.buf[b].blockno;
    if blockno in s.lh then s.(dirty := s.dirty - {b})
    else s.(lh := s.lh + [blockno], cache := BPin(s.cache, b), ops := s.ops[p := s.ops[p] + 1], dirty := s.dirty - {b})
  }

  lemma RecordIsStep(l: Layout, s: Sys, p: Pid, b: nat, s': Sys)
    requires Sane(l, s) && b < NBUF && p in s.ops && !LogWritePanics(l, s)
    requires var h := s.cache.buf[b]; h.owner == Some(p) && h.valid && l.Home(h.blockno)
    requires s' == Recorded(s, p, b) && (s.cache.buf[b].blockno in s.lh || s.ops[p] < MAXOPBLOCKS)
    ensures DoLogWrite(l, s, p, b) == Some(s')
  {
  }

  lemma FinishIsStep(l: Layout, m: Sys, s': Sys)
    requires Sane(l, m) && WellFormed(m.cache) && m.phase.Finish? && s' == m.(phase := Idle)
    ensures NextLogStep(l, m) == Some(s')
  {
  }

  lemma HeadInCache(l: Layout, s: Sys)
    requires Inv(l, s) && WellFormed(s.cache) && s.phase.ReadLog?
    requires Bread(s.disk, s.cache, KERNEL, l.dev, l.start).Some?
    ensures var (c, i) := Bread(s.disk, s.cache, KERNEL, l.dev, l.start).value;
      c.buf[i].data == s.disk[l.start] && HeadCount(c.buf[i].data) <= LOGSIZE
  {
    hide Inv, CacheInv, View, Bread;
    Parts(l, s);
    QuietDirty(s);
    BreadKeeps(l, s.disk, s.cache, s.refs, {}, {}, KERNEL, l.start);
    CleanView(l, s.disk, s.cache, s.refs, {}, {}, l.start);
  }

  lemma ReadIsStep(l: Layout, m: Sys, c: Cache, b: nat, s': Sys)
    requires Sane(l, m) && WellFormed(m.cache) && m.phase.ReadLog?
    requires Bread(m.disk, m.cache, KERNEL, l.dev, l.start) == Some((c, b))
    requires s' == m.(cache := BRelse(c, b), lh := ReadHead(c.buf[b].data), phase := Phase.Reinstall(0))
    requires Unlocked(m.cache, l.dev, l.start)
    ensures NextLogStep(l, m) == Some(s')
  {
    hide Bread, Unlocked;
  }

  lemma ReinstallOneIsStep(l: Layout, m: Sys, tail: nat, s': Sys)
    requires Sane(l, m) && WellFormed(m.cache) && m.phase == Phase.Reinstall(tail)
    requires tail < |m.lh|
    requires BothUnlocked(l, m.cache, Slot(l, tail), m.lh[tail])
    requires s' == m.(disk := s'.disk, cache := s'.cache, phase := Phase.Reinstall(tail + 1))
    requires CopyHome(l, m.disk, m.cache, Slot(l, tail), m.lh[tail], false) == Some(Store(s'.disk, s'.cache))
    ensures NextLogStep(l, m) == Some(s')
  {
    hide CopyHome, Unlocked;
  }

  /** Leaving a loop of commit() or of recovery. */
  lemma LoopEndIsStep(l: Layout, m: Sys, s': Sys)
    requires Inv(l, m)
    requires || (m.phase == Phase.WriteLog(|m.lh|) && s' == m.(phase := Phase.WriteHead))
             || (m.phase == Phase.Install(|m.lh|) && s' == m.(lh := [], phase := Phase.Erase))
             || (m.phase == Phase.Reinstall(|m.lh|) && s' == m.(lh := [], phase := Phase.Clear))
    ensures Sane(l, m) && WellFormed(m.cache) && NextLogStep(l, m) == Some(s')
  {
    hide Inv, CacheInv, PhaseInv, Recoverable;
    Parts(l, m);
  }

  lemma PowerOnFields(l: Layout, disk: seq<Block>)
    requires l.Good() && |disk| == l.nblocks && GoodHead(l, disk[l.start])
    ensures var s := PowerOn(l, disk);
      s == Sys(disk, INITIAL_CACHE, [], ReadLog, map[], seq(NBUF, _ => 0), {}, s.committed)
  {
  }

  lemma LogOneIsStep(l: Layout, m: Sys, tail: nat, s': Sys)
    requires Sane(l, m) && WellFormed(m.cache) && m.phase == Phase.WriteLog(tail)
    requires tail < |m.lh|
    requires BothUnlocked(l, m.cache, Slot(l, tail), m.lh[tail])
    requires s' == m.(disk := s'.disk, cache := s'.cache, phase := Phase.WriteLog(tail + 1))
    requires CopyToLog(l, m.disk, m.cache, Slot(l, tail), m.lh[tail]) == Some(Store(s'.disk, s'.cache))
    ensures NextLogStep(l, m) == Some(s')
  {
    hide CopyToLog, Unlocked;
  }

  lemma InstallOneIsStep(l: Layout, m: Sys, tail: nat, s': Sys)
    requires Sane(l, m) && WellFormed(m.cache) && m.phase == Phase.Install(tail)
    requires tail < |m.lh|
    requires BothUnlocked(l, m.cache, Slot(l, tail), m.lh[tail])
    requires s' == m.(disk := s'.disk, cache := s'.cache, phase := Phase.Install(tail + 1))
    requires CopyHome(l, m.disk, m.cache, Slot(l, tail), m.lh[tail], true) == Some(Store(s'.disk, s'.cache))
    ensures NextLogStep(l, m) == Some(s')
  {
    hide CopyHome, Unlocked;
  }

  lemma HeaderIsStep(l: Layout, m: Sys, s': Sys)
    requires Sane(l, m) && WellFormed(m.cache) && m.phase == Phase.WriteHead
    requires s' == m.(disk := s'.disk, cache := s'.cache, phase := Phase.Install(0), committed := s'.committed)
    requires s'.committed == seq(l.nblocks, b requires 0 <= b < l.nblocks => ViewOf(l, m, b))
    requires StoreHead(l, m.disk, m.cache, m.lh) == Some(Store(s'.disk, s'.cache))
    requires Unlocked(m.cache, l.dev, l.start)
    ensures NextLogStep(l, m) == Some(s')
  {
    hide StoreHead, Unlocked;
  }

  lemma EraseIsStep(l: Layout, m: Sys, s': Sys, next: Phase)
    requires Sane(l, m) && WellFormed(m.cache) && m.lh == []
    requires (m.phase.Erase? && next.Finish?) || (m.phase.Clear? && next.Idle?)
    requires s' == m.(disk := s'.disk, cache := s'.cache, phase := next)
    requires StoreHead(l, m.disk, m.cache, []) == Some(Store(s'.disk, s'.cache))
    requires Unlocked(m.cache, l.dev, l.start)
    ensures NextLogStep(l, m) == Some(s')
  {
    hide StoreHead, Unlocked;
  }
}
