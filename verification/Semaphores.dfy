/** One counting semaphore of kernel/sem.c with the sleep and wakeup of kernel/proc.c, as an
    interleaving of processes on any number of CPUs. A step is what one process does between two
    lock operations; a spinlock that is taken blocks the step that wants it. */
module Semaphores {
  import opened Blocks

  /** Where a process stands. Sleep... are the steps of sleep(), Woken... those after sched(). */
  datatype Pc =
    | Idle
    | DownAcquire | DownTest | WaitTest
    | SleepLock | SleepRelease | SleepChan | SleepState | SleepSwitch
    | Asleep | WokenTidy | WokenRelease | WokenAcquire
    | DownRelease
    | UpAcquire | UpTest | UpWake(next: nat) | UpRelease(result: int)

  /** A process: its place, and its p->state == SLEEPING and p->chan == &sem_array[sem]. */
  datatype Proc = Proc(pc: Pc, sleeping: bool, chan: bool)

  /** The semaphore with its lock, and the processes. */
  datatype Sys = Sys(lk: Option<nat>, value: int, init: int, procs: seq<Proc>)

  datatype Step = StartDown(p: nat) | StartUp(p: nat) | Go(p: nat) | Kill(p: nat)

  /** Places in which the process holds the semaphore's lock. */
  predicate HoldsSem(pc: Pc) {
    pc.DownTest? || pc.WaitTest? || pc.SleepLock? || pc.SleepRelease? || pc.DownRelease?
    || pc.UpTest? || pc.UpWake? || pc.UpRelease?
  }

  /** Places in which the process holds its own p->lock. */
  predicate HoldsOwn(pc: Pc) {
    pc.SleepRelease? || pc.SleepChan? || pc.SleepState? || pc.SleepSwitch? || pc.WokenTidy? || pc.WokenRelease?
  }

  function At(s: Sys, p: nat, proc: Proc): Sys
    requires p < |s.procs|
  {
    s.(procs := s.procs[p := proc])
  }

  function MoveTo(s: Sys, p: nat, pc: Pc): Sys
    requires p < |s.procs|
  {
    At(s, p, s.procs[p].(pc := pc))
  }

  function Acquire(s: Sys, p: nat, pc: Pc): Option<Sys>
    requires p < |s.procs|
  {
    if s.lk == None then Some(MoveTo(s, p, pc).(lk := Some(p))) else None
  }

  function Release(s: Sys, p: nat, pc: Pc): Sys
    requires p < |s.procs|
  {
    MoveTo(s, p, pc).(lk := None)
  }

  /** One process of wakeup's scan. */
  function Wake(s: Sys, q: nat): Sys
    requires q < |s.procs|
  {
    if s.procs[q].sleeping && s.procs[q].chan then At(s, q, s.procs[q].(sleeping := false)) else s
  }

  /** The next step of process p; None while it is blocked or has nothing to do. */
  function Advance(s: Sys, p: nat): Option<Sys>
    requires p < |s.procs|
  {
    var proc := s.procs[p];
    match proc.pc
    case Idle => None
    case DownAcquire => Acquire(s, p, DownTest)
    case DownTest => Some(if s.value > 0 then MoveTo(s, p, DownRelease).(value := s.value - 1)
                          else MoveTo(s, p, WaitTest))
    case WaitTest => Some(if s.value <= 0 then MoveTo(s, p, SleepLock)
                          else MoveTo(s, p, DownRelease).(value := s.value - 1))
    case SleepLock => Some(MoveTo(s, p, SleepRelease))
    case SleepRelease => Some(Release(s, p, SleepChan))
    case SleepChan => Some(At(s, p, proc.(pc := SleepState, chan := true)))
    case SleepState => Some(At(s, p, proc.(pc := SleepSwitch, sleeping := true)))
    case SleepSwitch => Some(MoveTo(s, p, Asleep))
    case Asleep => if proc.sleeping then None else Some(MoveTo(s, p, WokenTidy))
    case WokenTidy => Some(At(s, p, proc.(pc := WokenRelease, chan := false)))
    case WokenRelease => Some(MoveTo(s, p, WokenAcquire))
    case WokenAcquire => Acquire(s, p, WaitTest)
    case DownRelease => Some(Release(s, p, Idle))
    case UpAcquire => Acquire(s, p, UpTest)
    case UpTest => Some(if s.init == s.value then MoveTo(s, p, UpRelease(-1))
                        else MoveTo(s, p, UpWake(0)).(value := s.value + 1))
    case UpWake(q) =>
      if q >= |s.procs| then Some(MoveTo(s, p, UpRelease(0)))
      else if q == p then Some(MoveTo(s, p, UpWake(q + 1)))
      else if HoldsOwn(s.procs[q].pc) then None
      else Some(MoveTo(Wake(s, q), p, UpWake(q + 1)))
    case UpRelease(_) => Some(Release(s, p, Idle))
  }

  function Do(s: Sys, step: Step): Option<Sys> {
    if step.p >= |s.procs| then None
    else match step
      case StartDown(p) => if s.procs[p].pc.Idle? then Some(MoveTo(s, p, DownAcquire)) else None
      case StartUp(p) => if s.procs[p].pc.Idle? then Some(MoveTo(s, p, UpAcquire)) else None
      case Go(p) => Advance(s, p)
      case Kill(p) =>   // kill() wakes a sleeping process whatever it waits for
        if HoldsOwn(s.procs[p].pc) then None else Some(At(s, p, s.procs[p].(sleeping := false)))
  }

  /** A run: every step is enabled in its turn. */
  ghost predicate Run(s: Sys, steps: seq<Step>, s': Sys)
    decreases |steps|
  {
    if steps == [] then s' == s
    else Do(s, steps[0]).Some? && Run(Do(s, steps[0]).value, steps[1..], s')
  }

  /** Just after sem_open(sem, v), with n processes and nobody using the semaphore. */
  function Opened(n: nat, v: int): Sys {
    Sys(None, v, v, seq(n, _ => Proc(Idle, false, false)))
  }

  // ----- the invariant -----

  /** Asleep on the semaphore, or past the release of its lock on the way there. */
  predicate Committed(proc: Proc) {
    proc.pc.SleepChan? || proc.pc.SleepState? || proc.pc.SleepSwitch? || (proc.pc.Asleep? && proc.sleeping)
  }

  /** The flags fit the place. */
  predicate Sane(proc: Proc) {
    && (proc.pc.SleepState? || proc.pc.SleepSwitch? || proc.pc.Asleep? || proc.pc.WokenTidy? <==> proc.chan)
    && (proc.sleeping ==> proc.pc.SleepSwitch? || proc.pc.Asleep?)
  }

  /** Someone holding the lock is still going to look at process p. */
  predicate WillWake(s: Sys, p: nat) {
    s.lk.Some? && s.lk.value < |s.procs| && s.procs[s.lk.value].pc.UpWake? && s.procs[s.lk.value].pc.next <= p
  }

  predicate ProcOk(s: Sys, p: nat)
    requires p < |s.procs|
  {
    && Sane(s.procs[p])
    && (HoldsSem(s.procs[p].pc) <==> s.lk == Some(p))
    && (s.procs[p].pc.SleepLock? || s.procs[p].pc.SleepRelease? ==> s.value <= 0)
    && (Committed(s.procs[p]) && s.value > 0 ==> WillWake(s, p))
    && (s.procs[p].pc.UpRelease? ==>
          if s.procs[p].pc.result == -1 then s.value == s.init else s.procs[p].pc.result == 0 < s.value)
    && (s.procs[p].pc.UpWake? ==> s.value > 0)
  }

  ghost predicate Inv(s: Sys) {
    && 0 <= s.value <= s.init
    && (s.lk.Some? ==> s.lk.value < |s.procs|)
    && forall p: nat :: p < |s.procs| ==> ProcOk(s, p)
  }

  lemma OpenedInv(n: nat, v: int)
    requires v >= 0
    ensures Inv(Opened(n, v))
  {
  }

  /** The process that moves, in sem_down, sleep or the ends of sem_up. */
  lemma MoverOk(s: Sys, p: nat)
    requires Inv(s) && p < |s.procs| && Advance(s, p).Some? && !s.procs[p].pc.UpWake?
    ensures ProcOk(Advance(s, p).value, p)
  {
    assert ProcOk(s, p);
  }

  /** The process that moves, in wakeup. */
  lemma WakerOk(s: Sys, p: nat)
    requires Inv(s) && p < |s.procs| && Advance(s, p).Some? && s.procs[p].pc.UpWake?
    ensures ProcOk(Advance(s, p).value, p)
  {
    assert ProcOk(s, p);
  }

  /** Any other process, when the mover neither sleeps nor wakes. */
  lemma OtherOk(s: Sys, p: nat, q: nat)
    requires Inv(s) && p < |s.procs| && q < |s.procs| && p != q && Advance(s, p).Some?
    requires !s.procs[p].pc.UpWake?
    ensures ProcOk(Advance(s, p).value, q)
  {
    assert ProcOk(s, p) && ProcOk(s, q);
  }

  /** Any other process, when the mover scans the process table in wakeup. */
  lemma WakeOk(s: Sys, p: nat, q: nat)
    requires Inv(s) && p < |s.procs| && q < |s.procs| && p != q && Advance(s, p).Some?
    requires s.procs[p].pc.UpWake?
    ensures ProcOk(Advance(s, p).value, q)
  {
    assert ProcOk(s, p) && ProcOk(s, q);
  }

  lemma AdvanceKeeps(s: Sys, p: nat)
    requires Inv(s) && p < |s.procs| && Advance(s, p).Some?
    ensures Inv(Advance(s, p).value)
    ensures Advance(s, p).value.init == s.init && |Advance(s, p).value.procs| == |s.procs|
  {
    assert ProcOk(s, p);
    AdvanceCounts(s, p);
    forall q: nat | q < |s.procs| ensures ProcOk(Advance(s, p).value, q) {
      if q == p && s.procs[p].pc.UpWake? {
        WakerOk(s, p);
      } else if q == p {
        MoverOk(s, p);
      } else if s.procs[p].pc.UpWake? {
        WakeOk(s, p, q);
      } else {
        OtherOk(s, p, q);
      }
    }
  }

  lemma AdvanceCounts(s: Sys, p: nat)
    requires p < |s.procs| && Advance(s, p).Some? && ProcOk(s, p)
    requires 0 <= s.value <= s.init && (s.lk.Some? ==> s.lk.value < |s.procs|)
    ensures var s' := Advance(s, p).value;
            && s'.init == s.init && |s'.procs| == |s.procs| && 0 <= s'.value <= s'.init
            && (s'.lk.Some? ==> s'.lk.value < |s'.procs|)
  {
  }

  /** Every step of every process keeps the invariant. */
  lemma StepKeeps(s: Sys, step: Step)
    requires Inv(s) && Do(s, step).Some?
    ensures Inv(Do(s, step).value) && Do(s, step).value.init == s.init && |Do(s, step).value.procs| == |s.procs|
  {
    if step.Go? {
      AdvanceKeeps(s, step.p);
    } else {
      hide Advance;
      var s' := Do(s, step).value;
      assert ProcOk(s, step.p);
      forall q: nat | q < |s'.procs| ensures ProcOk(s', q) {
        assert ProcOk(s, q);
      }
    }
  }

  lemma {:induction false} RunKeeps(s: Sys, steps: seq<Step>, s': Sys)
    requires Inv(s) && Run(s, steps, s')
    ensures Inv(s') && s'.init == s.init && |s'.procs| == |s.procs|
    decreases |steps|
  {
    if steps != [] {
      StepKeeps(s, steps[0]);
      RunKeeps(Do(s, steps[0]).value, steps[1..], s');
    }
  }

  /** No wakeup is lost, in any interleaving: whenever the lock is free and the value positive,
      nobody sleeps on the semaphore or is about to. */
  lemma NoLostWakeup(n: nat, v: int, steps: seq<Step>, s: Sys, p: nat)
    requires v >= 0 && Run(Opened(n, v), steps, s) && s.lk == None && s.value > 0 && p < |s.procs|
    ensures !Committed(s.procs[p])
  {
    OpenedInv(n, v);
    RunKeeps(Opened(n, v), steps, s);
    assert ProcOk(s, p);
  }

  // ----- what the calls return -----

  /** The step with which a process returns from a call: it leaves the place pc. */
  predicate Leaves(s: Sys, step: Step, pc: Pc) {
    step.Go? && step.p < |s.procs| && s.procs[step.p].pc == pc
  }

  /** How many calls have returned from the place pc in a run. */
  function Returned(s: Sys, steps: seq<Step>, pc: Pc): nat
    decreases |steps|
  {
    if steps == [] || Do(s, steps[0]).None? then 0
    else (if Leaves(s, steps[0], pc) then 1 else 0) + Returned(Do(s, steps[0]).value, steps[1..], pc)
  }

  /** How far a call is that has yet to return: about to raise the value, or past raising or lowering it. */
  datatype Stage = Raising | Raised | Lowered

  predicate IsIn(pc: Pc, stage: Stage) {
    match stage
    case Raising => pc.UpAcquire? || pc.UpTest?
    case Raised => pc.UpWake? || pc == UpRelease(0)
    case Lowered => pc.DownRelease?
  }

  function One(pc: Pc, stage: Stage): nat {
    if IsIn(pc, stage) then 1 else 0
  }

  function Count(procs: seq<Proc>, stage: Stage): nat {
    if procs == [] then 0 else Count(procs[..|procs| - 1], stage) + One(procs[|procs| - 1].pc, stage)
  }

  lemma {:induction false} CountUpdate(procs: seq<Proc>, p: nat, proc: Proc, stage: Stage)
    requires p < |procs|
    ensures Count(procs[p := proc], stage) == Count(procs, stage) - One(procs[p].pc, stage) + One(proc.pc, stage)
    decreases |procs|
  {
    var n := |procs| - 1;
    if p < n {
      CountUpdate(procs[..n], p, proc, stage);
      assert procs[p := proc][..n] == procs[..n][p := proc];
    } else {
      assert procs[p := proc][..n] == procs[..n];
    }
  }

  lemma {:induction false} CountHas(procs: seq<Proc>, p: nat, stage: Stage)
    requires p < |procs|
    ensures Count(procs, stage) >= One(procs[p].pc, stage)
    decreases |procs|
  {
    if p < |procs| - 1 {
      CountHas(procs[..|procs| - 1], p, stage);
    }
  }

  lemma {:induction false} NoneIn(procs: seq<Proc>, stage: Stage)
    requires forall p: nat :: p < |procs| ==> procs[p].pc.Idle?
    ensures Count(procs, stage) == 0
    decreases |procs|
  {
    if procs != [] {
      NoneIn(procs[..|procs| - 1], stage);
    }
  }

  /** A look of wakeup at another process than the one that looks. */
  predicate Looks(s: Sys, step: Step) {
    && step.Go? && step.p < |s.procs| && s.procs[step.p].pc.UpWake?
    && s.procs[step.p].pc.next < |s.procs| && s.procs[step.p].pc.next != step.p
  }

  lemma LookMoves(s: Sys, step: Step)
    requires Do(s, step).Some? && Looks(s, step)
    ensures var s', p, q := Do(s, step).value, step.p, s.procs[step.p].pc.next;
            && |s'.procs| == |s.procs| && s'.procs == s.procs[q := s'.procs[q]][p := s'.procs[p]]
            && s'.procs[q].pc == s.procs[q].pc && s'.procs[p].pc == UpWake(q + 1) && s'.value == s.value
  {
  }

  lemma OneMoves(s: Sys, step: Step)
    requires Do(s, step).Some? && !Looks(s, step)
    ensures var s', p := Do(s, step).value, step.p;
            p < |s.procs| == |s'.procs| && s'.procs == s.procs[p := s'.procs[p]]
  {
  }

  /** A step counts the process that takes it anew, and no other. */
  lemma StepCounts(s: Sys, step: Step, stage: Stage)
    requires Do(s, step).Some?
    ensures step.p < |s.procs| == |Do(s, step).value.procs|
    ensures var s' := Do(s, step).value;
            Count(s'.procs, stage) ==
            Count(s.procs, stage) - One(s.procs[step.p].pc, stage) + One(s'.procs[step.p].pc, stage)
  {
    hide Do, Count, One;
    var p, s' := step.p, Do(s, step).value;
    if Looks(s, step) {
      LookMoves(s, step);
      var q := s.procs[p].pc.next;
      CountUpdate(s.procs, q, s'.procs[q], stage);
      CountUpdate(s.procs[q := s'.procs[q]], p, s'.procs[p], stage);
    } else {
      OneMoves(s, step);
      CountUpdate(s.procs, p, s'.procs[p], stage);
    }
  }

  /** The value, with the calls under way that have changed it undone. */
  function Settled(s: Sys): int {
    s.value + Count(s.procs, Lowered) - Count(s.procs, Raised)
  }

  lemma StepSettles(s: Sys, step: Step)
    requires Inv(s) && Do(s, step).Some?
    ensures Settled(Do(s, step).value) ==
            Settled(s) - (if Leaves(s, step, DownRelease) then 1 else 0)
                       + (if Leaves(s, step, UpRelease(0)) then 1 else 0)
  {
    hide Count, Inv;
    StepCounts(s, step, Lowered);
    StepCounts(s, step, Raised);
  }

  lemma {:induction false} RunSettles(s: Sys, steps: seq<Step>, s': Sys)
    requires Inv(s) && Run(s, steps, s')
    ensures Settled(s') == Settled(s) - Returned(s, steps, DownRelease) + Returned(s, steps, UpRelease(0))
    decreases |steps|
  {
    hide Inv, Do, Settled;
    if steps != [] {
      StepKeeps(s, steps[0]);
      StepSettles(s, steps[0]);
      RunSettles(Do(s, steps[0]).value, steps[1..], s');
    }
  }

  /** In every interleaving the value is where it started, less the sem_down calls that have returned or
      are past taking one, plus the sem_up calls that have returned 0 or are past giving one; and it
      stays between 0 and where it started. */
  lemma ValueCounts(n: nat, v: int, steps: seq<Step>, s: Sys)
    requires v >= 0 && Run(Opened(n, v), steps, s)
    ensures 0 <= s.value <= s.init == v
    ensures s.value == v - Returned(Opened(n, v), steps, DownRelease) - Count(s.procs, Lowered)
                         + Returned(Opened(n, v), steps, UpRelease(0)) + Count(s.procs, Raised)
  {
    hide Inv, Run, Returned;
    OpenedInv(n, v);
    RunKeeps(Opened(n, v), steps, s);
    InvValue(s);
    NoneIn(Opened(n, v).procs, Lowered);
    NoneIn(Opened(n, v).procs, Raised);
    RunSettles(Opened(n, v), steps, s);
  }

  lemma InvValue(s: Sys)
    requires Inv(s)
    ensures 0 <= s.value <= s.init
  {
  }

  /** sem_up fails exactly if it finds the value where it started; otherwise, when it comes to release the
      lock, the value is positive and nobody is asleep on the semaphore or about to be. */
  lemma UpReturns(n: nat, v: int, steps: seq<Step>, s: Sys, p: nat)
    requires v >= 0 && Run(Opened(n, v), steps, s) && p < |s.procs|
    ensures s.procs[p].pc.UpTest? ==> Advance(s, p).Some?
    ensures s.procs[p].pc.UpTest? ==> (Advance(s, p).value.procs[p].pc == UpRelease(-1) <==> s.value == v)
    ensures s.procs[p].pc.UpRelease? ==> s.procs[p].pc.result == 0 || s.procs[p].pc.result == -1
    ensures s.procs[p].pc == UpRelease(-1) ==> s.value == v
    ensures s.procs[p].pc == UpRelease(0) ==>
              s.value > 0 && forall q: nat :: q < |s.procs| ==> !Committed(s.procs[q])
  {
    OpenedInv(n, v);
    RunKeeps(Opened(n, v), steps, s);
    assert ProcOk(s, p);
    if s.procs[p].pc == UpRelease(0) {
      forall q: nat | q < |s.procs| ensures !Committed(s.procs[q]) {
        assert ProcOk(s, q);
      }
    }
  }

  /** The holder of the lock can take a step, or the one whose own lock it waits for can. */
  lemma HolderMoves(s: Sys, p: nat)
    requires Inv(s) && s.lk == Some(p) && p < |s.procs|
    ensures exists q: nat :: q < |s.procs| && Advance(s, q).Some?
  {
    assert ProcOk(s, p);
    if Advance(s, p).None? {
      assert s.procs[p].pc.UpWake? && s.procs[p].pc.next < |s.procs|;
      assert ProcOk(s, s.procs[p].pc.next);
      assert Advance(s, s.procs[p].pc.next).Some?;
    }
  }

  /** A run cannot get stuck: some process can take a step, unless each is outside the calls or asleep, and
      then nobody sleeps while the value is positive. */
  lemma NotStuck(n: nat, v: int, steps: seq<Step>, s: Sys)
    requires v >= 0 && Run(Opened(n, v), steps, s)
    requires forall p: nat :: p < |s.procs| ==> Advance(s, p).None?
    ensures s.lk == None
    ensures forall p: nat :: p < |s.procs| ==> s.procs[p].pc.Idle? || (Committed(s.procs[p]) && s.value == 0)
  {
    OpenedInv(n, v);
    RunKeeps(Opened(n, v), steps, s);
    if s.lk.Some? {
      HolderMoves(s, s.lk.value);
      assert false;
    }
    forall p: nat | p < |s.procs| ensures s.procs[p].pc.Idle? || (Committed(s.procs[p]) && s.value == 0) {
      assert ProcOk(s, p) && Advance(s, p).None?;
    }
  }

  // ----- processes that call sem_up after sem_down -----

  /** The processes that have returned from sem_down and not called sem_up since. */
  function Entered(s: Sys, step: Step, inside: set<nat>): set<nat> {
    if Leaves(s, step, DownRelease) then inside + {step.p}
    else if step.StartUp? then inside - {step.p}
    else inside
  }

  ghost function Inside(s: Sys, steps: seq<Step>, inside: set<nat>): set<nat>
    decreases |steps|
  {
    if steps == [] || Do(s, steps[0]).None? then inside
    else Inside(Do(s, steps[0]).value, steps[1..], Entered(s, steps[0], inside))
  }

  /** Each process calls the two in turn, sem_down first. */
  predicate InTurn(step: Step, inside: set<nat>) {
    (step.StartUp? ==> step.p in inside) && (step.StartDown? ==> step.p !in inside)
  }

  ghost predicate AllInTurn(s: Sys, steps: seq<Step>, inside: set<nat>)
    decreases |steps|
  {
    steps == [] || Do(s, steps[0]).None?
    || (InTurn(steps[0], inside)
        && AllInTurn(Do(s, steps[0]).value, steps[1..], Entered(s, steps[0], inside)))
  }

  /** Of what the semaphore had at the start, each unit is in it or with one process. */
  ghost predicate Shared(s: Sys, inside: set<nat>) {
    && Inv(s) && s.value + |inside| + Count(s.procs, Lowered) + Count(s.procs, Raising) == s.init
    && (forall p :: p in inside ==> p < |s.procs| && s.procs[p].pc.Idle?)
    && (forall p: nat :: p < |s.procs| ==> s.procs[p].pc != UpRelease(-1))
  }

  /** The process that takes the step: what it hands on. */
  lemma MoverGives(s: Sys, step: Step)
    requires Do(s, step).Some? && step.p < |s.procs| == |Do(s, step).value.procs|
    requires s.procs[step.p].pc.UpTest? ==> s.value != s.init
    ensures var s', pc, pc' := Do(s, step).value, s.procs[step.p].pc, Do(s, step).value.procs[step.p].pc;
            && s'.value + One(pc', Lowered) + One(pc', Raising)
                        + (if pc.DownRelease? && step.Go? then 1 else if step.StartUp? then -1 else 0)
               == s.value + One(pc, Lowered) + One(pc, Raising)
            && (pc.Idle? && !pc'.Idle? ==> step.StartUp? || step.StartDown?)
            && (pc.DownRelease? && step.Go? ==> pc'.Idle?)
            && (pc' == UpRelease(-1) ==> pc == UpRelease(-1))
  {
    hide Advance;
    if step.Go? && Looks(s, step) {
      LookMoves(s, step);
    } else if step.Go? {
      AdvanceGives(s, step.p);
    }
  }

  lemma AdvanceGives(s: Sys, p: nat)
    requires p < |s.procs| && Advance(s, p).Some? && p < |Advance(s, p).value.procs| && !Looks(s, Go(p))
    requires s.procs[p].pc.UpTest? ==> s.value != s.init
    ensures var s', pc, pc' := Advance(s, p).value, s.procs[p].pc, Advance(s, p).value.procs[p].pc;
            && s'.value + One(pc', Lowered) + One(pc', Raising) + (if pc.DownRelease? then 1 else 0)
               == s.value + One(pc, Lowered) + One(pc, Raising)
            && !pc.Idle? && (pc.DownRelease? ==> pc'.Idle?) && pc' != UpRelease(-1)
  {
    hide Wake;
  }

  lemma MoverShares(s: Sys, step: Step, inside: set<nat>)
    requires Do(s, step).Some? && InTurn(step, inside) && step.p < |s.procs| == |Do(s, step).value.procs|
    requires step.p in inside ==> s.procs[step.p].pc.Idle?
    requires s.procs[step.p].pc.UpTest? ==> s.value != s.init
    ensures var s', pc, pc' := Do(s, step).value, s.procs[step.p].pc, Do(s, step).value.procs[step.p].pc;
            && s'.value + |Entered(s, step, inside)| + One(pc', Lowered) + One(pc', Raising)
               == s.value + |inside| + One(pc, Lowered) + One(pc, Raising)
            && (step.p in Entered(s, step, inside) ==> pc'.Idle?)
            && (pc' == UpRelease(-1) ==> pc == UpRelease(-1))
  {
    hide Do, Advance, One;
    MoverGives(s, step);
    var pc := s.procs[step.p].pc;
    assert step.StartUp? ==> |inside - {step.p}| == |inside| - 1;
    assert pc.DownRelease? ==> step.p !in inside && |inside + {step.p}| == |inside| + 1;
  }

  /** The others stay where they are. */
  lemma OthersStay(s: Sys, step: Step, q: nat)
    requires Do(s, step).Some? && q < |s.procs| && q != step.p
    ensures q < |Do(s, step).value.procs| && Do(s, step).value.procs[q].pc == s.procs[q].pc
  {
    hide Do;
    if Looks(s, step) {
      LookMoves(s, step);
    } else {
      OneMoves(s, step);
    }
  }

  lemma StepShares(s: Sys, step: Step, inside: set<nat>)
    requires Shared(s, inside) && Do(s, step).Some? && InTurn(step, inside)
    ensures Shared(Do(s, step).value, Entered(s, step, inside))
  {
    hide Count, Inv, Do, Advance, One;
    var s' := Do(s, step).value;
    StepKeeps(s, step);
    StepCounts(s, step, Lowered);
    StepCounts(s, step, Raising);
    CountHas(s.procs, step.p, Raising);
    OneIs(s.procs[step.p].pc);
    MoverShares(s, step, inside);
    forall q: nat | q < |s.procs| && q != step.p ensures s'.procs[q].pc == s.procs[q].pc {
      OthersStay(s, step, q);
    }
  }

  lemma OneIs(pc: Pc)
    ensures pc.UpTest? ==> One(pc, Raising) == 1
  {
  }

  lemma {:induction false} RunShares(s: Sys, steps: seq<Step>, s': Sys, inside: set<nat>)
    requires Shared(s, inside) && Run(s, steps, s') && AllInTurn(s, steps, inside)
    ensures Shared(s', Inside(s, steps, inside)) && s'.init == s.init
    decreases |steps|
  {
    hide Shared, Do, Entered;
    if steps != [] {
      StepShares(s, steps[0], inside);
      InitStays(s, steps[0], inside);
      RunShares(Do(s, steps[0]).value, steps[1..], s', Entered(s, steps[0], inside));
    }
  }

  lemma InitStays(s: Sys, step: Step, inside: set<nat>)
    requires Shared(s, inside) && Do(s, step).Some?
    ensures Do(s, step).value.init == s.init
  {
    hide Do, Inv;
    StepKeeps(s, step);
  }

  /** Where every process calls sem_down and sem_up in turn, no more of them than the semaphore was opened
      with are between the two, and no sem_up fails. */
  lemma NoMoreThanOpened(n: nat, v: int, steps: seq<Step>, s: Sys)
    requires v >= 0 && Run(Opened(n, v), steps, s) && AllInTurn(Opened(n, v), steps, {})
    ensures |Inside(Opened(n, v), steps, {})| <= v
    ensures forall p: nat :: p < |s.procs| ==> s.procs[p].pc != UpRelease(-1)
  {
    hide Run, Inside, AllInTurn, Inv;
    OpenedInv(n, v);
    NoneIn(Opened(n, v).procs, Lowered);
    NoneIn(Opened(n, v).procs, Raising);
    RunShares(Opened(n, v), steps, s, {});
    InvValue(s);
  }

  /** At most one process is between acquire and release. */
  lemma MutualExclusion(n: nat, v: int, steps: seq<Step>, s: Sys, p: nat, q: nat)
    requires v >= 0 && Run(Opened(n, v), steps, s) && p < |s.procs| && q < |s.procs|
    requires HoldsSem(s.procs[p].pc) && HoldsSem(s.procs[q].pc)
    ensures p == q
  {
    OpenedInv(n, v);
    RunKeeps(Opened(n, v), steps, s);
    assert ProcOk(s, p) && ProcOk(s, q);
  }

  /** sem_open on a semaphore already in use, while its lock is free. */
  function Reopened(s: Sys, v: int): Sys {
    s.(value := v, init := v)
  }

  /** It starts afresh exactly if the value is nonnegative and, unless it is 0, nobody is asleep on
      the semaphore: sem_open wakes nobody. */
  lemma ReopenedIff(s: Sys, v: int)
    requires Inv(s) && s.lk == None
    ensures Inv(Reopened(s, v)) <==> v >= 0 && (v == 0 || forall p: nat :: p < |s.procs| ==> !Committed(s.procs[p]))
  {
    var s' := Reopened(s, v);
    if v >= 0 && (v == 0 || forall p: nat :: p < |s.procs| ==> !Committed(s.procs[p])) {
      forall p: nat | p < |s.procs| ensures ProcOk(s', p) {
        assert ProcOk(s, p);
      }
    }
    if Inv(s') {
      forall p: nat | p < |s.procs| ensures v == 0 || !Committed(s.procs[p]) {
        assert ProcOk(s', p);
      }
    }
  }

  /** One process, at place pc, and a semaphore of value 0. */
  function Alone(pc: Pc, lk: Option<nat>): Sys {
    Sys(lk, 0, 0, [Proc(pc, false, false)])
  }

  lemma AloneMoves(pc: Pc, lk: Option<nat>, pc': Pc)
    ensures At(Alone(pc, lk), 0, Proc(pc', false, false)) == Alone(pc', lk)
  {
    assert [Proc(pc, false, false)][0 := Proc(pc', false, false)] == [Proc(pc', false, false)];
  }

  /** Such a state is reached by one process that waits on a semaphore of value 0: sem_open with a
      positive value then leaves it asleep. */
  lemma SleeperReached(v: int) returns (steps: seq<Step>)
    requires v > 0
    ensures Run(Opened(1, 0), steps, Alone(SleepChan, None)) && Committed(Alone(SleepChan, None).procs[0])
    ensures !Inv(Reopened(Alone(SleepChan, None), v))
  {
    steps := [];
    AloneMoves(SleepRelease, Some(0), SleepChan);
    steps := RunFirst(Alone(SleepRelease, Some(0)), Go(0), Alone(SleepChan, None), steps);
    AloneMoves(SleepLock, Some(0), SleepRelease);
    steps := RunFirst(Alone(SleepLock, Some(0)), Go(0), Alone(SleepRelease, Some(0)), steps);
    AloneMoves(WaitTest, Some(0), SleepLock);
    steps := RunFirst(Alone(WaitTest, Some(0)), Go(0), Alone(SleepLock, Some(0)), steps);
    AloneMoves(DownTest, Some(0), WaitTest);
    steps := RunFirst(Alone(DownTest, Some(0)), Go(0), Alone(WaitTest, Some(0)), steps);
    AloneMoves(DownAcquire, None, DownTest);
    steps := RunFirst(Alone(DownAcquire, None), Go(0), Alone(DownTest, Some(0)), steps);
    AloneMoves(Idle, None, DownAcquire);
    steps := RunFirst(Alone(Idle, None), StartDown(0), Alone(DownAcquire, None), steps);
    NotAfresh(steps, v);
  }

  lemma NotAfresh(steps: seq<Step>, v: int)
    requires Run(Alone(Idle, None), steps, Alone(SleepChan, None)) && v > 0
    ensures Opened(1, 0) == Alone(Idle, None) && Committed(Alone(SleepChan, None).procs[0])
    ensures !Inv(Reopened(Alone(SleepChan, None), v))
  {
    hide Run, Inv;
    assert Opened(1, 0).procs == Alone(Idle, None).procs;
    OpenedInv(1, 0);
    RunKeeps(Opened(1, 0), steps, Alone(SleepChan, None));
    assert Committed(Alone(SleepChan, None).procs[0]);
    ReopenedIff(Alone(SleepChan, None), v);
  }

  lemma RunFirst(s: Sys, step: Step, m: Sys, rest: seq<Step>) returns (steps: seq<Step>)
    requires Do(s, step) == Some(m) && Run(m, rest, Alone(SleepChan, None))
    ensures Run(s, steps, Alone(SleepChan, None))
  {
    steps := [step] + rest;
    assert steps[1..] == rest;
  }
}
