/** The multi-level feedback scheduler of LAB3's kernel/proc.c on one CPU. The scheduler never
    returns, so its nested loops are cut into turns: one process looked at, or the end of one pass
    over the process table. */
module Scheduler {
  const NPRIO: nat := 3
  const NPROC: nat := 64

  datatype RunState = UNUSED | USED | SLEEPING | RUNNABLE | RUNNING | ZOMBIE

  datatype Proc = Proc(state: RunState, priority: nat, chosen: nat)

  /** The process table and the loop variables: level i, next process idx. */
  datatype Sched = Sched(procs: seq<Proc>, i: nat, idx: nat)

  /** What the rest of the system does during one turn: how the process that was run comes back,
      what has become of the others, and whether the clock stands at a boost. */
  datatype Input = Input(back: RunState, procs: seq<Proc>, boost: bool)

  /** The rule after a process gives up the CPU. */
  function Adjusted(priority: nat, state: RunState): nat {
    if priority > 0 && state == SLEEPING then priority - 1
    else if priority < NPRIO - 1 then priority + 1
    else priority
  }

  /** Going to sleep raises a process by one level except at the top, where it lowers it; coming back in any
      other way lowers it by one level except at the bottom, where it stays. */
  lemma SleepersRise(priority: nat, state: RunState)
    requires priority < NPRIO
    ensures Adjusted(priority, state) < priority <==> state == SLEEPING && priority > 0
    ensures state == SLEEPING && priority > 0 ==> Adjusted(priority, state) == priority - 1
    ensures state != SLEEPING && priority < NPRIO - 1 ==> Adjusted(priority, state) == priority + 1
    ensures state != SLEEPING && priority == NPRIO - 1 ==> Adjusted(priority, state) == priority
    ensures Adjusted(0, state) == 1 && Adjusted(priority, state) < NPRIO
  {
  }

  /** While it is not running, a runnable process is left alone; any other can be woken, created or
      freed, which resets its priority. */
  predicate MayBecome(p: Proc, p': Proc) {
    p' == p
    || (p.state != RUNNABLE && p.state != RUNNING && p'.state != RUNNING
        && (p'.priority == p.priority || p'.priority == 0))
  }

  ghost predicate InputOk(s: Sched, input: Input, ran: int) {
    && |input.procs| == |s.procs| && input.back != RUNNING
    && forall k: nat :: k < |s.procs| && k != ran ==> MayBecome(s.procs[k], input.procs[k])
  }

  predicate Picks(s: Sched) {
    s.idx < |s.procs| && s.procs[s.idx].state == RUNNABLE && s.procs[s.idx].priority == s.i
  }

  /** The table entry of a process once it is back from the CPU. */
  function Back(p: Proc, back: RunState): Proc {
    Proc(back, Adjusted(p.priority, back), p.chosen + 1)
  }

  function Boosted(procs: seq<Proc>): seq<Proc> {
    seq(|procs|, k requires 0 <= k < |procs| => procs[k].(priority := 0))
  }

  function Turn(s: Sched, input: Input): Sched
    requires |input.procs| == |s.procs|
  {
    if Picks(s) then Sched(input.procs[s.idx := Back(s.procs[s.idx], input.back)], s.i, s.idx + 1)
    else if s.idx < |s.procs| then Sched(input.procs, s.i, s.idx + 1)
    else Sched(if input.boost then Boosted(input.procs) else input.procs, if s.i + 1 < NPRIO then s.i + 1 else 0, 0)
  }

  ghost predicate Inv(s: Sched) {
    && |s.procs| == NPROC && s.i < NPRIO && s.idx <= NPROC
    && forall k: nat :: k < NPROC ==> s.procs[k].priority < NPRIO && s.procs[k].state != RUNNING
  }

  /** The process run in this turn, -1 if none. */
  function Ran(s: Sched): int {
    if Picks(s) then s.idx else -1
  }

  lemma TurnKeeps(s: Sched, input: Input)
    requires Inv(s) && InputOk(s, input, Ran(s))
    ensures Inv(Turn(s, input))
  {
    forall k: nat | k < NPROC
      ensures Turn(s, input).procs[k].priority < NPRIO && Turn(s, input).procs[k].state != RUNNING
    {
      assert k != Ran(s) ==> MayBecome(s.procs[k], input.procs[k]);
    }
  }

  /** A turn runs the process looked at exactly if it is runnable and at the level of the pass, and that
      process comes back one level higher or lower, with one dispatch more; of the others, and without a run,
      the turn leaves what became of them meanwhile. Every NPRIO passes the levels start again, and a pass
      that ends at a boost puts every process at the top. */
  lemma TurnIs(s: Sched, input: Input)
    requires Inv(s) && InputOk(s, input, Ran(s))
    ensures s.idx < NPROC ==>
              (Ran(s) == s.idx <==> s.procs[s.idx].state == RUNNABLE && s.procs[s.idx].priority == s.i)
    ensures Ran(s) != -1 ==>
              var p, p' := s.procs[Ran(s)], Turn(s, input).procs[Ran(s)];
              && p'.state == input.back && p'.chosen == p.chosen + 1
              && p'.priority == (if input.back == SLEEPING && p.priority > 0 then p.priority - 1
                                 else if p.priority < NPRIO - 1 then p.priority + 1 else p.priority)
    ensures forall k: nat :: k < NPROC && k != Ran(s) ==>
              Turn(s, input).procs[k] ==
              if s.idx == NPROC && input.boost then input.procs[k].(priority := 0) else input.procs[k]
    ensures s.idx < NPROC ==> Turn(s, input).i == s.i && Turn(s, input).idx == s.idx + 1
    ensures s.idx == NPROC ==> Turn(s, input).i == (s.i + 1) % NPRIO && Turn(s, input).idx == 0
  {
  }

  // ----- bounded waiting -----

  /** The processes still to be looked at before process k, of priority r, has its turn at the
      latest, when a full pass takes n: on this round if the scan has yet to come to it or to a
      higher level, else on the next, where a boost can only bring it nearer. */
  function Ahead(n: nat, i: nat, idx: nat, k: nat, r: nat): int {
    if r == i && idx <= k then k - idx
    else (NPRIO - i) * n - idx + (if r > i || r == 0 then k else NPRIO * n + k)
  }

  function Wait(s: Sched, k: nat): int
    requires k < |s.procs|
  {
    Ahead(NPROC, s.i, s.idx, k, s.procs[k].priority)
  }

  /** The same count with the ends of passes as turns of their own. */
  function TurnsAhead(s: Sched, k: nat): int
    requires k < |s.procs|
  {
    Ahead(NPROC + 1, s.i, s.idx, k, s.procs[k].priority)
  }

  lemma WaitBounds(s: Sched, k: nat)
    requires Inv(s) && k < NPROC
    ensures 0 <= Wait(s, k) < (2 * NPRIO + 1) * NPROC
    ensures 0 <= TurnsAhead(s, k) < (2 * NPRIO + 1) * (NPROC + 1)
  {
  }

  /** Each look at a process brings a waiting one nearer; the end of a pass takes nothing back. */
  lemma TurnBringsNearer(s: Sched, input: Input, k: nat)
    requires Inv(s) && InputOk(s, input, Ran(s)) && k < NPROC && s.procs[k].state == RUNNABLE && Ran(s) != k
    ensures var s' := Turn(s, input);
            && s'.procs[k].state == RUNNABLE
            && Wait(s', k) <= Wait(s, k) - (if s.idx < NPROC then 1 else 0)
            && TurnsAhead(s', k) < TurnsAhead(s, k)
  {
    assert MayBecome(s.procs[k], input.procs[k]);
    assert s.procs[k].priority < NPRIO;
  }

  /** A run of turns in which process k is not dispatched; others counts the dispatches. */
  ghost predicate Waits(s: Sched, inputs: seq<Input>, k: nat, others: nat)
    decreases |inputs|
  {
    if inputs == [] then others == 0
    else
      InputOk(s, inputs[0], Ran(s)) && Ran(s) != k
      && (if Ran(s) == -1 then Waits(Turn(s, inputs[0]), inputs[1..], k, others)
          else others > 0 && Waits(Turn(s, inputs[0]), inputs[1..], k, others - 1))
  }

  lemma {:induction false} WaitsBounded(s: Sched, inputs: seq<Input>, k: nat, others: nat)
    requires Inv(s) && k < NPROC && s.procs[k].state == RUNNABLE && Waits(s, inputs, k, others)
    ensures others <= Wait(s, k) && |inputs| <= TurnsAhead(s, k)
    decreases |inputs|
  {
    WaitBounds(s, k);
    if inputs != [] {
      TurnBringsNearer(s, inputs[0], k);
      TurnKeeps(s, inputs[0]);
      WaitsBounded(Turn(s, inputs[0]), inputs[1..], k, if Ran(s) == -1 then others else others - 1);
    }
  }

  /** Whatever the boosts and whatever the other processes do, a runnable process is dispatched
      after fewer than (2*NPRIO+1)*NPROC other dispatches, and within that many turns per process
      and pass end. */
  lemma BoundedWaiting(s: Sched, inputs: seq<Input>, k: nat, others: nat)
    requires Inv(s) && k < NPROC && s.procs[k].state == RUNNABLE && Waits(s, inputs, k, others)
    ensures others < (2 * NPRIO + 1) * NPROC && |inputs| < (2 * NPRIO + 1) * (NPROC + 1)
  {
    WaitsBounded(s, inputs, k, others);
    WaitBounds(s, k);
  }

  /** The scheduler's own state: the table is changed in place. */
  class Cpu {
    const procs: array<Proc>
    var i: nat
    var idx: nat

    ghost function State(): Sched
      reads this, procs
    {
      Sched(procs[..], i, idx)
    }

    constructor (procs: array<Proc>)
      requires procs.Length == NPROC
      requires forall k: nat :: k < NPROC ==> procs[k].priority < NPRIO && procs[k].state != RUNNING
      ensures this.procs == procs && State() == Sched(procs[..], 0, 0) && Inv(State())
    {
      this.procs, i, idx := procs, 0, 0;
    }

    /** What the rest of the system has written into the table. */
    method Others(input: Input, ran: int)
      requires |input.procs| == procs.Length
      modifies procs
      ensures procs[..] == if 0 <= ran < procs.Length then input.procs[ran := old(procs[ran])] else input.procs
    {
      for k := 0 to procs.Length
        invariant forall j: nat :: j < procs.Length ==>
                    procs[j] == if j < k && j != ran then input.procs[j] else old(procs[j])
      {
        if k != ran {
          procs[k] := input.procs[k];
        }
      }
    }

    /** The boost: every process back to the highest level. */
    method Boost()
      modifies procs
      ensures procs[..] == Boosted(old(procs[..]))
    {
      for k := 0 to procs.Length
        invariant forall j: nat :: j < procs.Length ==>
                    procs[j] == if j < k then old(procs[j]).(priority := 0) else old(procs[j])
      {
        procs[k] := procs[k].(priority := 0);
      }
    }

    /** One turn of the loops of scheduler(). */
    method Step(input: Input)
      requires Inv(State()) && InputOk(State(), input, Ran(State()))
      modifies this, procs
      ensures State() == Turn(old(State()), input) && Inv(State())
    {
      ghost var s := State();
      TurnKeeps(s, input);
      if idx < NPROC {
        if procs[idx].state == RUNNABLE && procs[idx].priority == i {
          procs[idx] := procs[idx].(chosen := procs[idx].chosen + 1);
          procs[idx] := procs[idx].(state := RUNNING);
          Others(input, idx);                          // swtch to the process and back
          procs[idx] := procs[idx].(state := input.back);
          if procs[idx].priority > 0 && procs[idx].state == SLEEPING {
            procs[idx] := procs[idx].(priority := procs[idx].priority - 1);
          } else if procs[idx].priority < NPRIO - 1 {
            procs[idx] := procs[idx].(priority := procs[idx].priority + 1);
          }
        } else {
          Others(input, -1);
        }
        idx := idx + 1;
      } else {
        Others(input, -1);
        i := i + 1;
        if input.boost {
          Boost();
        }
        if i >= NPRIO {
          i := 0;
        }
        idx := 0;
      }
    }
  }
}
