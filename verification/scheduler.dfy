/** The priority scheduler: strict priority, first-in first-out among equals. */
module Scheduler {
  import opened PriList

  /** TaskReady once the preempted task has been put back, if it is. */
  function AfterSwitch(pri: nat -> int, ready: seq<nat>, running: nat, requeue: bool): seq<nat>
  {
    if requeue then Enq(pri, ready, running) else ready
  }

  datatype Cpu = Cpu(running: nat, ready: seq<nat>)

  /** What reaches the scheduler: a tick (whether the preempted task goes back on the list), or a
      task becoming ready. */
  datatype Event = Tick(requeue: bool) | Wake(task: nat)

  function Next(pri: nat -> int, c: Cpu, e: Event): Cpu
  {
    match e
    case Wake(t) => c.(ready := Enq(pri, c.ready, t))
    case Tick(requeue) =>
      if c.ready == [] then c else
      var q := AfterSwitch(pri, c.ready, c.running, requeue);
      assert q != [];
      Cpu(q[0], q[1..])
  }

  function Run(pri: nat -> int, c: Cpu, es: seq<Event>): Cpu
    decreases |es|
  {
    if es == [] then c else Run(pri, Next(pri, c, es[0]), es[1..])
  }

  function Ticks(es: seq<Event>): nat
  {
    if es == [] then 0 else (if es[0].Tick? then 1 else 0) + Ticks(es[1..])
  }

  lemma NextSorted(pri: nat -> int, c: Cpu, e: Event)
    requires Sorted(pri, c.ready)
    ensures Sorted(pri, Next(pri, c, e).ready)
  {
    match e
    case Wake(t) => EnqueueKeepsOrder(pri, c.ready, t);
    case Tick(requeue) => EnqueueKeepsOrder(pri, c.ready, c.running);
  }

  /** A tick that switches dispatches a task of maximal priority among the ready tasks and the
      one just preempted. */
  lemma DispatchesMaximal(pri: nat -> int, c: Cpu, requeue: bool)
    requires Sorted(pri, c.ready) && c.ready != []
    ensures var c' := Next(pri, c, Tick(requeue));
            && (forall t | t in c.ready :: pri(t) <= pri(c'.running))
            && (requeue ==> pri(c.running) <= pri(c'.running))
  {
    var q := AfterSwitch(pri, c.ready, c.running, requeue);
    EnqueueKeepsOrder(pri, c.ready, c.running);
    EnqMembers(pri, c.ready, c.running);
    HeadIsMaximal(pri, q);
  }

  lemma HeadIsMaximal(pri: nat -> int, q: seq<nat>)
    requires Sorted(pri, q)
    ensures forall t | t in q :: pri(t) <= pri(q[0])
  {
  }

  /** Scheduling neither loses nor invents a task: a tick that switches drops at most the one that
      blocked, one with nothing ready changes nothing, and a wake adds the task woken. */
  lemma TasksConserved(pri: nat -> int, c: Cpu, e: Event)
    ensures var c' := Next(pri, c, e);
            match e
            case Tick(requeue) =>
              if c.ready == [] then c' == c
              else multiset([c'.running] + c'.ready) ==
                   multiset(c.ready) + if requeue then multiset{c.running} else multiset{}
            case Wake(t) => c'.running == c.running && multiset(c'.ready) == multiset(c.ready) + multiset{t}
  {
    match e
    case Tick(requeue) =>
      EnqConserves(pri, c.ready, c.running);
      var q := AfterSwitch(pri, c.ready, c.running, requeue);
      if c.ready != [] { assert [q[0]] + q[1..] == q; }
    case Wake(t) => EnqConserves(pri, c.ready, t);
  }

  lemma {:induction false} EnqConserves(pri: nat -> int, q: seq<nat>, n: nat)
    ensures multiset(Enq(pri, q, n)) == multiset(q) + multiset{n}
  {
    if q != [] {
      assert q == [q[0]] + q[1..];
      EnqConserves(pri, q[1..], n);
    }
  }

  /** Nothing of strictly higher priority than x is put on the list. */
  ghost predicate Calm(pri: nat -> int, c: Cpu, es: seq<Event>, x: nat)
    decreases |es|
  {
    es != [] ==>
      && (es[0].Wake? ==> pri(es[0].task) <= pri(x))
      && (es[0] == Tick(true) ==> pri(c.running) <= pri(x))
      && Calm(pri, Next(pri, c, es[0]), es[1..], x)
  }

  /** x is dispatched by some tick among the events. */
  ghost predicate Dispatched(pri: nat -> int, c: Cpu, es: seq<Event>, x: nat)
    decreases |es|
  {
    es != [] && ((es[0].Tick? && Next(pri, c, es[0]).running == x) || Dispatched(pri, Next(pri, c, es[0]), es[1..], x))
  }

  /** A node of no higher priority goes behind x, whose place is unchanged. */
  lemma EnqueuedBehind(pri: nat -> int, q: seq<nat>, n: nat, k: nat)
    requires Sorted(pri, q) && k < |q| && pri(n) <= pri(q[k])
    ensures Enq(pri, q, n)[k] == q[k]
  {
    EnqAtSpot(pri, q, n);
    assert forall i | 0 <= i <= k :: pri(q[i]) >= pri(q[k]);
  }

  /** Bounded bypass: a ready task with k tasks ahead of it runs within k + 1 ticks, whatever
      blocks or becomes ready meanwhile, as long as nothing of strictly higher priority is
      enqueued. */
  lemma {:induction false} BoundedBypass(pri: nat -> int, c: Cpu, es: seq<Event>, x: nat, k: nat)
    requires Sorted(pri, c.ready) && k < |c.ready| && c.ready[k] == x
    requires Calm(pri, c, es, x) && Ticks(es) >= k + 1
    ensures Dispatched(pri, c, es, x)
    decreases |es|
  {
    var e, c' := es[0], Next(pri, c, es[0]);
    NextSorted(pri, c, e);
    match e
    case Wake(t) =>
      EnqueuedBehind(pri, c.ready, t, k);
      BoundedBypass(pri, c', es[1..], x, k);
    case Tick(requeue) =>
      if requeue { EnqueuedBehind(pri, c.ready, c.running, k); }
      if k > 0 { BoundedBypass(pri, c', es[1..], x, k - 1); }
  }

  /** Two tasks above the priority p are on the processor or ready. */
  ghost predicate Busy(pri: nat -> int, c: Cpu, p: int)
  {
    pri(c.running) > p && c.ready != [] && pri(c.ready[0]) > p
  }

  /** Nothing blocks: the preempted task goes back on the list at every tick. */
  predicate NoneBlocks(es: seq<Event>)
  {
    forall i | 0 <= i < |es| :: es[i] != Tick(false)
  }

  /** Strict priority over a whole run: while two tasks above p keep asking for the processor,
      nothing of priority p or lower ever has it, whatever becomes ready meanwhile. */
  lemma {:induction false} LowerPriorityStarves(pri: nat -> int, c: Cpu, es: seq<Event>, p: int)
    requires Sorted(pri, c.ready) && Busy(pri, c, p) && NoneBlocks(es)
    ensures Busy(pri, Run(pri, c, es), p)
    decreases |es|
  {
    if es != [] {
      NextSorted(pri, c, es[0]);
      StaysBusy(pri, c, es[0], p);
      LowerPriorityStarves(pri, Next(pri, c, es[0]), es[1..], p);
    }
  }

  lemma StaysBusy(pri: nat -> int, c: Cpu, e: Event, p: int)
    requires Sorted(pri, c.ready) && Busy(pri, c, p) && e != Tick(false)
    ensures Busy(pri, Next(pri, c, e), p)
  {
    var n := match e case Wake(t) => t case Tick(_) => c.running;
    assert Enq(pri, c.ready, n) == if pri(c.ready[0]) < pri(n) then [n] + c.ready
      else [c.ready[0]] + Enq(pri, c.ready[1..], n);
    if pri(c.ready[0]) >= pri(n) && c.ready[1..] != [] {
      assert Enq(pri, c.ready[1..], n)[0] == if pri(c.ready[1]) < pri(n) then n else c.ready[1];
    }
    assert e.Tick? && |c.ready| == 1 && pri(c.ready[0]) >= pri(n) ==> Next(pri, c, e).ready == [n];
    assert e.Tick? && |c.ready| > 1 && pri(c.ready[0]) >= pri(n) ==> pri(Next(pri, c, e).ready[0]) >= pri(n);
  }

  function Quanta(k: nat): seq<Event>
  {
    if k == 0 then [] else [Tick(true)] + Quanta(k - 1)
  }

  /** Two tasks of equal priority above all others take turns for ever, and the list behind them
      never moves. */
  lemma {:induction false} PairAlternates(pri: nat -> int, a: nat, b: nat, rest: seq<nat>, k: nat)
    requires pri(a) == pri(b) && forall i | 0 <= i < |rest| :: pri(rest[i]) < pri(a)
    ensures Run(pri, Cpu(a, [b] + rest), Quanta(k)) == if k % 2 == 0 then Cpu(a, [b] + rest) else Cpu(b, [a] + rest)
    decreases k
  {
    if k > 0 {
      assert ([b] + rest)[1..] == rest;
      assert Enq(pri, [b] + rest, a) == [b] + Enq(pri, rest, a) == [b] + ([a] + rest);
      assert AfterSwitch(pri, [b] + rest, a, true)[1..] == [a] + rest;
      assert Next(pri, Cpu(a, [b] + rest), Tick(true)) == Cpu(b, [a] + rest);
      assert Quanta(k)[1..] == Quanta(k - 1);
      PairAlternates(pri, b, a, rest, k - 1);
    }
  }
}

/** exec.c's scheduler code over ExecBase, updating the task states and TaskReady in place. */
module ExecScheduler {
  import opened PriList
  import S = Scheduler
  import opened Types

  const BOOT: nat := 0

  class ExecBase {
    const pri: nat -> int
    const spLower: nat -> int
    const spUpper: nat -> int
    const state: array<TState>
    const spReg: array<int>
    var thisTask: nat
    var taskReady: seq<nat>
    var dispCount: nat
    var idleCount: nat

    ghost predicate Valid()
      reads this, state
    {
      && state.Length == spReg.Length && thisTask < state.Length
      && Sorted(pri, taskReady) && NoDup(taskReady)
      && (forall t | t in taskReady :: BOOT < t < state.Length && state[t] == TS_READY)
      && (state[thisTask] == TS_RUN ==> thisTask !in taskReady)
    }

    constructor (pri: nat -> int, spLower: nat -> int, spUpper: nat -> int, tasks: nat)
      requires tasks > 0
      ensures Valid() && fresh(state) && fresh(spReg) && state.Length == tasks
      ensures thisTask == BOOT && taskReady == [] && state[BOOT] == TS_RUN && dispCount == 0 && idleCount == 0
      ensures this.pri == pri && this.spLower == spLower && this.spUpper == spUpper
    {
      this.pri, this.spLower, this.spUpper := pri, spLower, spUpper;
      state := new TState[tasks](_ => TS_RUN);
      spReg := new int[tasks](_ => 0);
      thisTask, taskReady, dispCount, idleCount := BOOT, [], 0, 0;
    }

    /** Insert before the first node of strictly lower priority. */
    method Enqueue(n: nat)
      modifies this`taskReady
      ensures taskReady == Enq(pri, old(taskReady), n)
    {
      var p := 0;
      while p < |taskReady|
        invariant 0 <= p <= |taskReady|
        invariant forall i | 0 <= i < p :: pri(taskReady[i]) >= pri(n)
      {
        if pri(taskReady[p]) < pri(n) {
          break;
        }
        p := p + 1;
      }
      SpotUnique(pri, taskReady, n, p);
      EnqAtSpot(pri, taskReady, n);
      taskReady := taskReady[..p] + [n] + taskReady[p..];
    }

    /** The stack pointer of the running task is inside its stack. */
    predicate StackOk()
      reads this, spReg
      requires thisTask < spReg.Length
    {
      spLower(thisTask) < spReg[thisTask] <= spUpper(thisTask)
    }

    /** The preempted task goes back on TaskReady: it is still running, is not the boot anchor, and
        has not run off its stack. */
    predicate Requeues()
      reads this, state, spReg
      requires thisTask < state.Length == spReg.Length
    {
      state[thisTask] == TS_RUN && thisTask != BOOT && StackOk()
    }

    method CoreSwitch()
      requires Valid()
      modifies this`taskReady, state
      ensures taskReady == S.AfterSwitch(pri, old(taskReady), thisTask, old(Requeues()))
      ensures forall t | 0 <= t < state.Length && t != thisTask :: state[t] == old(state[t])
      ensures state[thisTask] ==
              if old(state[thisTask]) != TS_RUN then old(state[thisTask])
              else if thisTask != BOOT && !StackOk() then TS_WAIT else TS_READY
      ensures Sorted(pri, taskReady) && NoDup(taskReady)
      ensures forall t | t in taskReady :: BOOT < t < state.Length && state[t] == TS_READY
    {
      var t := thisTask;
      if state[t] != TS_RUN {
        return;
      }
      if t != BOOT && (spReg[t] <= spLower(t) || spReg[t] > spUpper(t)) {
        state[t] := TS_WAIT;
        return;
      }
      state[t] := TS_READY;
      if t != BOOT {
        EnqMembers(pri, taskReady, t);
        EnqueueKeepsOrder(pri, taskReady, t);
        Enqueue(t);
      }
    }

    /** Runs the head of TaskReady. */
    method CoreDispatch() returns (dispatched: bool)
      requires Sorted(pri, taskReady) && NoDup(taskReady) && state.Length == spReg.Length && thisTask < state.Length
      requires forall t | t in taskReady :: BOOT < t < state.Length && state[t] == TS_READY
      modifies this, state
      ensures dispatched <==> old(taskReady) != []
      ensures dispatched ==> Valid() && dispCount == old(dispCount) + 1 && idleCount == old(idleCount)
      ensures dispatched ==> [thisTask] + taskReady == old(taskReady) && state[thisTask] == TS_RUN
      ensures forall t | 0 <= t < state.Length && (!dispatched || t != thisTask) :: state[t] == old(state[t])
      ensures !dispatched ==> taskReady == [] && thisTask == old(thisTask) && idleCount == old(idleCount) + 1
    {
      if taskReady == [] {
        idleCount := idleCount + 1;
        return false;
      }
      var nt := taskReady[0];
      assert nt in taskReady;
      assert taskReady == [nt] + taskReady[1..];
      taskReady := taskReady[1..];
      dispCount := dispCount + 1;
      thisTask := nt;
      state[nt] := TS_RUN;
      return true;
    }

    /** The tail of a timer interrupt: when anything is ready, one scheduler step. */
    method ExitInterrupt()
      requires Valid()
      modifies this, state
      ensures Valid()
      ensures S.Cpu(thisTask, taskReady) ==
              S.Next(pri, S.Cpu(old(thisTask), old(taskReady)), S.Tick(old(Requeues())))
      ensures old(taskReady) != [] ==> state[thisTask] == TS_RUN && dispCount == old(dispCount) + 1
      ensures old(taskReady) == [] ==> forall t | 0 <= t < state.Length :: state[t] == old(state[t])
    {
      if taskReady != [] {
        CoreSwitch();
        ghost var q := taskReady;
        assert q != [];
        var dispatched := CoreDispatch();
        assert q[0] == thisTask && q[1..] == taskReady;
      }
    }
  }
}
