/** Whole runs of the kernel, under any schedule of ticks and any legal programs. */
module KernelRuns {
  import opened PriList
  import opened Kernel
  import opened KernelInv
  import KernelCalls
  import S = Scheduler
  import opened Types

  datatype Action = Statement(call: Call) | Timer(last: bool)

  /** While the scheduler is on the invariant holds; switching it off ends the run. */
  ghost predicate Live(s: State)
  {
    s.on ==> Inv(s)
  }

  ghost function Next(s: State, a: Action): (s': State)
    requires Live(s)
    ensures Live(s')
  {
    if !s.on then s else
    match a
    case Statement(c) => ExecKeepsInv(s, c); Exec(s, c)
    case Timer(last) => TickKeepsInv(s, last); Tick(s, last)
  }

  ghost function Run(s: State, actions: seq<Action>): State
    requires Live(s)
    decreases |actions|
  {
    if actions == [] then s else Run(Next(s, actions[0]), actions[1..])
  }

  /** Whatever the programs call and whenever the timer fires, the invariant holds. */
  lemma {:induction false} RunKeepsInv(s: State, actions: seq<Action>)
    requires Live(s)
    ensures Live(Run(s, actions))
    decreases |actions|
  {
    if actions == [] {
    } else {
      RunKeepsInv(Next(s, actions[0]), actions[1..]);
    }
  }

  // ---- the initial state ---------------------------------------------------------------

  /** Tasks 1..n in spawning order, each enqueued as it is spawned. */
  function Spawned(pri: nat -> int, n: nat): seq<nat>
  {
    if n == 0 then [] else Enq(pri, Spawned(pri, n - 1), n)
  }

  function Init(pri: nat -> int, n: nat, ports: seq<Port>): State
  {
    var idle := Tcb(TS_READY, {}, {}, User(Done));
    State(pri, [idle.(state := TS_RUN)] + seq(n, _ => idle), BOOT, Spawned(pri, n), [], 0, true, ports)
  }

  ghost predicate PortsOk(n: nat, ports: seq<Port>)
  {
    forall p | 0 <= p < |ports| :: BOOT < ports[p].owner <= n
  }

  lemma {:induction false} SpawnedOk(pri: nat -> int, n: nat)
    ensures NoDup(Spawned(pri, n)) && Sorted(pri, Spawned(pri, n))
    ensures forall t :: t in Spawned(pri, n) <==> 0 < t <= n
  {
    if n == 0 {
    } else {
      SpawnedOk(pri, n - 1);
      EnqMembers(pri, Spawned(pri, n - 1), n);
      EnqueueKeepsOrder(pri, Spawned(pri, n - 1), n);
    }
  }

  lemma InitInv(pri: nat -> int, n: nat, ports: seq<Port>)
    requires PortsOk(n, ports)
    ensures Inv(Init(pri, n, ports))
  {
    SpawnedOk(pri, n);
  }

  ghost function Reached(pri: nat -> int, n: nat, ports: seq<Port>, actions: seq<Action>): State
    requires PortsOk(n, ports)
  {
    InitInv(pri, n, ports);
    Run(Init(pri, n, ports), actions)
  }

  // ---- what holds in every reachable state ---------------------------------------------

  /** Wherever a tick can switch tasks, every task but boot is in exactly one place: running,
      on TaskReady, or on TaskWait. */
  lemma ExactlyOnePlace(pri: nat -> int, n: nat, ports: seq<Port>, actions: seq<Action>, t: nat)
    requires PortsOk(n, ports)
    ensures var s := Reached(pri, n, ports, actions);
            s.on && s.forbid == 0 && BOOT < t < |s.tasks| ==>
              var state := s.tasks[t].state;
              && (state == TS_RUN ==> t == s.current && t !in s.ready && t !in s.waiting)
              && (state == TS_READY ==> t != s.current && t in s.ready && t !in s.waiting)
              && (state == TS_WAIT ==> t !in s.ready && t in s.waiting)
  {
    InitInv(pri, n, ports);
    RunKeepsInv(Init(pri, n, ports), actions);
    var s := Reached(pri, n, ports, actions);
    if s.on && BOOT < t < |s.tasks| { assert Good(s, t); }
  }

  /** A waiting task has received none of the bits it waits for, except while the running task,
      under Forbid, is about to wake it. */
  lemma WaitingHasNoBit(pri: nat -> int, n: nat, ports: seq<Port>, actions: seq<Action>, t: nat)
    requires PortsOk(n, ports)
    ensures var s := Reached(pri, n, ports, actions);
            s.on && t < |s.tasks| && s.tasks[t].state == TS_WAIT && s.current < |s.tasks| && !BeingWoken(s, t) ==>
              s.tasks[t].recvd * s.tasks[t].sigWait == {}
    ensures var s := Reached(pri, n, ports, actions);
            s.on && s.forbid == 0 && s.current < |s.tasks| ==> !BeingWoken(s, t)
  {
    InitInv(pri, n, ports);
    RunKeepsInv(Init(pri, n, ports), actions);
    var s := Reached(pri, n, ports, actions);
    if s.on && t < |s.tasks| { assert Good(s, t); }
  }

  /** Task t is blocked inside WaitPort(p). */
  ghost predicate BlockedOn(s: State, t: nat, p: nat)
  {
    && t < |s.tasks| && p < |s.ports| && s.tasks[t].state == TS_WAIT
    && (s.tasks[t].pc.WaitPermit? || s.tasks[t].pc.WaitSpin?) && s.tasks[t].pc.back == Some(p)
  }

  /** No wakeup is lost: in any run, whenever a task is blocked in WaitPort while its port holds a
      message, some sender has added its message and has yet to post the signal, and that sender
      is not itself blocked; or the running task is at this moment waking the waiter. */
  lemma NoLostWakeup(pri: nat -> int, n: nat, ports: seq<Port>, actions: seq<Action>, t: nat, p: nat)
    requires PortsOk(n, ports)
    ensures var s := Reached(pri, n, ports, actions);
            s.on && BlockedOn(s, t, p) && s.ports[p].msgs != [] && s.current < |s.tasks| ==>
              BeingWoken(s, t) || exists u: nat :: Sending(s, u, p) && s.tasks[u].state != TS_WAIT
  {
    InitInv(pri, n, ports);
    RunKeepsInv(Init(pri, n, ports), actions);
    var s := Reached(pri, n, ports, actions);
    if s.on && BlockedOn(s, t, p) && s.ports[p].msgs != [] && !BeingWoken(s, t) { BlockedHasSender(s, t, p); }
  }

  lemma BlockedHasSender(s: State, t: nat, p: nat)
    requires Inv(s) && BlockedOn(s, t, p) && s.ports[p].msgs != [] && !BeingWoken(s, t)
    ensures exists u: nat :: Sending(s, u, p) && s.tasks[u].state != TS_WAIT
  {
    hide Lists, Locks, Placed;
    var pc := s.tasks[t].pc;
    assert Good(s, t) && NotLost(s, t) && BackOk(pc, t, s.ports);
    MaskApart(s.tasks[t].recvd, pc.mask, s.ports[p].bit);
    var u: nat :| Sending(s, u, p);
    assert Good(s, u);
  }

  lemma MaskApart(a: Mask, b: Mask, x: nat)
    requires a * b == {} && x in b
    ensures x !in a
  {
    assert x in a && x in b ==> x in a * b;
  }

  /** The same from the unlocked emptiness test on: a message that arrives before the owner has
      entered Wait either has its bit received already or a sender about to post it. */
  lemma NoLostWakeupBeforeWait(pri: nat -> int, n: nat, ports: seq<Port>, actions: seq<Action>, t: nat, p: nat)
    requires PortsOk(n, ports)
    ensures var s := Reached(pri, n, ports, actions);
            && s.on && t < |s.tasks| && p < |s.ports| && s.tasks[t].pc.Blocking()
            && s.tasks[t].pc.back == Some(p) && s.ports[p].msgs != [] ==>
              s.ports[p].bit in s.tasks[t].recvd || SomeSending(s, p)
  {
    InitInv(pri, n, ports);
    RunKeepsInv(Init(pri, n, ports), actions);
    var s := Reached(pri, n, ports, actions);
    if s.on && t < |s.tasks| { assert NotLost(s, t); }
  }

  /** A posted bit stays received until the task's own Wait takes it to return it. */
  lemma BitsStayUntilReturned(s: State, a: Action, t: nat, b: nat)
    requires Live(s) && s.on && t < |s.tasks| && b in s.tasks[t].recvd
    ensures var s' := Next(s, a);
            t < |s'.tasks| && b !in s'.tasks[t].recvd ==>
              && t == s.current && s.tasks[t].pc.WaitClear? && b in s.tasks[t].pc.got
              && s'.tasks[t].pc == WaitReturn(s.tasks[t].pc.mask, s.tasks[t].pc.got, s.tasks[t].pc.back)
  {
    match a
    case Timer(last) => TickKeepsBits(s, last, t);
    case Statement(c) => ExecKeepsBits(s, c, t, b);
  }

  lemma TickKeepsBits(s: State, last: bool, t: nat)
    requires Inv(s) && s.on && t < |s.tasks|
    ensures var s' := Tick(s, last); |s'.tasks| == |s.tasks| && s'.tasks[t].recvd == s.tasks[t].recvd
  {
    hide NotLost, Backs, Good;
    if s.forbid == 0 && !last && s.ready != [] {
      SwitchShape(s);
      assert SamePc(s, Tick(s, last), t);
    }
  }

  lemma ExecKeepsBits(s: State, c: Call, t: nat, b: nat)
    requires Inv(s) && t < |s.tasks| && b in s.tasks[t].recvd
    ensures var s' := Exec(s, c);
            && |s'.tasks| == |s.tasks|
            && (b !in s'.tasks[t].recvd ==>
                  && t == s.current && s.tasks[t].pc.WaitClear? && b in s.tasks[t].pc.got
                  && s'.tasks[t].pc == WaitReturn(s.tasks[t].pc.mask, s.tasks[t].pc.got, s.tasks[t].pc.back))
  {
    hide Exec, NotLost, Lists, Backs, Placed, Locks;
    assert Good(s, s.current);
    if s.current == BOOT { BootIdles(s, c); }
    else if InWait(Me(s).pc) {
      KernelCalls.WaitCallStep(s, c);
      if Me(s).pc.WaitClear? && t == s.current { TakenIsReturned(s, c); }
    } else if InSignal(Me(s).pc) { KernelCalls.SignalCallStep(s, c); }
    else { KernelCalls.OthersKeepWords(s, c, t); }
  }

  lemma BootIdles(s: State, c: Call)
    requires s.current == BOOT < |s.tasks| && InRange(s, Me(s).pc)
    ensures Exec(s, c) == s
  {
  }

  lemma TakenIsReturned(s: State, c: Call)
    requires s.current < |s.tasks| && s.current != BOOT && Me(s).pc.WaitClear?
    ensures var s', pc := Exec(s, c), Me(s).pc;
            |s'.tasks| == |s.tasks| && s'.tasks[s.current].pc == WaitReturn(pc.mask, pc.got, pc.back)
  {
  }

  /** Wait returns a non-empty part of the mask it was given. */
  lemma WaitReturnsNonEmpty(s: State, c: Call)
    requires Inv(s) && s.current != BOOT && Me(s).pc.WaitReturn? && Me(s).pc.back.None?
    ensures var s' := Exec(s, c);
            Me(s').pc == User(Received(Me(s).pc.got)) && Me(s).pc.got != {} && Me(s).pc.got <= Me(s).pc.mask
  {
    assert Good(s, s.current);
  }

  /** The tick at the limit, when no task is under Forbid: the boot task has the processor, every
      other task and list is as it was, and nothing happens afterwards. */
  lemma LastTickEndsRun(s: State, actions: seq<Action>)
    requires Inv(s) && s.on && s.forbid == 0
    ensures var t := Tick(s, true);
            && !t.on && t.current == BOOT && |t.tasks| == |s.tasks| && t.tasks[BOOT].state == TS_RUN
            && (forall u | BOOT < u < |s.tasks| :: t.tasks[u] == s.tasks[u])
            && t.ready == s.ready && t.waiting == s.waiting && t.ports == s.ports
            && Run(t, actions) == t
  {
    OffStays(Tick(s, true), actions);
  }

  lemma {:induction false} OffStays(s: State, actions: seq<Action>)
    requires Live(s) && !s.on
    ensures Run(s, actions) == s
    decreases |actions|
  {
    if actions != [] { OffStays(s, actions[1..]); }
  }

  /** A tick of the kernel is a step of the priority scheduler, in which a blocked task and the
      boot task are not put back. */
  lemma TickSchedules(s: State)
    requires Inv(s) && s.on && s.forbid == 0
    ensures var s' := Tick(s, false);
            S.Cpu(s'.current, s'.ready) ==
            S.Next(s.pri, S.Cpu(s.current, s.ready), S.Tick(Me(s).state == TS_RUN && s.current != BOOT))
  {
  }
}
