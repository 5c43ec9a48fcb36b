/** How soon a lost wakeup that is none is made good: in how many statements of its sender a
    blocked task is made ready. */
module KernelWake {
  import opened Kernel
  import opened KernelInv
  import opened KernelRuns
  import KernelCalls
  import opened Types

  /** The statements left to a sender of port p until its owner is made ready, 0 for no sender. */
  function Distance(pc: Pc, p: nat, port: Port): nat
  {
    match pc
    case PutPermit(q) => if q == p then 6 else 0
    case PutSignal(q) => if q == p then 5 else 0
    case SigForbid(x, mask) => if x == port.owner && port.bit in mask then 4 else 0
    case SigPost(x, mask) => if x == port.owner && port.bit in mask then 3 else 0
    case SigTest(x) => if x == port.owner then 2 else 0
    case SigReady(x) => if x == port.owner then 1 else 0
    case _ => 0
  }

  /** Task u is on its way to wake the owner of port p. */
  ghost predicate Waking(s: State, u: nat, p: nat)
  {
    && u < |s.tasks| && p < |s.ports| && s.ports[p].owner < |s.tasks|
    && Distance(s.tasks[u].pc, p, s.ports[p]) > 0
    && (s.tasks[u].pc.SigTest? ==> s.ports[p].bit in s.tasks[s.ports[p].owner].recvd)
  }

  function Left(s: State, u: nat, p: nat): nat
    requires u < |s.tasks| && p < |s.ports|
  {
    Distance(s.tasks[u].pc, p, s.ports[p])
  }

  /** A task blocked on a port that holds a message has a task on its way to wake it. */
  lemma SomeoneWakes(s: State, t: nat, p: nat) returns (u: nat)
    requires Inv(s) && BlockedOn(s, t, p) && s.ports[p].msgs != []
    ensures Waking(s, u, p) && s.tasks[u].state != TS_WAIT && s.ports[p].owner == t
  {
    hide Lists, Placed;
    assert Good(s, t) && NotLost(s, t) && BackOk(s.tasks[t].pc, t, s.ports);
    if BeingWoken(s, t) && (Me(s).pc.SigReady? || s.ports[p].bit in s.tasks[t].recvd) {
      u := s.current;
    } else {
      MaskApart(if BeingWoken(s, t) then {} else s.tasks[t].recvd, s.tasks[t].pc.mask, s.ports[p].bit);
      u :| Sending(s, u, p);
    }
    assert Good(s, u);
  }

  /** A statement of the sender brings the waking one step nearer; nothing else hinders it. */
  lemma WakeNears(s: State, a: Action, u: nat, t: nat, p: nat)
    requires Inv(s) && s.on && BlockedOn(s, t, p) && Waking(s, u, p)
    ensures var s' := Next(s, a);
            && t < |s'.tasks|
            && (s'.on && s'.tasks[t].state == TS_WAIT ==>
                  && BlockedOn(s', t, p) && Waking(s', u, p)
                  && Left(s', u, p) == Left(s, u, p) - (if a.Statement? && s.current == u then 1 else 0))
  {
    hide Good, NotLost, Locks, Backs, MoverOk, Exec, Tick;
    match a
    case Timer(last) => TickNears(s, last, u, t, p);
    case Statement(c) =>
      if s.current == u { SenderNears(s, c, u, t, p); }
      else { OtherNears(s, c, u, t, p); }
  }

  lemma TickNears(s: State, last: bool, u: nat, t: nat, p: nat)
    requires Inv(s) && s.on && BlockedOn(s, t, p) && Waking(s, u, p)
    ensures var s' := Tick(s, last);
            && |s'.tasks| == |s.tasks| && s'.ports == s.ports
            && (s'.tasks[t].state == TS_WAIT ==>
                  BlockedOn(s', t, p) && Waking(s', u, p) && Left(s', u, p) == Left(s, u, p))
  {
    hide Good, NotLost, Locks, Backs, MoverOk, Tick;
    KernelCalls.TimerStep(s, last);
    var s' := Tick(s, last);
    assert SamePc(s, s', u) && SamePc(s, s', t) && SamePc(s, s', s.ports[p].owner);
  }

  lemma SenderNears(s: State, c: Call, u: nat, t: nat, p: nat)
    requires Inv(s) && s.on && BlockedOn(s, t, p) && Waking(s, u, p) && s.current == u
    ensures var s' := Exec(s, c);
            && |s'.tasks| == |s.tasks|
            && (s'.tasks[t].state == TS_WAIT ==>
                  BlockedOn(s', t, p) && Waking(s', u, p) && Left(s', u, p) == Left(s, u, p) - 1)
  {
    hide Lists, Placed, NotLost;
    if Me(s).pc.SigTest? || Me(s).pc.SigReady? { SenderWakes(s, c, u, t, p); }
    assert Good(s, t) && BackOk(s.tasks[t].pc, t, s.ports);
  }

  /** Its last two statements: the test succeeds, and the task is ready. */
  lemma SenderWakes(s: State, c: Call, u: nat, t: nat, p: nat)
    requires Inv(s) && s.on && BlockedOn(s, t, p) && Waking(s, u, p) && s.current == u
    requires Me(s).pc.SigTest? || Me(s).pc.SigReady?
    ensures var s' := Exec(s, c);
            && |s'.tasks| == |s.tasks|
            && (s'.tasks[t].state == TS_WAIT ==>
                  BlockedOn(s', t, p) && Waking(s', u, p) && Left(s', u, p) == Left(s, u, p) - 1)
  {
    hide Lists, Placed, NotLost;
    assert Good(s, t) && BackOk(s.tasks[t].pc, t, s.ports);
    if Me(s).pc.SigTest? { assert s.ports[p].bit in s.tasks[t].recvd * s.tasks[t].sigWait; }
  }

  lemma OtherNears(s: State, c: Call, u: nat, t: nat, p: nat)
    requires Inv(s) && s.on && BlockedOn(s, t, p) && Waking(s, u, p) && s.current != u
    ensures var s' := Exec(s, c);
            && |s'.tasks| == |s.tasks|
            && (s'.tasks[t].state == TS_WAIT ==>
                  BlockedOn(s', t, p) && Waking(s', u, p) && Left(s', u, p) == Left(s, u, p))
  {
    hide Lists, NotLost, Good, Exec, MoverOk, PcStep;
    if s.current == BOOT { BootIdles(s, c); }
    else if Me(s).pc.User? && !Legal(s, c) { RefusedIdles(s, c); }
    else {
      ExecIsPcStep(s, c);
      NotTested(s, u);
      OtherKept(s, Exec(s, c), u, t, p);
      if s.current == t { BlockedStays(s, c, p); }
    }
  }

  lemma RefusedIdles(s: State, c: Call)
    requires s.current < |s.tasks| && InRange(s, Me(s).pc) && Me(s).pc.User? && !Legal(s, c)
    ensures Exec(s, c) == s
  {
  }

  /** A task that is not running is not inside Forbid. */
  lemma NotTested(s: State, u: nat)
    requires Inv(s) && u < |s.tasks| && u != s.current
    ensures !s.tasks[u].pc.Critical()
  {
    hide Lists, NotLost, Good, MoverOk;
  }

  lemma OtherKept(s: State, s': State, u: nat, t: nat, p: nat)
    requires s.current < |s.tasks| && PcStep(s, s') && BlockedOn(s, t, p) && Waking(s, u, p) && s.current != u
    requires !s.tasks[u].pc.Critical()
    ensures |s'.tasks| == |s.tasks| && Waking(s', u, p) && Left(s', u, p) == Left(s, u, p)
    ensures t != s.current && s'.tasks[t].state == TS_WAIT ==> BlockedOn(s', t, p)
  {
    assert SamePort(s, s', p);
  }

  lemma BlockedStays(s: State, c: Call, p: nat)
    requires s.current < |s.tasks| && s.current != BOOT && BlockedOn(s, s.current, p)
    ensures var s' := Exec(s, c); s.current < |s'.tasks| && BlockedOn(s', s.current, p)
  {
    KernelCalls.ExecIsWait(s, c);
    hide Exec;
  }

  // ---- whole runs ----------------------------------------------------------------------

  /** How many statements task u executes along the run. */
  ghost function Own(s: State, actions: seq<Action>, u: nat): nat
    requires Live(s)
    decreases |actions|
  {
    if actions == [] then 0
    else (if s.on && actions[0].Statement? && s.current == u then 1 else 0) + Own(Next(s, actions[0]), actions[1..], u)
  }

  /** At some point of the run, before or after any of its actions, t is not blocked. */
  ghost predicate MadeReady(s: State, actions: seq<Action>, t: nat)
    requires Live(s)
    decreases |actions|
  {
    || (t < |s.tasks| && s.tasks[t].state != TS_WAIT)
    || (actions != [] && MadeReady(Next(s, actions[0]), actions[1..], t))
  }

  lemma {:induction false} WokenInTime(s: State, actions: seq<Action>, u: nat, t: nat, p: nat)
    requires Inv(s) && s.on && BlockedOn(s, t, p) && Waking(s, u, p)
    requires Run(s, actions).on && Own(s, actions, u) >= Left(s, u, p)
    ensures MadeReady(s, actions, t)
    decreases |actions|
  {
    hide Inv, Next, BlockedOn;
    if actions != [] {
      WakeNears(s, actions[0], u, t, p);
      var s' := Next(s, actions[0]);
      if !s'.on { OffStays(s', actions[1..]); }
      else if s'.tasks[t].state == TS_WAIT { WokenInTime(s', actions[1..], u, t, p); }
      else { assert MadeReady(s', actions[1..], t); }
    }
  }

  /** No wakeup is even late: in any run, whenever a task is blocked in WaitPort while its port holds
      a message, some task that is not blocked makes it ready within six of its own statements,
      whatever runs in between. */
  lemma WokenWithinSix(pri: nat -> int, n: nat, ports: seq<Port>, before: seq<Action>, t: nat, p: nat) returns (u: nat)
    requires PortsOk(n, ports)
    requires var s := Reached(pri, n, ports, before); s.on && BlockedOn(s, t, p) && s.ports[p].msgs != []
    ensures Live(Reached(pri, n, ports, before))
    ensures var s := Reached(pri, n, ports, before); u < |s.tasks| && s.tasks[u].state != TS_WAIT
    ensures forall after ::
              var s := Reached(pri, n, ports, before);
              Run(s, after).on && Own(s, after, u) >= 6 ==> MadeReady(s, after, t)
  {
    hide Next;
    InitInv(pri, n, ports);
    RunKeepsInv(Init(pri, n, ports), before);
    var s := Reached(pri, n, ports, before);
    u := SomeoneWakes(s, t, p);
    forall after | Run(s, after).on && Own(s, after, u) >= 6 ensures MadeReady(s, after, t) {
      WokenInTime(s, after, u, t, p);
    }
  }
}
