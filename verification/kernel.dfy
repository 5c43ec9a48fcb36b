/** The preemptive kernel: tasks running Wait/Signal and message-port calls statement by
    statement on one processor, with a timer tick possible between any two statements. */
module Kernel {
  import opened PriList
  import opened Types

  type Mask = set<nat>          // a 32-bit signal word, as the set of its one bits

  /** What the last exec call gave the caller. */
  datatype Result = Done | Received(bits: Mask) | Dequeued(msg: Option<nat>) | Peeked(msg: Option<nat>)

  datatype Call =
    | PutMsg(port: nat, msg: nat) | GetMsg(port: nat) | WaitPort(port: nat)
    | Wait(mask: Mask) | Signal(task: nat, mask: Mask)

  /** The statement a task executes next. */
  datatype Pc =
    | User(last: Result)
    // PutMsg: Forbid; AddTail; Permit; then the call of Signal
    | PutForbid(p: nat, m: nat) | PutAdd(p: nat, m: nat) | PutPermit(p: nat) | PutSignal(p: nat)
    // Signal: Forbid; post; test and Remove; TS_READY; Enqueue; Permit
    | SigForbid(x: nat, mask: Mask) | SigPost(x: nat, mask: Mask) | SigTest(x: nat)
    | SigReady(x: nat) | SigEnqueue(x: nat) | SigPermit
    // GetMsg: Forbid; RemHead; Permit
    | GetForbid(p: nat) | GetRemove(p: nat) | GetPermit(head: Option<nat>)
    // WaitPort: the unlocked emptiness test, then GetHead
    | PortTest(p: nat) | PortPeek(p: nat)
    // Wait, called directly or from WaitPort(back)
    | WaitForbid(mask: Mask, back: Option<nat>) | WaitTest(mask: Mask, back: Option<nat>)
    | WaitMark(mask: Mask, back: Option<nat>) | WaitState(mask: Mask, back: Option<nat>)
    | WaitEnqueue(mask: Mask, back: Option<nat>) | WaitPermit(mask: Mask, back: Option<nat>)
    | WaitSpin(mask: Mask, back: Option<nat>) | WaitReforbid(mask: Mask, back: Option<nat>)
    | WaitTake(mask: Mask, back: Option<nat>) | WaitClear(mask: Mask, got: Mask, back: Option<nat>)
    | WaitReturn(mask: Mask, got: Mask, back: Option<nat>)
  {
    /** Between Forbid and Permit. */
    predicate Critical()
    {
      match this
      case PutAdd(_, _) | PutPermit(_) => true
      case SigPost(_, _) | SigTest(_) | SigReady(_) | SigEnqueue(_) | SigPermit => true
      case GetRemove(_) | GetPermit(_) => true
      case WaitTest(_, _) | WaitMark(_, _) | WaitState(_, _) | WaitEnqueue(_, _) | WaitPermit(_, _) => true
      case WaitTake(_, _) | WaitClear(_, _, _) | WaitReturn(_, _, _) => true
      case _ => false
    }

    /** In Wait, with the mask not yet found among the received bits. */
    predicate Blocking()
    {
      WaitForbid? || WaitTest? || WaitMark? || WaitState? || WaitEnqueue? || WaitPermit? || WaitSpin?
    }
  }

  datatype Tcb = Tcb(state: TState, recvd: Mask, sigWait: Mask, pc: Pc)

  datatype Port = Port(owner: nat, bit: nat, msgs: seq<nat>)

  /** Task 0 is the boot task, which is never put on a list. */
  const BOOT: nat := 0

  datatype State = State(
    pri: nat -> int, tasks: seq<Tcb>, current: nat, ready: seq<nat>, waiting: seq<nat>,
    forbid: nat, on: bool, ports: seq<Port>)

  // ---- statements ----------------------------------------------------------------------

  function Me(s: State): Tcb
    requires s.current < |s.tasks|
  {
    s.tasks[s.current]
  }

  function Put(s: State, t: nat, tcb: Tcb): State
    requires t < |s.tasks|
  {
    s.(tasks := s.tasks[t := tcb])
  }

  function Go(s: State, pc: Pc): State
    requires s.current < |s.tasks|
  {
    Put(s, s.current, Me(s).(pc := pc))
  }

  function Forbid(s: State): State { s.(forbid := s.forbid + 1) }

  function Permit(s: State): State { if s.forbid > 0 then s.(forbid := s.forbid - 1) else s }

  /** A message is on a queue, or about to be added to one. */
  predicate InFlight(s: State, m: nat)
  {
    || (exists p | 0 <= p < |s.ports| :: m in s.ports[p].msgs)
    || (exists t | 0 <= t < |s.tasks| :: PutsMessage(s.tasks[t].pc, m))
  }

  predicate PutsMessage(pc: Pc, m: nat)
  {
    (pc.PutForbid? || pc.PutAdd?) && pc.m == m
  }

  /** The rules callers keep: ports and tasks exist, only the owner waits on a port, and a message
      is put by whoever holds it. */
  predicate Legal(s: State, c: Call)
  {
    match c
    case PutMsg(p, m) => p < |s.ports| && !InFlight(s, m)
    case GetMsg(p) => p < |s.ports|
    case WaitPort(p) => p < |s.ports| && s.ports[p].owner == s.current
    case Wait(_) => true
    case Signal(x, _) => BOOT < x < |s.tasks|
  }

  function Entry(c: Call): Pc
  {
    match c
    case PutMsg(p, m) => PutForbid(p, m)
    case GetMsg(p) => GetForbid(p)
    case WaitPort(p) => PortTest(p)
    case Wait(mask) => WaitForbid(mask, None)
    case Signal(x, mask) => SigForbid(x, mask)
  }

  /** Ranges of the numbers a program counter carries. */
  predicate InRange(s: State, pc: Pc)
  {
    match pc
    case PutForbid(p, _) => p < |s.ports|
    case PutAdd(p, _) => p < |s.ports|
    case PutPermit(p) => p < |s.ports|
    case PutSignal(p) => p < |s.ports|
    case GetForbid(p) => p < |s.ports|
    case GetRemove(p) => p < |s.ports|
    case PortTest(p) => p < |s.ports| && s.ports[p].owner < |s.tasks|
    case PortPeek(p) => p < |s.ports|
    case SigForbid(x, _) => BOOT < x < |s.tasks|
    case SigPost(x, _) => BOOT < x < |s.tasks|
    case SigTest(x) => BOOT < x < |s.tasks|
    case SigReady(x) => BOOT < x < |s.tasks|
    case SigEnqueue(x) => BOOT < x < |s.tasks|
    case _ => true
  }

  ghost predicate Sized(s: State)
  {
    && s.current < |s.tasks|
    && (forall t | 0 <= t < |s.tasks| :: InRange(s, s.tasks[t].pc))
    && (forall p | 0 <= p < |s.ports| :: BOOT < s.ports[p].owner < |s.tasks|)
  }

  function ExecPut(s: State): State
    requires s.current < |s.tasks| && InRange(s, Me(s).pc)
  {
    match Me(s).pc
    case PutForbid(p, m) => Go(Forbid(s), PutAdd(p, m))
    case PutAdd(p, m) => Go(s.(ports := s.ports[p := s.ports[p].(msgs := s.ports[p].msgs + [m])]), PutPermit(p))
    case PutPermit(p) => Go(Permit(s), PutSignal(p))
    case PutSignal(p) => Go(s, SigForbid(s.ports[p].owner, {s.ports[p].bit}))
    case _ => s
  }

  function ExecSignal(s: State): State
    requires s.current < |s.tasks| && InRange(s, Me(s).pc)
  {
    match Me(s).pc
    case SigForbid(x, mask) => Go(Forbid(s), SigPost(x, mask))
    case SigPost(x, mask) => Go(Put(s, x, s.tasks[x].(recvd := s.tasks[x].recvd + mask)), SigTest(x))
    case SigTest(x) =>
      if s.tasks[x].recvd * s.tasks[x].sigWait != {} && s.tasks[x].state == TS_WAIT
      then Go(s.(waiting := Without(s.waiting, x)), SigReady(x))
      else Go(s, SigPermit)
    case SigReady(x) => Go(Put(s, x, s.tasks[x].(state := TS_READY)), SigEnqueue(x))
    case SigEnqueue(x) => Go(s.(ready := Enq(s.pri, s.ready, x)), SigPermit)
    case SigPermit => Go(Permit(s), User(Done))
    case _ => s
  }

  function ExecGet(s: State): State
    requires s.current < |s.tasks| && InRange(s, Me(s).pc)
  {
    match Me(s).pc
    case GetForbid(p) => Go(Forbid(s), GetRemove(p))
    case GetRemove(p) =>
      var q := s.ports[p].msgs;
      if q == [] then Go(s, GetPermit(None))
      else Go(s.(ports := s.ports[p := s.ports[p].(msgs := q[1..])]), GetPermit(Some(q[0])))
    case GetPermit(head) => Go(Permit(s), User(Dequeued(head)))
    case PortTest(p) =>
      if s.ports[p].msgs == [] then Go(s, WaitForbid({s.ports[p].bit}, Some(p))) else Go(s, PortPeek(p))
    case PortPeek(p) =>
      Go(s, User(Peeked(if s.ports[p].msgs == [] then None else Some(s.ports[p].msgs[0]))))
    case _ => s
  }

  function ExecWait(s: State): State
    requires s.current < |s.tasks|
  {
    var me := Me(s);
    match me.pc
    case WaitForbid(mask, back) => Go(Forbid(s), WaitTest(mask, back))
    case WaitTest(mask, back) => Go(s, if me.recvd * mask == {} then WaitMark(mask, back) else WaitTake(mask, back))
    case WaitMark(mask, back) => Put(s, s.current, me.(sigWait := mask, pc := WaitState(mask, back)))
    case WaitState(mask, back) => Put(s, s.current, me.(state := TS_WAIT, pc := WaitEnqueue(mask, back)))
    case WaitEnqueue(mask, back) => Go(s.(waiting := Enq(s.pri, s.waiting, s.current)), WaitPermit(mask, back))
    case WaitPermit(mask, back) => Go(Permit(s), WaitSpin(mask, back))
    case WaitSpin(mask, back) => if me.state == TS_WAIT then s else Go(s, WaitReforbid(mask, back))
    case WaitReforbid(mask, back) => Go(Forbid(s), WaitTake(mask, back))
    case WaitTake(mask, back) => Go(s, WaitClear(mask, me.recvd * mask, back))
    case WaitClear(mask, got, back) =>
      Put(s, s.current, me.(recvd := me.recvd - mask, pc := WaitReturn(mask, got, back)))
    case WaitReturn(mask, got, back) =>
      Go(Permit(s), match back case None => User(Received(got)) case Some(p) => PortTest(p))
    case _ => s
  }

  /** The running task executes its next statement; in user code it makes the call c. */
  function Exec(s: State, c: Call): State
    requires s.current < |s.tasks| && InRange(s, Me(s).pc)
  {
    if s.current == BOOT then s else
    match Me(s).pc
    case User(_) => if Legal(s, c) then Go(s, Entry(c)) else s
    case PutForbid(_, _) | PutAdd(_, _) | PutPermit(_) | PutSignal(_) => ExecPut(s)
    case SigForbid(_, _) | SigPost(_, _) | SigTest(_) | SigReady(_) | SigEnqueue(_) | SigPermit => ExecSignal(s)
    case GetForbid(_) | GetRemove(_) | GetPermit(_) | PortTest(_) | PortPeek(_) => ExecGet(s)
    case _ => ExecWait(s)
  }

  // ---- the timer -----------------------------------------------------------------------

  /** core_Switch: a running task goes back on the ready list; a blocked one does not. */
  function CoreSwitch(s: State): State
    requires s.current < |s.tasks|
  {
    if Me(s).state != TS_RUN then s else
    var r := Put(s, s.current, Me(s).(state := TS_READY));
    if s.current != BOOT then r.(ready := Enq(s.pri, s.ready, s.current)) else r
  }

  /** core_Dispatch: the head of the ready list runs. */
  function CoreDispatch(s: State): State
    requires forall t | t in s.ready :: t < |s.tasks|
  {
    if s.ready == [] then s else
    var nt := s.ready[0];
    assert nt in s.ready;
    Put(s, nt, s.tasks[nt].(state := TS_RUN)).(ready := s.ready[1..], current := nt)
  }

  function ExitInterrupt(s: State): State
    requires s.current < |s.tasks| && forall t | t in s.ready :: t < |s.tasks|
  {
    if s.ready == [] then s else
    EnqMembers(s.pri, s.ready, s.current);
    CoreDispatch(CoreSwitch(s))
  }

  /** One SIGALRM; `last` when the tick limit has been reached. */
  function Tick(s: State, last: bool): State
    requires s.current < |s.tasks| && forall t | t in s.ready :: t < |s.tasks|
  {
    if !s.on || s.forbid > 0 then s
    else if last then Put(s, BOOT, s.tasks[BOOT].(state := TS_RUN)).(on := false, current := BOOT)
    else ExitInterrupt(s)
  }
}
