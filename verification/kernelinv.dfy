/** What every statement and every tick keeps. */
module KernelInv {
  import opened PriList
  import opened Kernel
  import opened Types

  /** The task that is on neither list because the running task is moving it. */
  ghost predicate Moving(s: State, t: nat)
    requires s.current < |s.tasks|
  {
    var pc := Me(s).pc;
    pc == SigReady(t) || pc == SigEnqueue(t) || (pc.WaitEnqueue? && t == s.current)
  }

  /** A task's state agrees with the one place it is in. */
  predicate PlaceOk(state: TState, running: bool, onReady: bool, onWait: bool, moving: bool)
  {
    if moving then !onReady && !onWait
    else match state
      case TS_RUN => running && !onReady && !onWait
      case TS_READY => !running && onReady && !onWait
      case TS_WAIT => !onReady && onWait
  }

  /** Every task other than boot is running, on TaskReady, or on TaskWait, as its state says. */
  ghost predicate Placed(s: State, t: nat)
    requires s.current < |s.tasks| && t < |s.tasks|
  {
    if t == BOOT then t !in s.ready && t !in s.waiting && (s.current == BOOT ==> s.tasks[t].state == TS_RUN)
    else PlaceOk(s.tasks[t].state, t == s.current, t in s.ready, t in s.waiting, Moving(s, t))
  }

  /** A signal has been posted to t by the running task, which has yet to test for its waiting. */
  ghost predicate BeingWoken(s: State, t: nat)
    requires s.current < |s.tasks|
  {
    Me(s).pc == SigTest(t) || Me(s).pc == SigReady(t)
  }

  /** What a task's place in Wait says about its signal words. */
  predicate SignalsOk(me: Tcb, woken: bool)
  {
    && (me.state == TS_WAIT ==> me.pc.WaitEnqueue? || me.pc.WaitPermit? || me.pc.WaitSpin?)
    && match me.pc
       case WaitMark(mask, _) => me.recvd * mask == {}
       case WaitState(mask, _) => me.recvd * mask == {} && me.sigWait == mask
       case WaitEnqueue(mask, _) => me.recvd * mask == {} && me.sigWait == mask && me.state == TS_WAIT
       case WaitPermit(mask, _) => me.recvd * mask == {} && me.sigWait == mask && me.state == TS_WAIT
       case WaitSpin(mask, _) =>
         && me.sigWait == mask
         && (me.state == TS_WAIT && !woken ==> me.recvd * mask == {})
         && (me.state != TS_WAIT ==> me.recvd * mask != {})
       case WaitReforbid(mask, _) => me.recvd * mask != {}
       case WaitTake(mask, _) => me.recvd * mask != {}
       case WaitClear(mask, got, _) => got == me.recvd * mask && got != {}
       case WaitReturn(mask, got, _) => got != {} && got <= mask
       case _ => true
  }

  /** What the running task's move of another task between the lists relies on. */
  ghost predicate MoverOk(s: State)
    requires s.current < |s.tasks|
  {
    match Me(s).pc
    case SigReady(x) =>
      x < |s.tasks| && x != s.current && s.tasks[x].state == TS_WAIT && s.tasks[x].recvd * s.tasks[x].sigWait != {}
    case SigEnqueue(x) => x < |s.tasks| && x != s.current && s.tasks[x].state == TS_READY
    case _ => true
  }

  ghost predicate Good(s: State, t: nat)
    requires s.current < |s.tasks| && t < |s.tasks|
  {
    Placed(s, t) && SignalsOk(s.tasks[t], BeingWoken(s, t))
  }

  /** Task u has added a message to port p and has yet to post the signal. */
  ghost predicate Sending(s: State, u: nat, p: nat)
    requires p < |s.ports|
  {
    && u < |s.tasks|
    && var pc, port := s.tasks[u].pc, s.ports[p];
       || pc == PutPermit(p) || pc == PutSignal(p)
       || (pc.SigForbid? && pc.x == port.owner && port.bit in pc.mask)
       || (pc.SigPost? && pc.x == port.owner && port.bit in pc.mask)
  }

  ghost predicate SomeSending(s: State, p: nat)
    requires p < |s.ports|
  {
    exists u :: Sending(s, u, p)
  }

  /** WaitPort waits for its port's owner, on the port's bit. */
  predicate BackOk(pc: Pc, t: nat, ports: seq<Port>)
  {
    && (pc.PortTest? ==> pc.p < |ports| && ports[pc.p].owner == t)
    && (InWait(pc) && pc.back.Some? ==>
          pc.back.value < |ports| && ports[pc.back.value].owner == t && pc.mask == {ports[pc.back.value].bit})
  }

  predicate InWait(pc: Pc)
  {
    pc.Blocking() || pc.WaitReforbid? || pc.WaitTake? || pc.WaitClear? || pc.WaitReturn?
  }

  /** From WaitPort's emptiness test to the end of the block, a queued message means that the
      port's bit is already received or a sender is about to post it. */
  ghost predicate NotLost(s: State, t: nat)
    requires t < |s.tasks|
  {
    var pc := s.tasks[t].pc;
    pc.Blocking() && pc.back.Some? && pc.back.value < |s.ports| ==>
      var port := s.ports[pc.back.value];
      port.msgs == [] || port.bit in s.tasks[t].recvd || SomeSending(s, pc.back.value)
  }

  ghost predicate Lists(s: State)
  {
    && NoDup(s.ready) && NoDup(s.waiting) && Sorted(s.pri, s.ready)
    && (forall t | t in s.ready :: BOOT < t < |s.tasks|)
    && (forall t | t in s.waiting :: BOOT < t < |s.tasks|)
  }

  ghost predicate Locks(s: State)
    requires s.current < |s.tasks|
  {
    && s.forbid == (if Me(s).pc.Critical() then 1 else 0)
    && (forall t | 0 <= t < |s.tasks| && t != s.current :: !s.tasks[t].pc.Critical())
    && s.tasks[BOOT].pc.User?
  }

  ghost predicate Backs(s: State)
  {
    forall t | 0 <= t < |s.tasks| :: BackOk(s.tasks[t].pc, t, s.ports)
  }

  ghost predicate Rest(s: State)
  {
    Sized(s) && Lists(s) && Locks(s) && MoverOk(s) && Backs(s)
  }

  ghost predicate Inv(s: State)
  {
    && Rest(s)
    && (forall t | 0 <= t < |s.tasks| :: Good(s, t))
    && (forall t | 0 <= t < |s.tasks| :: NotLost(s, t))
  }

  /** A statement moves the running task's program counter, leaves every other one and the
      identity of the ports alone, and holds the Forbid count exactly while in between. */
  ghost predicate PcStep(s: State, s': State)
    requires s.current < |s.tasks|
  {
    && |s'.tasks| == |s.tasks| && s'.current == s.current && s'.pri == s.pri && s'.on == s.on
    && |s'.ports| == |s.ports|
    && (forall p | 0 <= p < |s.ports| :: SamePort(s, s', p))
    && (forall u | 0 <= u < |s.tasks| && u != s.current :: s'.tasks[u].pc == s.tasks[u].pc)
    && InRange(s', Me(s').pc) && BackOk(Me(s').pc, s.current, s'.ports)
    && s'.forbid == (if Me(s').pc.Critical() then 1 else 0)
  }

  ghost predicate SamePort(s: State, s': State, p: nat)
    requires p < |s.ports| == |s'.ports|
  {
    s'.ports[p].owner == s.ports[p].owner && s'.ports[p].bit == s.ports[p].bit
  }

  lemma PcStepKeeps(s: State, s': State)
    requires Sized(s) && Locks(s) && Backs(s) && PcStep(s, s') && s.current != BOOT
    ensures Sized(s') && Locks(s') && Backs(s')
  {
    forall p | 0 <= p < |s'.ports| ensures BOOT < s'.ports[p].owner < |s'.tasks| { assert SamePort(s, s', p); }
    forall t | 0 <= t < |s'.tasks| ensures InRange(s', s'.tasks[t].pc) && BackOk(s'.tasks[t].pc, t, s'.ports) {
      PcStepAt(s, s', t);
    }
  }

  lemma PcStepAt(s: State, s': State, t: nat)
    requires Sized(s) && Backs(s) && PcStep(s, s') && t < |s'.tasks|
    ensures InRange(s', s'.tasks[t].pc) && BackOk(s'.tasks[t].pc, t, s'.ports)
  {
    var pc := s.tasks[t].pc;
    assert InRange(s, pc) && BackOk(pc, t, s.ports);
    if t != s.current {
      if pc.PortTest? { assert SamePort(s, s', pc.p); }
      if InWait(pc) && pc.back.Some? { assert SamePort(s, s', pc.back.value); }
    }
  }

  ghost predicate SameFor(s: State, s': State, t: nat)
    requires s.current < |s.tasks| == |s'.tasks| && s'.current < |s'.tasks|
  {
    && s'.current == s.current && t < |s.tasks|
    && s'.tasks[t] == s.tasks[t]
    && (t in s'.ready <==> t in s.ready) && (t in s'.waiting <==> t in s.waiting)
    && (Moving(s, t) <==> Moving(s', t)) && (BeingWoken(s, t) ==> BeingWoken(s', t))
  }

  lemma FrameGood(s: State, s': State, t: nat)
    requires s.current < |s.tasks| == |s'.tasks| && s'.current < |s'.tasks|
    requires SameFor(s, s', t) && t != s.current && Good(s, t)
    ensures Good(s', t)
  {
  }

  /** Senders stay senders while only the running task moves. */
  lemma SendersStay(s: State, s': State, p: nat)
    requires s.current < |s.tasks| && PcStep(s, s') && p < |s.ports|
    requires Sending(s, s.current, p) ==> Sending(s', s.current, p)
    ensures SomeSending(s, p) ==> SomeSending(s', p)
  {
    assert SamePort(s, s', p);
    if SomeSending(s, p) {
      var u :| Sending(s, u, p);
      assert Sending(s', u, p);
    }
  }

  /** The no-lost-wakeup condition of a task that is not the running one. */
  lemma NotLostKept(s: State, s': State, t: nat)
    requires s.current < |s.tasks| && PcStep(s, s') && t < |s.tasks| && t != s.current && NotLost(s, t)
    requires s.tasks[t].recvd <= s'.tasks[t].recvd
    requires forall p | 0 <= p < |s.ports| && s'.ports[p].msgs != [] ::
               && (s.ports[p].msgs == [] ==> Sending(s', s.current, p))
               && (Sending(s, s.current, p) ==>
                     Sending(s', s.current, p) || (s.ports[p].owner == t ==> s.ports[p].bit in s'.tasks[t].recvd))
    requires BackOk(s.tasks[t].pc, t, s.ports)
    ensures NotLost(s', t)
  {
    var pc := s.tasks[t].pc;
    if pc.Blocking() && pc.back.Some? {
      var p := pc.back.value;
      assert SamePort(s, s', p);
      if s'.ports[p].msgs != [] && s'.ports[p].bit !in s'.tasks[t].recvd {
        if s.ports[p].msgs == [] {
          assert Sending(s', s.current, p);
        } else {
          SendersStay(s, s', p);
        }
      }
    }
  }

  // ---- PutMsg --------------------------------------------------------------------------

  predicate InPut(pc: Pc) { pc.PutForbid? || pc.PutAdd? || pc.PutPermit? || pc.PutSignal? }

  ghost predicate Runs(s: State)
  {
    s.current < |s.tasks| && s.current != BOOT && InRange(s, Me(s).pc) && BackOk(Me(s).pc, s.current, s.ports)
    && s.forbid == (if Me(s).pc.Critical() then 1 else 0)
  }

  lemma RunsNow(s: State)
    requires Rest(s) && s.current != BOOT
    ensures Runs(s)
  {
  }

  lemma PutStep(s: State)
    requires Runs(s) && InPut(Me(s).pc) && forall p | 0 <= p < |s.ports| :: BOOT < s.ports[p].owner < |s.tasks|
    ensures PcStep(s, ExecPut(s))
  {
  }

  lemma PutKeeps(s: State)
    requires Inv(s) && s.current != BOOT && InPut(Me(s).pc)
    ensures Inv(ExecPut(s))
  {
    hide Lists, Locks, PcStep, SignalsOk, PlaceOk;
    RunsNow(s);
    var s' := ExecPut(s);
    PutStep(s);
    PcStepKeeps(s, s');
    PutLists(s);
    forall t | 0 <= t < |s'.tasks| ensures Good(s', t) && NotLost(s', t) {
      assert Good(s, t) && NotLost(s, t);
      PutGood(s, t);
      PutPort(s, t);
    }
  }

  lemma PutGood(s: State, t: nat)
    requires Runs(s) && InPut(Me(s).pc) && t < |s.tasks| && Good(s, t)
    ensures Good(ExecPut(s), t)
  {
  }

  lemma PutLists(s: State)
    requires Runs(s) && InPut(Me(s).pc) && Lists(s)
    ensures Lists(ExecPut(s))
  {
  }

  lemma PutPort(s: State, t: nat)
    requires Runs(s) && InPut(Me(s).pc) && t < |s.tasks| && NotLost(s, t) && PcStep(s, ExecPut(s))
    requires BackOk(s.tasks[t].pc, t, s.ports)
    ensures NotLost(ExecPut(s), t)
  {
    if t != s.current { NotLostKept(s, ExecPut(s), t); }
  }

  // ---- Signal --------------------------------------------------------------------------

  predicate InSignal(pc: Pc)
  {
    pc.SigForbid? || pc.SigPost? || pc.SigTest? || pc.SigReady? || pc.SigEnqueue? || pc.SigPermit?
  }

  lemma SignalStep(s: State)
    requires Runs(s) && InSignal(Me(s).pc)
    ensures PcStep(s, ExecSignal(s))
  {
    hide PcStep;
    var pc := Me(s).pc;
    if pc.SigForbid? || pc.SigPermit? { LockStep(s); }
    else if pc.SigPost? { PostStep(s); }
    else if pc.SigTest? { TestStep(s); }
    else { ReadyStep(s); }
  }

  lemma LockStep(s: State)
    requires Runs(s) && (Me(s).pc.SigForbid? || Me(s).pc.SigPermit?)
    ensures PcStep(s, ExecSignal(s))
  {
  }

  lemma PostStep(s: State)
    requires Runs(s) && Me(s).pc.SigPost?
    ensures PcStep(s, ExecSignal(s))
  {
  }

  lemma TestStep(s: State)
    requires Runs(s) && Me(s).pc.SigTest?
    ensures PcStep(s, ExecSignal(s))
  {
  }

  lemma ReadyStep(s: State)
    requires Runs(s) && (Me(s).pc.SigReady? || Me(s).pc.SigEnqueue?)
    ensures PcStep(s, ExecSignal(s))
  {
  }

  lemma SignalKeeps(s: State)
    requires Inv(s) && s.current != BOOT && InSignal(Me(s).pc)
    ensures Inv(ExecSignal(s))
  {
    hide Lists, Locks, PcStep, SignalsOk, PlaceOk;
    RunsNow(s);
    var s', pc := ExecSignal(s), Me(s).pc;
    SignalStep(s);
    PcStepKeeps(s, s');
    if pc.SigEnqueue? { assert Good(s, pc.x); }
    SignalLists(s);
    assert Good(s, s.current);
    SignalMover(s);
    forall t | 0 <= t < |s'.tasks| ensures Good(s', t) && NotLost(s', t) {
      assert Good(s, t) && NotLost(s, t);
      SignalGood(s, t);
      SignalPort(s, t);
    }
  }

  lemma SignalGood(s: State, t: nat)
    requires Runs(s) && InSignal(Me(s).pc) && t < |s.tasks| && Good(s, t)
    requires MoverOk(s) && Lists(s) && Locks(s)
    ensures Good(ExecSignal(s), t)
  {
    hide NoDup, Sorted, SignalsOk, PlaceOk;
    match Me(s).pc
    case SigForbid(x, _) => SigForbidGood(s, t);
    case SigPost(x, mask) => SigPostGood(s, t);
    case SigTest(x) => SigTestGood(s, t);
    case SigReady(x) => SigReadyGood(s, t);
    case SigEnqueue(x) => SigEnqueueGood(s, t);
    case SigPermit => SigForbidGood(s, t);
  }

  lemma SigForbidGood(s: State, t: nat)
    requires Runs(s) && t < |s.tasks| && Good(s, t)
    requires Me(s).pc.SigForbid? || Me(s).pc.SigPermit?
    ensures Good(ExecSignal(s), t)
  {
  }

  lemma SigPostGood(s: State, t: nat)
    requires Runs(s) && t < |s.tasks| && Good(s, t) && Me(s).pc.SigPost? && Locks(s)
    ensures Good(ExecSignal(s), t)
  {
  }

  lemma SigTestGood(s: State, t: nat)
    requires Runs(s) && t < |s.tasks| && Good(s, t) && Me(s).pc.SigTest? && NoDup(s.waiting)
    ensures Good(ExecSignal(s), t)
  {
    var x := Me(s).pc.x;
    if s.tasks[x].recvd * s.tasks[x].sigWait != {} && s.tasks[x].state == TS_WAIT {
      SigMovesGood(s, t);
    } else {
      SigSkipsGood(s, t);
    }
  }

  lemma SigMovesGood(s: State, t: nat)
    requires Runs(s) && t < |s.tasks| && Good(s, t) && Me(s).pc.SigTest? && NoDup(s.waiting)
    requires var x := Me(s).pc.x; s.tasks[x].recvd * s.tasks[x].sigWait != {} && s.tasks[x].state == TS_WAIT
    ensures Good(ExecSignal(s), t)
  {
    hide NoDup;
    WithoutMembers(s.waiting, Me(s).pc.x);
  }

  lemma SigSkipsGood(s: State, t: nat)
    requires Runs(s) && t < |s.tasks| && Good(s, t) && Me(s).pc.SigTest?
    requires var x := Me(s).pc.x; s.tasks[x].recvd * s.tasks[x].sigWait == {} || s.tasks[x].state != TS_WAIT
    ensures Good(ExecSignal(s), t)
  {
  }

  lemma SigReadyGood(s: State, t: nat)
    requires Runs(s) && t < |s.tasks| && Good(s, t) && Me(s).pc.SigReady? && MoverOk(s)
    ensures Good(ExecSignal(s), t)
  {
  }

  lemma SigEnqueueGood(s: State, t: nat)
    requires Runs(s) && t < |s.tasks| && Good(s, t) && Me(s).pc.SigEnqueue? && MoverOk(s)
    ensures Good(ExecSignal(s), t)
  {
    hide NoDup;
    EnqMembers(s.pri, s.ready, Me(s).pc.x);
  }

  lemma SignalMover(s: State)
    requires Runs(s) && InSignal(Me(s).pc) && MoverOk(s) && Good(s, s.current)
    ensures MoverOk(ExecSignal(s))
  {
  }

  lemma SignalLists(s: State)
    requires Runs(s) && InSignal(Me(s).pc) && Lists(s) && (Me(s).pc.SigEnqueue? ==> Good(s, Me(s).pc.x))
    ensures Lists(ExecSignal(s))
  {
    hide Sorted, NoDup;
    var pc := Me(s).pc;
    if pc.SigTest? { WithoutMembers(s.waiting, pc.x); }
    if pc.SigEnqueue? {
      EnqMembers(s.pri, s.ready, pc.x);
      EnqueueKeepsOrder(s.pri, s.ready, pc.x);
    }
  }

  lemma SignalPort(s: State, t: nat)
    requires Runs(s) && InSignal(Me(s).pc) && t < |s.tasks| && NotLost(s, t) && PcStep(s, ExecSignal(s))
    requires BackOk(s.tasks[t].pc, t, s.ports)
    ensures NotLost(ExecSignal(s), t)
  {
    if t != s.current { NotLostKept(s, ExecSignal(s), t); }
  }

  // ---- GetMsg and WaitPort -------------------------------------------------------------

  predicate InGet(pc: Pc) { pc.GetForbid? || pc.GetRemove? || pc.GetPermit? || pc.PortTest? || pc.PortPeek? }

  lemma GetStep(s: State)
    requires Runs(s) && InGet(Me(s).pc)
    ensures PcStep(s, ExecGet(s))
  {
    hide PcStep;
    if Me(s).pc.PortTest? || Me(s).pc.PortPeek? { PeekStep(s); } else { DequeueStep(s); }
  }

  lemma PeekStep(s: State)
    requires Runs(s) && (Me(s).pc.PortTest? || Me(s).pc.PortPeek?)
    ensures PcStep(s, ExecGet(s))
  {
  }

  lemma DequeueStep(s: State)
    requires Runs(s) && (Me(s).pc.GetForbid? || Me(s).pc.GetRemove? || Me(s).pc.GetPermit?)
    ensures PcStep(s, ExecGet(s))
  {
  }

  lemma GetKeeps(s: State)
    requires Inv(s) && s.current != BOOT && InGet(Me(s).pc)
    ensures Inv(ExecGet(s))
  {
    hide Lists, Locks, PcStep, SignalsOk, PlaceOk;
    RunsNow(s);
    var s' := ExecGet(s);
    GetStep(s);
    PcStepKeeps(s, s');
    GetLists(s);
    forall t | 0 <= t < |s'.tasks| ensures Good(s', t) && NotLost(s', t) {
      assert Good(s, t) && NotLost(s, t);
      GetGood(s, t);
      GetPort(s, t);
    }
  }

  lemma GetGood(s: State, t: nat)
    requires Runs(s) && InGet(Me(s).pc) && t < |s.tasks| && Good(s, t)
    ensures Good(ExecGet(s), t)
  {
    hide Good;
    if Me(s).pc.PortTest? || Me(s).pc.PortPeek? { PeekGood(s, t); } else { DequeueGood(s, t); }
  }

  lemma PeekGood(s: State, t: nat)
    requires Runs(s) && (Me(s).pc.PortTest? || Me(s).pc.PortPeek?) && t < |s.tasks| && Good(s, t)
    ensures Good(ExecGet(s), t)
  {
  }

  lemma DequeueGood(s: State, t: nat)
    requires Runs(s) && (Me(s).pc.GetForbid? || Me(s).pc.GetRemove? || Me(s).pc.GetPermit?) && t < |s.tasks|
               && Good(s, t)
    ensures Good(ExecGet(s), t)
  {
  }

  lemma GetLists(s: State)
    requires Runs(s) && InGet(Me(s).pc) && Lists(s)
    ensures Lists(ExecGet(s)) && MoverOk(ExecGet(s))
  {
  }

  lemma GetPort(s: State, t: nat)
    requires Runs(s) && InGet(Me(s).pc) && t < |s.tasks| && NotLost(s, t) && PcStep(s, ExecGet(s))
    requires BackOk(s.tasks[t].pc, t, s.ports)
    ensures NotLost(ExecGet(s), t)
  {
    if t != s.current { NotLostKept(s, ExecGet(s), t); }
  }

  // ---- Wait ----------------------------------------------------------------------------

  lemma WaitStep(s: State)
    requires Runs(s) && InWait(Me(s).pc)
    ensures PcStep(s, ExecWait(s))
  {
    hide PcStep;
    var pc := Me(s).pc;
    if pc.WaitForbid? || pc.WaitTest? || pc.WaitReforbid? { EnterStep(s); }
    else if pc.WaitMark? || pc.WaitState? || pc.WaitEnqueue? { BlockStep(s); }
    else if pc.WaitPermit? || pc.WaitSpin? { SpinStep(s); }
    else { WakeStep(s); }
  }

  lemma EnterStep(s: State)
    requires Runs(s) && (Me(s).pc.WaitForbid? || Me(s).pc.WaitTest? || Me(s).pc.WaitReforbid?)
    ensures PcStep(s, ExecWait(s))
  {
  }

  lemma BlockStep(s: State)
    requires Runs(s) && (Me(s).pc.WaitMark? || Me(s).pc.WaitState? || Me(s).pc.WaitEnqueue?)
    ensures PcStep(s, ExecWait(s))
  {
  }

  lemma SpinStep(s: State)
    requires Runs(s) && (Me(s).pc.WaitPermit? || Me(s).pc.WaitSpin?)
    ensures PcStep(s, ExecWait(s))
  {
  }

  lemma WakeStep(s: State)
    requires Runs(s) && (Me(s).pc.WaitTake? || Me(s).pc.WaitClear? || Me(s).pc.WaitReturn?)
    ensures PcStep(s, ExecWait(s))
  {
  }

  lemma WaitKeeps(s: State)
    requires Inv(s) && s.current != BOOT && InWait(Me(s).pc)
    ensures Inv(ExecWait(s))
  {
    hide Lists, Locks, PcStep, SignalsOk, PlaceOk;
    RunsNow(s);
    var s' := ExecWait(s);
    WaitStep(s);
    PcStepKeeps(s, s');
    assert Good(s, s.current);
    WaitLists(s);
    forall t | 0 <= t < |s'.tasks| ensures Good(s', t) && NotLost(s', t) {
      assert Good(s, t) && NotLost(s, t);
      if t == s.current { WaitSelf(s); } else { WaitOthers(s, t); }
    }
  }

  lemma WaitOthers(s: State, t: nat)
    requires Runs(s) && InWait(Me(s).pc) && t < |s.tasks| && t != s.current && Good(s, t) && NotLost(s, t)
    requires PcStep(s, ExecWait(s)) && BackOk(s.tasks[t].pc, t, s.ports)
    ensures Good(ExecWait(s), t) && NotLost(ExecWait(s), t)
  {
    WaitSpares(s, t);
    hide PcStep, Good, ExecWait;
    var s' := ExecWait(s);
    PcStepSize(s, s');
    FrameGood(s, s', t);
    NotLostKept(s, s', t);
  }

  lemma PcStepSize(s: State, s': State)
    requires s.current < |s.tasks| && PcStep(s, s')
    ensures |s'.tasks| == |s.tasks| && s'.current == s.current
  {
  }

  /** A statement of Wait changes nothing of another task, and no queue. */
  lemma WaitSpares(s: State, t: nat)
    requires Runs(s) && InWait(Me(s).pc) && t < |s.tasks| && t != s.current
    ensures |ExecWait(s).tasks| == |s.tasks| && s.current < |s.tasks|
    ensures SameFor(s, ExecWait(s), t) && ExecWait(s).ports == s.ports
    ensures forall p | 0 <= p < |s.ports| :: !Sending(s, s.current, p)
  {
    hide NoDup, Enq;
    if Me(s).pc.WaitEnqueue? { EnqMembers(s.pri, s.waiting, s.current); }
  }

  lemma WaitSelf(s: State)
    requires Runs(s) && InWait(Me(s).pc) && Good(s, s.current) && NotLost(s, s.current)
    requires PcStep(s, ExecWait(s))
    ensures Good(ExecWait(s), s.current) && NotLost(ExecWait(s), s.current)
  {
    EnqMembers(s.pri, s.waiting, s.current);
    var pc := Me(s).pc;
    if pc.Blocking() && pc.back.Some? { SendersStay(s, ExecWait(s), pc.back.value); }
  }

  lemma WaitLists(s: State)
    requires Runs(s) && InWait(Me(s).pc) && Lists(s) && Good(s, s.current)
    ensures Lists(ExecWait(s)) && MoverOk(ExecWait(s))
  {
    hide Sorted, NoDup;
    EnqMembers(s.pri, s.waiting, s.current);
  }

  // ---- calls and ticks -----------------------------------------------------------------

  lemma CallKeeps(s: State, c: Call)
    requires Inv(s) && s.current != BOOT && Me(s).pc.User? && Legal(s, c)
    ensures Inv(Go(s, Entry(c)))
  {
    hide Lists, Locks, PcStep, SignalsOk, PlaceOk;
    RunsNow(s);
    var s' := Go(s, Entry(c));
    CallStep(s, c);
    PcStepKeeps(s, s');
    CallLists(s, c);
    forall t | 0 <= t < |s'.tasks| ensures Good(s', t) && NotLost(s', t) {
      assert Good(s, t) && NotLost(s, t);
      CallGood(s, c, t);
      if t != s.current { NotLostKept(s, s', t); }
    }
  }

  lemma CallStep(s: State, c: Call)
    requires Runs(s) && Me(s).pc.User? && Legal(s, c)
    ensures PcStep(s, Go(s, Entry(c)))
  {
  }

  lemma CallLists(s: State, c: Call)
    requires Runs(s) && Me(s).pc.User? && Lists(s)
    ensures Lists(Go(s, Entry(c))) && MoverOk(Go(s, Entry(c)))
  {
  }

  lemma CallGood(s: State, c: Call, t: nat)
    requires Runs(s) && Me(s).pc.User? && t < |s.tasks| && Good(s, t)
    ensures Good(Go(s, Entry(c)), t)
  {
  }

  /** Every statement, and every legal call, keeps the invariant. */
  lemma ExecKeepsInv(s: State, c: Call)
    requires Inv(s)
    ensures Inv(Exec(s, c))
  {
    hide Good, NotLost, Lists, Locks, Backs, MoverOk;
    assert InRange(s, Me(s).pc);
    if s.current != BOOT {
      var pc := Me(s).pc;
      if pc.User? { if Legal(s, c) { CallKeeps(s, c); } }
      else if InPut(pc) { PutKeeps(s); }
      else if InSignal(pc) { SignalKeeps(s); }
      else if InGet(pc) { GetKeeps(s); }
      else { WaitKeeps(s); }
    }
  }

  /** A switch: the head of the ready list, with the preempted task put back, is dispatched; no
      task changes but in its state. */
  lemma SwitchedAt(s: State, t: nat)
    requires s.current < |s.tasks| && t < |s.tasks| && s.ready != [] && forall u | u in s.ready :: u < |s.tasks|
    ensures var q, s' := CoreSwitch(s).ready, ExitInterrupt(s);
            && q != [] && s' == s.(tasks := s'.tasks, ready := q[1..], current := q[0]) && |s'.tasks| == |s.tasks|
            && s'.tasks[t] == s.tasks[t].(state :=
                 if t == q[0] then TS_RUN
                 else if t == s.current && Me(s).state == TS_RUN then TS_READY
                 else s.tasks[t].state)
  {
    EnqMembers(s.pri, s.ready, s.current);
    assert CoreSwitch(s).ready[0] in CoreSwitch(s).ready;
  }

  /** A tick that switches leaves every program counter and signal word alone. */
  lemma SwitchShape(s: State)
    requires Inv(s) && s.forbid == 0 && s.ready != []
    ensures var s' := ExitInterrupt(s);
            && |s'.tasks| == |s.tasks| && s'.ports == s.ports && s'.forbid == 0 && s'.pri == s.pri && s'.on == s.on
            && BOOT < s'.current < |s'.tasks|
            && forall t | 0 <= t < |s.tasks| :: SamePc(s, s', t)
  {
    hide Good, NotLost, Backs, ExitInterrupt, CoreSwitch, Enq, Placed;
    assert Good(s, s.current);
    SwitchReady(s);
    var r := CoreSwitch(s);
    SwitchedAt(s, BOOT);
    assert r.ready[0] in r.ready;
    forall t | 0 <= t < |s.tasks| ensures SamePc(s, ExitInterrupt(s), t) {
      SwitchedAt(s, t);
    }
  }

  ghost predicate SamePc(s: State, s': State, t: nat)
    requires t < |s.tasks| == |s'.tasks|
  {
    && s'.tasks[t].pc == s.tasks[t].pc && s'.tasks[t].recvd == s.tasks[t].recvd
    && s'.tasks[t].sigWait == s.tasks[t].sigWait
  }

  lemma SwitchKeepsInv(s: State)
    requires Inv(s) && s.forbid == 0 && s.ready != []
    ensures Inv(ExitInterrupt(s))
  {
    var s' := ExitInterrupt(s);
    SwitchShape(s);
    assert Good(s, s.current);
    SwitchLists(s);
    SwitchStatic(s, s');
    forall t | 0 <= t < |s'.tasks| ensures Good(s', t) && NotLost(s', t) {
      assert Good(s, t) && NotLost(s, t) && SamePc(s, s', t);
      SwitchGood(s, t);
      SwitchNotLost(s, s', t);
    }
  }

  lemma SwitchNotLost(s: State, s': State, t: nat)
    requires t < |s.tasks| == |s'.tasks| && s'.ports == s.ports && NotLost(s, t)
    requires forall u | 0 <= u < |s.tasks| :: SamePc(s, s', u)
    ensures NotLost(s', t)
  {
    var pc := s.tasks[t].pc;
    assert SamePc(s, s', t);
    if pc.Blocking() && pc.back.Some? && pc.back.value < |s.ports| {
      var p := pc.back.value;
      if SomeSending(s, p) {
        var u :| Sending(s, u, p);
        assert SamePc(s, s', u);
        assert Sending(s', u, p);
      }
    }
  }

  lemma SwitchStatic(s: State, s': State)
    requires Inv(s) && s.forbid == 0
    requires |s'.tasks| == |s.tasks| && s'.ports == s.ports && s'.forbid == 0 && s'.current < |s'.tasks|
    requires forall u | 0 <= u < |s.tasks| :: SamePc(s, s', u)
    ensures Sized(s') && Locks(s') && Backs(s') && MoverOk(s')
  {
    hide Good, NotLost, Lists;
    forall t | 0 <= t < |s'.tasks|
      ensures InRange(s', s'.tasks[t].pc) && BackOk(s'.tasks[t].pc, t, s'.ports) && !s'.tasks[t].pc.Critical()
    {
      assert SamePc(s, s', t) && InRange(s, s.tasks[t].pc) && BackOk(s.tasks[t].pc, t, s.ports);
    }
    assert SamePc(s, s', BOOT);
  }

  predicate Requeued(s: State, t: nat)
    requires s.current < |s.tasks|
  {
    t == s.current && t != BOOT && Me(s).state == TS_RUN
  }

  /** The ready list as core_Dispatch finds it: the old one plus the preempted task, if it was
      still running. */
  lemma SwitchReady(s: State)
    requires Lists(s) && s.current < |s.tasks| && Good(s, s.current) && !Me(s).pc.Critical()
    ensures var q := CoreSwitch(s).ready;
            && NoDup(q) && Sorted(s.pri, q)
            && (forall x :: x in q <==> x in s.ready || Requeued(s, x))
  {
    hide NoDup, Sorted, SignalsOk;
    EnqMembers(s.pri, s.ready, s.current);
    EnqueueKeepsOrder(s.pri, s.ready, s.current);
  }

  lemma SwitchedTail(pri: nat -> int, q: seq<nat>)
    requires q != [] && NoDup(q) && Sorted(pri, q)
    ensures NoDup(q[1..]) && Sorted(pri, q[1..]) && q[0] in q
    ensures forall x :: x in q[1..] <==> x in q && x != q[0]
  {
    assert q == [q[0]] + q[1..];
  }

  lemma SwitchLists(s: State)
    requires Lists(s) && s.current < |s.tasks| && Good(s, s.current) && !Me(s).pc.Critical() && s.ready != []
    ensures Lists(ExitInterrupt(s))
  {
    hide NoDup, Sorted, Good;
    var r := CoreSwitch(s);
    SwitchReady(s);
    SwitchedTail(r.pri, r.ready);
  }

  /** Outside Forbid the running task is moving nothing and waking nobody. */
  lemma NothingMoves(s: State, t: nat)
    requires s.current < |s.tasks| && !Me(s).pc.Critical()
    ensures !Moving(s, t) && !BeingWoken(s, t)
  {
  }

  /** A change between running and ready says nothing about a task's place in Wait. */
  lemma SignalsKept(me: Tcb, state: TState)
    requires SignalsOk(me, false) && (me.state == TS_WAIT <==> state == TS_WAIT)
    ensures SignalsOk(me.(state := state), false)
  {
  }

  lemma SwitchGood(s: State, t: nat)
    requires Lists(s) && s.current < |s.tasks| && t < |s.tasks| && Good(s, s.current) && Good(s, t) && s.ready != []
    requires !Me(s).pc.Critical()
    requires var s' := ExitInterrupt(s); s'.current < |s'.tasks| && !Me(s').pc.Critical()
    requires s.current == BOOT ==> Me(s).state == TS_RUN
    requires forall u | u in s.ready :: Good(s, u)
    ensures Good(ExitInterrupt(s), t)
  {
    var r, s' := CoreSwitch(s), ExitInterrupt(s);
    SwitchReady(s);
    SwitchedAt(s, t);
    hide NoDup, Sorted, ExitInterrupt, CoreSwitch, Enq, SignalsOk, Moving, BeingWoken, Lists;
    SwitchedTail(r.pri, r.ready);
    NothingMoves(s, t);
    NothingMoves(s', t);
    NothingMoves(s, s.current);
    ReadyIsReady(s, r.ready[0]);
    SignalsKept(s.tasks[t], s'.tasks[t].state);
  }

  /** What waits on the ready list is ready, or is the task just preempted. */
  lemma ReadyIsReady(s: State, u: nat)
    requires s.current < |s.tasks| && !Me(s).pc.Critical() && Lists(s) && (u in s.ready || Requeued(s, u))
    requires forall v | v in s.ready :: v < |s.tasks| && Good(s, v)
    ensures BOOT < u < |s.tasks| && (s.tasks[u].state == TS_READY || (u == s.current && s.tasks[u].state == TS_RUN))
  {
    hide SignalsOk;
    NothingMoves(s, u);
  }

  lemma TickKeepsInv(s: State, last: bool)
    requires Inv(s)
    ensures Tick(s, last).on ==> Inv(Tick(s, last))
  {
    hide Good, NotLost, Lists, Locks, Backs, MoverOk;
    if s.on && s.forbid == 0 && !last && s.ready != [] { SwitchKeepsInv(s); }
  }

  /** Every statement and legal call is a program-counter step of the running task alone. */
  lemma ExecIsPcStep(s: State, c: Call)
    requires Inv(s) && s.current != BOOT && (Me(s).pc.User? ==> Legal(s, c))
    ensures PcStep(s, Exec(s, c))
  {
    hide PcStep, Good, NotLost, Lists, Backs, MoverOk;
    RunsNow(s);
    var pc := Me(s).pc;
    if pc.User? { CallStep(s, c); }
    else if InPut(pc) { PutStep(s); }
    else if InSignal(pc) { SignalStep(s); }
    else if InGet(pc) { GetStep(s); }
    else { WaitStep(s); }
  }
}
