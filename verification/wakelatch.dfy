/** The wake target: any number of waking threads and one waiting thread agree through a latch, a
    mutex and a self-pipe. Every action below is one statement of one thread. */
module WakeLatch {
  import opened Types

  datatype Thread = Waiter | Waker(k: nat)

  /** ps_wake: lock, test, set, write a byte, unlock. */
  datatype WakerPc = WIdle | WLock | WTest | WSet | WWrite | WUnlock

  /** ps_wait: lock, test, clear, drain, unlock; or unlock, select, and back to the lock. */
  datatype WaiterPc = Idle | Lock | Test | Clear | Drain | UnlockTaken | UnlockEmpty | Select | Returned(woken: bool)

  /** How select ends. It is ready only when the pipe holds a byte. */
  datatype Outcome = Ready | TimedOut | Interrupted | Failed

  datatype State = State(
    latched: bool, pipe: nat, holder: Option<Thread>, waiter: WaiterPc, wakers: seq<WakerPc>,
    woken: nat,       // ps_wake calls that have returned
    pending: nat,     // of those, the ones since the latch was last taken
    taken: nat,       // ps_wait calls that took it
    passes: nat, interrupts: nat, readable: bool)   // of the ps_wait call in progress

  datatype Action = WakerStep(k: nat) | WaiterStep(outcome: Outcome)

  function Init(n: nat): State
  {
    State(false, 0, None, Idle, seq(n, _ => WIdle), 0, 0, 0, 0, 0, false)
  }

  function StepWaker(s: State, k: nat): State
    requires k < |s.wakers|
  {
    match s.wakers[k]
    case WIdle => s.(wakers := s.wakers[k := WLock])
    case WLock => if s.holder.None? then s.(holder := Some(Waker(k)), wakers := s.wakers[k := WTest]) else s
    case WTest =>
      if s.latched then s.(wakers := s.wakers[k := WUnlock]) else s.(wakers := s.wakers[k := WSet])
    case WSet => s.(latched := true, wakers := s.wakers[k := WWrite])
    case WWrite => s.(pipe := s.pipe + 1, wakers := s.wakers[k := WUnlock])
    case WUnlock =>
      s.(holder := None, wakers := s.wakers[k := WIdle], woken := s.woken + 1, pending := s.pending + 1)
  }

  function StepWaiter(s: State, o: Outcome): State
  {
    match s.waiter
    case Idle => s.(waiter := Lock, passes := 0, interrupts := 0, readable := false)
    case Lock => if s.holder.None? then s.(holder := Some(Waiter), waiter := Test, passes := s.passes + 1) else s
    case Test => s.(waiter := if s.latched then Clear else UnlockEmpty)
    case Clear => s.(latched := false, waiter := Drain, pending := 0, taken := s.taken + 1)
    case Drain => s.(pipe := 0, waiter := UnlockTaken)
    case UnlockTaken => s.(holder := None, waiter := Returned(true))
    case UnlockEmpty => s.(holder := None, waiter := Select)
    case Select =>
      (match o
       case Ready => if s.pipe > 0 then s.(waiter := Lock, readable := true) else s
       case TimedOut => s.(waiter := Returned(false))
       case Interrupted => s.(waiter := Lock, interrupts := s.interrupts + 1)
       case Failed => s.(waiter := Returned(false)))
    case Returned(_) => s.(waiter := Idle, readable := false)
  }

  function Next(s: State, a: Action): State
  {
    match a
    case WakerStep(k) => if k < |s.wakers| then StepWaker(s, k) else s
    case WaiterStep(o) => StepWaiter(s, o)
  }

  // ---- the invariant -------------------------------------------------------------------

  predicate Inside(pc: WakerPc) { !pc.WIdle? && !pc.WLock? }

  predicate WaiterInside(pc: WaiterPc)
  {
    pc.Test? || pc.Clear? || pc.Drain? || pc.UnlockTaken? || pc.UnlockEmpty?
  }

  /** The mutex is held by exactly the thread between lock and unlock. */
  ghost predicate Mutex(s: State)
  {
    && (WaiterInside(s.waiter) <==> s.holder == Some(Waiter))
    && (forall k | 0 <= k < |s.wakers| :: Inside(s.wakers[k]) <==> s.holder == Some(Waker(k)))
    && (s.holder.Some? && s.holder.value.Waker? ==> s.holder.value.k < |s.wakers|)
  }

  /** The waker that has set the latch and not yet written its byte. */
  predicate Writing(s: State)
  {
    match s.holder
    case Some(Waker(k)) => k < |s.wakers| && s.wakers[k].WWrite?
    case _ => false
  }

  /** One byte in the pipe for a set latch, but for the two statements that bring them in step. */
  ghost predicate PipeOk(s: State)
  {
    && s.pipe == (if (s.latched && !Writing(s)) || s.waiter.Drain? then 1 else 0)
    && (Writing(s) || s.waiter.Clear? ==> s.latched)
    && (s.waiter.Drain? || s.waiter.UnlockTaken? ==> !s.latched)
    && (forall k | 0 <= k < |s.wakers| && s.wakers[k].WSet? :: !s.latched)
    && (forall k | 0 <= k < |s.wakers| && s.wakers[k].WUnlock? :: s.latched)
  }

  /** A waker has set or found the latch and is about to return. */
  predicate Returning(s: State)
  {
    match s.holder
    case Some(Waker(k)) => k < |s.wakers| && (s.wakers[k].WWrite? || s.wakers[k].WUnlock?)
    case _ => false
  }

  /** Wakes that have returned since the latch was last taken. */
  ghost predicate CountsOk(s: State)
  {
    (s.latched <==> s.pending > 0 || Returning(s)) && s.taken + s.pending <= s.woken
  }

  /** Passes of the call in progress. */
  ghost predicate PassesOk(s: State)
  {
    && (s.readable && (s.waiter.Lock? || s.waiter.Test? || s.waiter.Clear?) ==> s.latched)
    && (s.readable ==> !s.waiter.Idle? && !s.waiter.UnlockEmpty? && !s.waiter.Select? && s.waiter != Returned(false))
    && (s.waiter.Lock? ==> s.passes == s.interrupts + (if s.readable then 1 else 0))
    && (WaiterInside(s.waiter) || s.waiter.Select? ==> s.passes == s.interrupts + (if s.readable then 2 else 1))
    && (s.waiter.Returned? ==> s.passes <= s.interrupts + 2)
  }

  ghost predicate Inv(s: State)
  {
    Mutex(s) && PipeOk(s) && CountsOk(s) && PassesOk(s)
  }

  lemma WakerMutex(s: State, k: nat)
    requires Mutex(s) && k < |s.wakers|
    ensures Mutex(StepWaker(s, k))
  {
    var s' := StepWaker(s, k);
    assert Inside(s.wakers[k]) <==> s.holder == Some(Waker(k));
    forall j | 0 <= j < |s'.wakers| ensures Inside(s'.wakers[j]) <==> s'.holder == Some(Waker(j)) {
      assert Inside(s.wakers[j]) <==> s.holder == Some(Waker(j));
    }
  }

  lemma WakerPipe(s: State, k: nat)
    requires Mutex(s) && PipeOk(s) && k < |s.wakers|
    ensures PipeOk(StepWaker(s, k))
  {
    var s' := StepWaker(s, k);
    assert Inside(s.wakers[k]) <==> s.holder == Some(Waker(k));
    forall j | 0 <= j < |s'.wakers|
      ensures (s'.wakers[j].WSet? ==> !s'.latched) && (s'.wakers[j].WUnlock? ==> s'.latched)
    {
      assert Inside(s.wakers[j]) <==> s.holder == Some(Waker(j));
    }
  }

  lemma WakerCounts(s: State, k: nat)
    requires Mutex(s) && PipeOk(s) && CountsOk(s) && PassesOk(s) && k < |s.wakers|
    ensures CountsOk(StepWaker(s, k)) && PassesOk(StepWaker(s, k))
  {
    assert Inside(s.wakers[k]) <==> s.holder == Some(Waker(k));
  }

  lemma WakerKeepsInv(s: State, k: nat)
    requires Inv(s) && k < |s.wakers|
    ensures Inv(StepWaker(s, k))
  {
    hide StepWaker, Mutex, PipeOk, CountsOk, PassesOk;
    WakerMutex(s, k);
    WakerPipe(s, k);
    WakerCounts(s, k);
  }

  lemma WaiterMutex(s: State, o: Outcome)
    requires Mutex(s)
    ensures Mutex(StepWaiter(s, o))
  {
    var s' := StepWaiter(s, o);
    forall j | 0 <= j < |s'.wakers| ensures Inside(s'.wakers[j]) <==> s'.holder == Some(Waker(j)) {
      assert Inside(s.wakers[j]) <==> s.holder == Some(Waker(j));
    }
  }

  lemma WaiterPipe(s: State, o: Outcome)
    requires Mutex(s) && PipeOk(s)
    ensures PipeOk(StepWaiter(s, o))
  {
    var s' := StepWaiter(s, o);
    forall j | 0 <= j < |s'.wakers|
      ensures (s'.wakers[j].WSet? ==> !s'.latched) && (s'.wakers[j].WUnlock? ==> s'.latched)
    {
      assert Inside(s.wakers[j]) <==> s.holder == Some(Waker(j));
    }
  }

  lemma WaiterCounts(s: State, o: Outcome)
    requires Mutex(s) && PipeOk(s) && CountsOk(s) && PassesOk(s)
    ensures CountsOk(StepWaiter(s, o)) && PassesOk(StepWaiter(s, o))
  {
  }

  lemma WaiterKeepsInv(s: State, o: Outcome)
    requires Inv(s)
    ensures Inv(StepWaiter(s, o))
  {
    hide StepWaiter, Mutex, PipeOk, CountsOk, PassesOk;
    WaiterMutex(s, o);
    WaiterPipe(s, o);
    WaiterCounts(s, o);
  }

  lemma NextKeepsInv(s: State, a: Action)
    requires Inv(s)
    ensures Inv(Next(s, a))
  {
    match a
    case WakerStep(k) => if k < |s.wakers| { WakerKeepsInv(s, k); }
    case WaiterStep(o) => WaiterKeepsInv(s, o);
  }

  // ---- whole runs ----------------------------------------------------------------------

  function Run(s: State, actions: seq<Action>): State
    decreases |actions|
  {
    if actions == [] then s else Run(Next(s, actions[0]), actions[1..])
  }

  lemma {:induction false} RunKeepsInv(s: State, actions: seq<Action>)
    requires Inv(s)
    ensures Inv(Run(s, actions))
    decreases |actions|
  {
    hide Inv, Next;
    if actions == [] {
    } else {
      NextKeepsInv(s, actions[0]);
      RunKeepsInv(Next(s, actions[0]), actions[1..]);
    }
  }

  lemma InitInv(n: nat)
    ensures Inv(Init(n))
  {
  }

  /** In any interleaving: whenever the mutex is free the latch is set exactly when the pipe holds
      one byte, and the pipe never holds more than one. */
  lemma LatchIsPipe(n: nat, actions: seq<Action>)
    ensures var s := Run(Init(n), actions);
            s.pipe <= 1 && (s.holder.None? ==> (s.latched <==> s.pipe == 1))
  {
    hide Next;
    InitInv(n);
    RunKeepsInv(Init(n), actions);
  }

  /** In any interleaving: no wake is lost. A ps_wake about to return leaves the latch set; it is
      set as long as some ps_wake has returned since it was last taken, a timeout included; any
      number of them are taken by one ps_wait, and no ps_wait succeeds without one of its own. */
  lemma WakesCoalesceNoneLost(n: nat, actions: seq<Action>)
    ensures var s := Run(Init(n), actions);
            && (forall k | 0 <= k < |s.wakers| && s.wakers[k].WUnlock? :: s.latched)
            && (s.pending > 0 ==> s.latched) && (s.latched && s.holder.None? ==> s.pending > 0)
            && s.taken + s.pending <= s.woken
  {
    hide Next;
    InitInv(n);
    RunKeepsInv(Init(n), actions);
  }

  /** In any interleaving: a ps_wait call makes at most two passes over the latch, one more for
      each EINTR; and once select has found the pipe readable the latch is there to be taken. */
  lemma AtMostTwoPasses(n: nat, actions: seq<Action>)
    ensures var s := Run(Init(n), actions);
            && (s.waiter != Idle ==> s.passes <= s.interrupts + 2)
            && (s.readable && s.waiter.Test? ==> s.latched)
            && (s.readable && s.waiter.Returned? ==> s.waiter.woken)
  {
    hide Next;
    InitInv(n);
    RunKeepsInv(Init(n), actions);
  }

  // ---- one call at a time --------------------------------------------------------------

  function Repeat(a: Action, n: nat): seq<Action>
  {
    if n == 0 then [] else [a] + Repeat(a, n - 1)
  }

  lemma Again(s: State, a: Action, n: nat)
    ensures Run(s, Repeat(a, n + 1)) == Run(Next(s, a), Repeat(a, n)) && Run(s, Repeat(a, 0)) == s
  {
    hide Next;
    assert Repeat(a, n + 1)[1..] == Repeat(a, n);
  }

  /** A whole ps_wake with the mutex free: the latch is set and the pipe holds one byte, whether
      it was the first to wake or not. */
  lemma WakeAlone(s: State, k: nat)
    requires Inv(s) && s.holder.None? && k < |s.wakers| && s.wakers[k].WIdle?
    ensures var t := Run(s, Repeat(WakerStep(k), if s.latched then 4 else 6));
            t == s.(latched := true, pipe := 1, woken := s.woken + 1, pending := s.pending + 1)
  {
    hide Run, Repeat, Inv;
    LatchAgrees(s);
    var a := WakerStep(k);
    var s1 := Next(s, a);
    var s2 := Next(s1, a);
    var s3 := Next(s2, a);
    var s4 := Next(s3, a);
    var s5 := Next(s4, a);
    var s6 := Next(s5, a);
    if s.latched {
      Four(s, a, 0);
      Again(s4, a, 0);
    } else {
      Four(s, a, 2);
      Again(s4, a, 1);
      Again(s5, a, 0);
      Again(s6, a, 0);
    }
  }

  lemma Four(s: State, a: Action, n: nat)
    ensures Run(s, Repeat(a, n + 4)) == Run(Next(Next(Next(Next(s, a), a), a), a), Repeat(a, n))
  {
    hide Next;
    Again(s, a, n + 3);
    Again(Next(s, a), a, n + 2);
    Again(Next(Next(s, a), a), a, n + 1);
    Again(Next(Next(Next(s, a), a), a), a, n);
  }

  lemma LatchAgrees(s: State)
    requires Inv(s) && s.holder.None?
    ensures s.pipe == if s.latched then 1 else 0
    ensures s.latched <==> s.pending > 0
  {
  }

  /** A pending wake is there for the next ps_wait, whatever the last one returned: from its lock
      on, the waiter alone takes it in five statements. */
  lemma PendingWakeIsTaken(s: State, o: Outcome)
    requires Inv(s) && s.waiter.Lock? && s.holder.None? && s.pending > 0
    ensures Run(s, Repeat(WaiterStep(o), 5)) ==
            s.(waiter := Returned(true), latched := false, pipe := 0, pending := 0, taken := s.taken + 1,
               passes := s.passes + 1)
  {
    hide Run, Repeat, Inv;
    LatchAgrees(s);
    var a := WaiterStep(o);
    Four(s, a, 1);
    var s4 := Next(Next(Next(Next(s, a), a), a), a);
    Again(s4, a, 0);
    Again(Next(s4, a), a, 0);
  }

  /** With no wake pending the next ps_wait, the first or one after another has returned, goes to
      sleep in select, having changed nothing. */
  lemma NothingPendingSleeps(s: State, o: Outcome)
    requires Inv(s) && (s.waiter.Idle? || s.waiter.Returned?) && s.holder.None? && s.pending == 0
    ensures Run(s, Repeat(WaiterStep(o), if s.waiter.Idle? then 4 else 5)) ==
            s.(waiter := Select, passes := 1, interrupts := 0, readable := false)
  {
    hide Run, Repeat, Inv;
    LatchAgrees(s);
    var a := WaiterStep(o);
    var idle := if s.waiter.Idle? then s else Next(s, a);
    if s.waiter.Returned? { Again(s, a, 4); }
    Four(idle, a, 0);
    Again(Next(Next(Next(Next(idle, a), a), a), a), a, 0);
  }

  /** A ps_wait asleep in select is woken by any ps_wake, and returns that it was. */
  lemma SleeperIsWoken(s: State, k: nat)
    requires Inv(s) && s.waiter.Select? && s.holder.None? && k < |s.wakers| && s.wakers[k].WIdle?
    ensures var w := Run(s, Repeat(WakerStep(k), if s.latched then 4 else 6));
            var t := Run(w, Repeat(WaiterStep(Ready), 6));
            t.waiter == Returned(true) && t.pending == 0 && t.taken == s.taken + 1 && !t.latched && t.pipe == 0
  {
    hide Run, Repeat, Inv;
    var steps := Repeat(WakerStep(k), if s.latched then 4 else 6);
    RunKeepsInv(s, steps);
    WakeAlone(s, k);
    PendingEndsSleep(Run(s, steps));
  }

  lemma PendingEndsSleep(s: State)
    requires Inv(s) && s.waiter.Select? && s.holder.None? && s.pipe == 1 && s.pending > 0
    ensures var t := Run(s, Repeat(WaiterStep(Ready), 6));
            t.waiter == Returned(true) && t.pending == 0 && t.taken == s.taken + 1 && !t.latched && t.pipe == 0
  {
    hide Run, Repeat, Inv;
    Again(s, WaiterStep(Ready), 5);
    NextKeepsInv(s, WaiterStep(Ready));
    PendingWakeIsTaken(Next(s, WaiterStep(Ready)), Ready);
  }

  /** Without one it returns on a timeout or an error that it was not, and starts over on EINTR. */
  lemma SleeperGivesUp(s: State)
    requires Inv(s) && s.waiter.Select? && s.holder.None? && s.pending == 0
    ensures Next(s, WaiterStep(TimedOut)) == Next(s, WaiterStep(Failed)) == s.(waiter := Returned(false))
    ensures Next(s, WaiterStep(Interrupted)) == s.(waiter := Lock, interrupts := s.interrupts + 1)
    ensures Next(s, WaiterStep(Ready)) == s
  {
    LatchAgrees(s);
  }
}
