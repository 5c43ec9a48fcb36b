/** The ping-pong of the Wait/Signal demonstration: a producer and a consumer exchanging two
    signal bits, beside a task that only burns time. */
module PingPong {
  import opened Kernel
  import opened KernelInv
  import opened KernelCalls
  import KernelRuns
  import opened Types

  const PRODUCER: nat := 1
  const CONSUMER: nat := 2
  const TASKS: nat := 3
  const DATA: nat := 0
  const ACK: nat := 1

  /** The next user-level statement of each program; a call's statement is its return. */
  datatype ProducerPc = PSignal | PCount | PWait
  datatype ConsumerPc = CWait | CCount | CSignal

  datatype Sys = Sys(k: State, producer: ProducerPc, consumer: ConsumerPc, produced: int, consumed: int)

  function Init(): Sys
  {
    Sys(KernelRuns.Init(_ => 0, TASKS, []), PSignal, CWait, 0, 0)
  }

  datatype Action = Statement | Timer(last: bool)

  function ProducerCall(u: ProducerPc): Option<Call>
  {
    match u
    case PSignal => Some(Signal(CONSUMER, {DATA}))
    case PCount => None
    case PWait => Some(Wait({ACK}))
  }

  function ConsumerCall(u: ConsumerPc): Option<Call>
  {
    match u
    case CWait => Some(Wait({DATA}))
    case CCount => None
    case CSignal => Some(Signal(PRODUCER, {ACK}))
  }

  function ProducerUser(d: Sys): Sys
  {
    match d.producer
    case PSignal => d.(producer := PCount)
    case PCount => d.(producer := PWait, produced := d.produced + 1)
    case PWait => d.(producer := PSignal)
  }

  function ConsumerUser(d: Sys): Sys
  {
    match d.consumer
    case CWait => d.(consumer := CCount)
    case CCount => d.(consumer := CSignal, consumed := d.consumed + 1)
    case CSignal => d.(consumer := CWait)
  }

  ghost predicate Live(d: Sys)
  {
    d.k.on ==> KernelInv.Inv(d.k)
  }

  /** One statement of whichever task is running, or one tick. */
  ghost function Next(d: Sys, a: Action): Sys
    requires Live(d)
  {
    if !d.k.on then d else
    match a
    case Timer(last) => d.(k := Tick(d.k, last))
    case Statement =>
      var t, pc := d.k.current, Me(d.k).pc;
      if t == PRODUCER && pc.User? then
        (match ProducerCall(d.producer)
         case Some(c) => if Legal(d.k, c) then ProducerUser(d).(k := Exec(d.k, c)) else d
         case None => ProducerUser(d))
      else if t == CONSUMER && pc.User? then
        (match ConsumerCall(d.consumer)
         case Some(c) => if Legal(d.k, c) then ConsumerUser(d).(k := Exec(d.k, c)) else d
         case None => ConsumerUser(d))
      else if pc.User? then d
      else d.(k := Exec(d.k, Wait({})))
  }

  // ---- the token -----------------------------------------------------------------------

  /** In Signal(x, mask), with the bit not yet posted. */
  predicate Unposted(pc: Pc, x: nat, mask: Mask)
  {
    pc == SigForbid(x, mask) || pc == SigPost(x, mask)
  }

  predicate Posted(pc: Pc)
  {
    InSignal(pc) && !pc.SigForbid? && !pc.SigPost?
  }

  /** In Wait(mask), with the bit not yet taken. */
  predicate Untaken(pc: Pc, mask: Mask)
  {
    InWait(pc) && !pc.WaitReturn? && pc.mask == mask && pc.back.None?
  }

  predicate Taken(pc: Pc, mask: Mask)
  {
    pc.User? || (pc.WaitReturn? && pc.mask == mask && pc.back.None?)
  }

  predicate ProducerAt(u: ProducerPc, pc: Pc)
  {
    match u
    case PSignal => Untaken(pc, {ACK}) || Taken(pc, {ACK})
    case PCount => Unposted(pc, CONSUMER, {DATA}) || Posted(pc) || pc.User?
    case PWait => pc.User?
  }

  predicate ConsumerAt(u: ConsumerPc, pc: Pc)
  {
    match u
    case CCount => Untaken(pc, {DATA}) || Taken(pc, {DATA})
    case CWait => Unposted(pc, PRODUCER, {ACK}) || Posted(pc) || pc.User?
    case CSignal => pc.User?
  }

  /** The producer has the turn: it has taken the ACK, or never needed one, and not yet posted DATA. */
  predicate ProducerHolds(u: ProducerPc, pc: Pc)
  {
    (u.PSignal? && Taken(pc, {ACK})) || (u.PCount? && Unposted(pc, CONSUMER, {DATA}))
  }

  predicate ConsumerHolds(u: ConsumerPc, pc: Pc)
  {
    (u.CCount? && Taken(pc, {DATA})) || u.CSignal? || (u.CWait? && Unposted(pc, PRODUCER, {ACK}))
  }

  datatype Where = AtProducer | DataBit | AtConsumer | AckBit

  ghost predicate Shape(d: Sys)
  {
    && |d.k.tasks| == TASKS + 1 && |d.k.ports| == 0
    && forall t | 0 <= t <= TASKS && t != PRODUCER && t != CONSUMER :: d.k.tasks[t].pc.User?
  }

  function Locate(d: Sys): Where
    requires |d.k.tasks| > CONSUMER
  {
    if DATA in d.k.tasks[CONSUMER].recvd then DataBit
    else if ACK in d.k.tasks[PRODUCER].recvd then AckBit
    else if ProducerHolds(d.producer, d.k.tasks[PRODUCER].pc) then AtProducer
    else AtConsumer
  }

  /** The one token: the DATA bit, the ACK bit, or one of the two program counters. */
  ghost predicate OneToken(d: Sys)
    requires Shape(d)
  {
    var w := Locate(d);
    && d.k.tasks[CONSUMER].recvd == (if w.DataBit? then {DATA} else {})
    && d.k.tasks[PRODUCER].recvd == (if w.AckBit? then {ACK} else {})
    && (ProducerHolds(d.producer, d.k.tasks[PRODUCER].pc) <==> w.AtProducer?)
    && (ConsumerHolds(d.consumer, d.k.tasks[CONSUMER].pc) <==> w.AtConsumer?)
  }

  /** How far the producer's count is ahead, by where the token is. */
  function Lead(d: Sys): int
    requires |d.k.tasks| > CONSUMER
  {
    match Locate(d)
    case AtProducer => 0
    case DataBit => if d.producer.PCount? then 0 else 1
    case AtConsumer => (if d.producer.PCount? then 0 else 1) - (if d.consumer.CCount? then 0 else 1)
    case AckBit => if d.producer.PCount? then -1 else 0
  }

  ghost predicate Programs(d: Sys)
    requires Shape(d)
  {
    && ProducerAt(d.producer, d.k.tasks[PRODUCER].pc) && ConsumerAt(d.consumer, d.k.tasks[CONSUMER].pc)
    && OneToken(d) && d.produced - d.consumed == Lead(d)
  }

  ghost predicate Inv(d: Sys)
  {
    Live(d) && Shape(d) && Programs(d)
  }

  // ---- every step keeps it -------------------------------------------------------------

  lemma TimerKeeps(d: Sys, last: bool)
    requires Inv(d) && d.k.on
    ensures Inv(Next(d, Timer(last)))
  {
    hide KernelInv.Inv, Programs, SamePc;
    TimerStep(d.k, last);
    var d' := Next(d, Timer(last));
    forall t | 0 <= t < |d.k.tasks|
      ensures d'.k.tasks[t].pc == d.k.tasks[t].pc && d'.k.tasks[t].recvd == d.k.tasks[t].recvd
    {
      WordsOfSame(d.k, d'.k, t);
    }
    SamePrograms(d, d');
  }

  lemma WordsOfSame(s: State, s': State, t: nat)
    requires t < |s.tasks| == |s'.tasks| && SamePc(s, s', t)
    ensures s'.tasks[t].pc == s.tasks[t].pc && s'.tasks[t].recvd == s.tasks[t].recvd
  {
  }

  lemma SamePrograms(d: Sys, d': Sys)
    requires Shape(d) && Programs(d)
    requires d' == d.(k := d'.k) && d'.k.ports == d.k.ports && |d'.k.tasks| == |d.k.tasks|
    requires forall t | 0 <= t < |d.k.tasks| ::
               d'.k.tasks[t].pc == d.k.tasks[t].pc && d'.k.tasks[t].recvd == d.k.tasks[t].recvd
    ensures Shape(d') && Programs(d')
  {
  }

  lemma ShapeKept(d: Sys, d': Sys)
    requires Shape(d) && d.k.current < |d.k.tasks| && PcStep(d.k, d'.k)
    requires d.k.current == PRODUCER || d.k.current == CONSUMER
    ensures Shape(d')
    ensures d.k.current == PRODUCER ==> d'.k.tasks[CONSUMER].pc == d.k.tasks[CONSUMER].pc
    ensures d.k.current == CONSUMER ==> d'.k.tasks[PRODUCER].pc == d.k.tasks[PRODUCER].pc
  {
  }

  lemma Running(s: State)
    requires KernelInv.Inv(s)
    ensures s.current < |s.tasks| && InRange(s, Me(s).pc)
    ensures Me(s).pc.WaitClear? ==> Me(s).recvd * Me(s).pc.mask != {}
  {
    assert Good(s, s.current);
  }

  /** A statement inside Signal or Wait, of either task. */
  lemma KernelStatement(d: Sys)
    requires Inv(d) && d.k.on && d.k.current < |d.k.tasks| && !Me(d.k).pc.User?
    requires d.k.current == PRODUCER || d.k.current == CONSUMER
    ensures Inv(Next(d, Statement))
  {
    hide KernelInv.Inv, Exec, PcStep, Locate, Lead;
    Running(d.k);
    var c := Wait({});
    StepKeeps(d.k, c);
    var d' := Next(d, Statement);
    ShapeKept(d, d');
    if InSignal(Me(d.k).pc) {
      SignalCallStep(d.k, c);
      if d.k.current == PRODUCER { ProducerPosts(d, d'); } else { ConsumerPosts(d, d'); }
    } else {
      WaitCallStep(d.k, c);
      if d.k.current == PRODUCER { ProducerWaits(d, d'); } else { ConsumerWaits(d, d'); }
    }
  }

  /** Only the kernel state changed, and in it one task moved through a call. */
  ghost predicate Moved(d: Sys, d': Sys, me: nat, other: nat)
    requires Shape(d) && Shape(d') && me <= TASKS && other <= TASKS
  {
    d' == d.(k := d'.k) && d'.k.tasks[other].pc == d.k.tasks[other].pc
  }

  lemma ProducerPosts(d: Sys, d': Sys)
    requires Shape(d) && Shape(d') && Programs(d) && Moved(d, d', PRODUCER, CONSUMER)
    requires var pc, pc' := d.k.tasks[PRODUCER].pc, d'.k.tasks[PRODUCER].pc;
             && InSignal(pc) && (pc' == User(Done) || InSignal(pc'))
             && (pc.SigForbid? ==> pc' == SigPost(pc.x, pc.mask))
             && (!pc.SigForbid? ==> !pc'.SigForbid? && !pc'.SigPost?)
             && d'.k.tasks[PRODUCER].recvd == d.k.tasks[PRODUCER].recvd
             && d'.k.tasks[CONSUMER].recvd ==
                if pc.SigPost? then d.k.tasks[CONSUMER].recvd + {DATA} else d.k.tasks[CONSUMER].recvd
    ensures Programs(d')
  {
  }

  lemma ConsumerPosts(d: Sys, d': Sys)
    requires Shape(d) && Shape(d') && Programs(d) && Moved(d, d', CONSUMER, PRODUCER)
    requires var pc, pc' := d.k.tasks[CONSUMER].pc, d'.k.tasks[CONSUMER].pc;
             && InSignal(pc) && (pc' == User(Done) || InSignal(pc'))
             && (pc.SigForbid? ==> pc' == SigPost(pc.x, pc.mask))
             && (!pc.SigForbid? ==> !pc'.SigForbid? && !pc'.SigPost?)
             && d'.k.tasks[CONSUMER].recvd == d.k.tasks[CONSUMER].recvd
             && d'.k.tasks[PRODUCER].recvd ==
                if pc.SigPost? then d.k.tasks[PRODUCER].recvd + {ACK} else d.k.tasks[PRODUCER].recvd
    ensures Programs(d')
  {
  }

  lemma ProducerWaits(d: Sys, d': Sys)
    requires Shape(d) && Shape(d') && Programs(d) && Moved(d, d', PRODUCER, CONSUMER)
    requires var pc, pc' := d.k.tasks[PRODUCER].pc, d'.k.tasks[PRODUCER].pc;
             && InWait(pc)
             && (if pc.WaitReturn? then pc' == User(Received(pc.got))
                 else InWait(pc') && pc'.mask == pc.mask && pc'.back.None?)
             && (pc'.WaitReturn? <==> pc.WaitClear?)
             && (pc.WaitClear? ==> d.k.tasks[PRODUCER].recvd * pc.mask != {})
             && d'.k.tasks[CONSUMER].recvd == d.k.tasks[CONSUMER].recvd
             && d'.k.tasks[PRODUCER].recvd ==
                if pc.WaitClear? then d.k.tasks[PRODUCER].recvd - pc.mask else d.k.tasks[PRODUCER].recvd
    ensures Programs(d')
  {
  }

  lemma ConsumerWaits(d: Sys, d': Sys)
    requires Shape(d) && Shape(d') && Programs(d) && Moved(d, d', CONSUMER, PRODUCER)
    requires var pc, pc' := d.k.tasks[CONSUMER].pc, d'.k.tasks[CONSUMER].pc;
             && InWait(pc)
             && (if pc.WaitReturn? then pc' == User(Received(pc.got))
                 else InWait(pc') && pc'.mask == pc.mask && pc'.back.None?)
             && (pc'.WaitReturn? <==> pc.WaitClear?)
             && (pc.WaitClear? ==> d.k.tasks[CONSUMER].recvd * pc.mask != {})
             && d'.k.tasks[PRODUCER].recvd == d.k.tasks[PRODUCER].recvd
             && d'.k.tasks[CONSUMER].recvd ==
                if pc.WaitClear? then d.k.tasks[CONSUMER].recvd - pc.mask else d.k.tasks[CONSUMER].recvd
    ensures Programs(d')
  {
  }

  /** A statement of either program itself. */
  lemma UserStatement(d: Sys)
    requires Inv(d) && d.k.on && d.k.current < |d.k.tasks| && Me(d.k).pc.User?
    requires d.k.current == PRODUCER || d.k.current == CONSUMER
    ensures Inv(Next(d, Statement))
  {
    hide KernelInv.Inv, Exec, PcStep, Locate, Lead, Programs;
    Running(d.k);
    var d' := Next(d, Statement);
    var call := if d.k.current == PRODUCER then ProducerCall(d.producer) else ConsumerCall(d.consumer);
    match call
    case None => Counts(d);
    case Some(c) =>
      StepKeeps(d.k, c);
      ShapeKept(d, d');
      CallBegins(d.k, c);
      CallKeepsWords(d.k, c);
      if d.k.current == PRODUCER { ProducerCalls(d, d'); } else { ConsumerCalls(d, d'); }
  }

  lemma CallKeepsWords(s: State, c: Call)
    requires s.current < |s.tasks| && s.current != BOOT && Me(s).pc.User? && Legal(s, c)
    ensures var s' := Exec(s, c);
            |s'.tasks| == |s.tasks| && forall t | 0 <= t < |s.tasks| :: s'.tasks[t].recvd == s.tasks[t].recvd
  {
  }

  lemma Counts(d: Sys)
    requires Shape(d) && Programs(d)
    ensures d.producer.PCount? && d.k.tasks[PRODUCER].pc.User? ==> Programs(ProducerUser(d))
    ensures d.consumer.CCount? && d.k.tasks[CONSUMER].pc.User? ==> Programs(ConsumerUser(d))
  {
  }

  lemma ProducerCalls(d: Sys, d': Sys)
    requires Shape(d) && Shape(d') && Programs(d) && ProducerCall(d.producer).Some? && d.k.tasks[PRODUCER].pc.User?
    requires d' == ProducerUser(d).(k := d'.k) && d'.k.tasks[PRODUCER].pc == Entry(ProducerCall(d.producer).value)
    requires d'.k.tasks[CONSUMER].pc == d.k.tasks[CONSUMER].pc
    requires forall t | 0 <= t <= TASKS :: d'.k.tasks[t].recvd == d.k.tasks[t].recvd
    ensures Programs(d')
  {
  }

  lemma ConsumerCalls(d: Sys, d': Sys)
    requires Shape(d) && Shape(d') && Programs(d) && ConsumerCall(d.consumer).Some? && d.k.tasks[CONSUMER].pc.User?
    requires d' == ConsumerUser(d).(k := d'.k) && d'.k.tasks[CONSUMER].pc == Entry(ConsumerCall(d.consumer).value)
    requires d'.k.tasks[PRODUCER].pc == d.k.tasks[PRODUCER].pc
    requires forall t | 0 <= t <= TASKS :: d'.k.tasks[t].recvd == d.k.tasks[t].recvd
    ensures Programs(d')
  {
  }

  lemma NextKeepsInv(d: Sys, a: Action)
    requires Inv(d)
    ensures Inv(Next(d, a))
  {
    hide KernelInv.Inv, Programs, Exec;
    if d.k.on {
      Running(d.k);
      if a.Timer? { TimerKeeps(d, a.last); }
      else if d.k.current == PRODUCER || d.k.current == CONSUMER {
        if Me(d.k).pc.User? { UserStatement(d); } else { KernelStatement(d); }
      }
    }
  }

  // ---- whole runs ----------------------------------------------------------------------

  lemma InitInv()
    ensures Inv(Init())
  {
    KernelRuns.InitInv(Init().k.pri, TASKS, []);
  }

  ghost function Run(d: Sys, actions: seq<Action>): Sys
    requires Inv(d)
    decreases |actions|
  {
    if actions == [] then d else NextKeepsInv(d, actions[0]); Run(Next(d, actions[0]), actions[1..])
  }

  lemma {:induction false} RunKeepsInv(d: Sys, actions: seq<Action>)
    requires Inv(d)
    ensures Inv(Run(d, actions))
    decreases |actions|
  {
    if actions == [] {
    } else {
      NextKeepsInv(d, actions[0]);
      RunKeepsInv(Next(d, actions[0]), actions[1..]);
    }
  }

  ghost function Reached(actions: seq<Action>): Sys
  {
    InitInv();
    Run(Init(), actions)
  }

  /** Under any schedule, and when it is over: one token among the DATA bit, the ACK bit and the two program counters,
      and so counts that differ by at most one. */
  lemma LockStep(actions: seq<Action>)
    ensures var d := Reached(actions);
            Shape(d) && OneToken(d) && -1 <= d.produced - d.consumed <= 1
  {
    hide KernelInv.Inv, Next, Programs, OneToken, Shape;
    InitInv();
    RunKeepsInv(Init(), actions);
    var d := Reached(actions);
    LeadIsSmall(d);
  }

  lemma LeadIsSmall(d: Sys)
    requires Shape(d) && Programs(d)
    ensures OneToken(d) && -1 <= d.produced - d.consumed <= 1
  {
  }

  /** Under any schedule: wherever a switch can happen, one of the two is not blocked. */
  lemma NeverBothBlocked(actions: seq<Action>)
    ensures var d := Reached(actions);
            d.k.on && d.k.forbid == 0 && |d.k.tasks| == TASKS + 1 ==>
              d.k.tasks[PRODUCER].state != TS_WAIT || d.k.tasks[CONSUMER].state != TS_WAIT
  {
    hide KernelInv.Inv, Next, Programs, Shape;
    InitInv();
    RunKeepsInv(Init(), actions);
    var d := Reached(actions);
    if d.k.on && d.k.forbid == 0 { OneRuns(d); }
  }

  lemma OneRuns(d: Sys)
    requires Inv(d) && d.k.on && d.k.forbid == 0
    ensures Shape(d) && (d.k.tasks[PRODUCER].state != TS_WAIT || d.k.tasks[CONSUMER].state != TS_WAIT)
  {
    hide KernelInv.Inv;
    BlockedHasNoBit(d, PRODUCER);
    BlockedHasNoBit(d, CONSUMER);
    NotBoth(d);
  }

  lemma NotBoth(d: Sys)
    requires Shape(d) && Programs(d)
    requires forall t | t == PRODUCER || t == CONSUMER :: d.k.tasks[t].state == TS_WAIT ==>
               d.k.tasks[t].pc.WaitSpin? && d.k.tasks[t].recvd * d.k.tasks[t].pc.mask == {}
    ensures d.k.tasks[PRODUCER].state != TS_WAIT || d.k.tasks[CONSUMER].state != TS_WAIT
  {
    var p, c := d.k.tasks[PRODUCER], d.k.tasks[CONSUMER];
    KernelRuns.MaskApart(if p.state == TS_WAIT then p.recvd else {}, {ACK}, ACK);
    KernelRuns.MaskApart(if c.state == TS_WAIT then c.recvd else {}, {DATA}, DATA);
  }

  lemma BlockedHasNoBit(d: Sys, t: nat)
    requires KernelInv.Inv(d.k) && d.k.forbid == 0 && t < |d.k.tasks|
    ensures d.k.tasks[t].state == TS_WAIT ==>
              d.k.tasks[t].pc.WaitSpin? && d.k.tasks[t].recvd * d.k.tasks[t].pc.mask == {}
  {
    assert Good(d.k, t);
    assert !d.k.tasks[t].pc.Critical() && !Me(d.k).pc.Critical();
  }

  // ---- the ping-pong runs on the kernel ------------------------------------------------

  /** A step of the ping-pong is a step of the kernel, or one the kernel does not see. */
  lemma StepIsKernels(d: Sys, a: Action)
    requires Inv(d)
    ensures KernelRuns.Live(d.k)
    ensures var k' := Next(d, a).k;
            match a
            case Timer(last) => k' == KernelRuns.Next(d.k, KernelRuns.Timer(last))
            case Statement => k' == d.k || exists c :: k' == KernelRuns.Next(d.k, KernelRuns.Statement(c))
  {
    hide KernelInv.Inv, Programs, Exec, Tick;
    if a.Statement? && d.k.on {
      Running(d.k);
      var own := if d.k.current == PRODUCER then ProducerCall(d.producer)
                 else if d.k.current == CONSUMER then ConsumerCall(d.consumer) else None;
      var call := if Me(d.k).pc.User? && own.Some? then own.value else Wait({});
      assert KernelRuns.Next(d.k, KernelRuns.Statement(call)) == Exec(d.k, call);
    }
  }
}
