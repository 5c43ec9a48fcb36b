/** Runs of the ping-pong: along one schedule, in which each of the two blocks and the idle task
    burns a quantum before the other wakes, any number of rounds is reached. */
module PingPongRounds {
  import opened PriList
  import opened Kernel
  import KernelInv
  import opened KernelCalls
  import opened KernelPaths
  import opened PingPong
  import opened Types

  const IDLE: nat := 3

  function BitOf(t: nat): nat { if t == PRODUCER then ACK else DATA }

  predicate Pair(me: nat, other: nat)
  {
    (me == PRODUCER && other == CONSUMER) || (me == CONSUMER && other == PRODUCER)
  }

  ghost predicate Basics(k: State, me: nat, other: nat)
  {
    && Pair(me, other) && |k.tasks| == 4 && k.on && k.forbid == 0 && k.tasks[IDLE].pc.User?
    && (forall x, y :: k.pri(x) == k.pri(y))
  }

  predicate Asleep(k: State, t: nat)
    requires t < |k.tasks|
  {
    k.tasks[t] == Tcb(TS_WAIT, {}, {BitOf(t)}, WaitSpin({BitOf(t)}, None))
  }

  /** The task in its wait, its bit posted. */
  predicate Posted(k: State, t: nat, state: TState)
    requires t < |k.tasks|
  {
    k.tasks[t] == Tcb(state, {BitOf(t)}, {BitOf(t)}, WaitSpin({BitOf(t)}, None))
  }

  /** `me` runs, `other` is blocked. */
  ghost predicate Holding(k: State, me: nat, other: nat)
  {
    && Basics(k, me, other) && k.ready == [IDLE] && k.waiting == [other] && k.tasks[IDLE].state == TS_READY
    && k.current == me && k.tasks[me].state == TS_RUN && k.tasks[me].recvd == {} && Asleep(k, other)
  }

  /** `me` has signalled `other`. */
  ghost predicate Handing(k: State, me: nat, other: nat)
  {
    && Basics(k, me, other) && k.ready == [IDLE, other] && k.waiting == [] && k.tasks[IDLE].state == TS_READY
    && k.current == me && k.tasks[me].state == TS_RUN && k.tasks[me].recvd == {} && Posted(k, other, TS_READY)
  }

  /** `me` is blocked. */
  ghost predicate Passing(k: State, me: nat, other: nat)
  {
    && Basics(k, me, other) && k.ready == [IDLE, other] && k.waiting == [me] && k.tasks[IDLE].state == TS_READY
    && k.current == me && Asleep(k, me) && Posted(k, other, TS_READY)
  }

  /** The idle task's quantum. */
  ghost predicate Idling(k: State, me: nat, other: nat)
  {
    && Basics(k, me, other) && k.ready == [other] && k.waiting == [me] && k.tasks[IDLE].state == TS_RUN
    && k.current == IDLE && Asleep(k, me) && Posted(k, other, TS_READY)
  }

  /** `other` runs again. */
  ghost predicate Arriving(k: State, me: nat, other: nat)
  {
    && Basics(k, me, other) && k.ready == [IDLE] && k.waiting == [me] && k.tasks[IDLE].state == TS_READY
    && k.current == other && Asleep(k, me) && Posted(k, other, TS_RUN)
  }

  lemma EnqSecond(pri: nat -> int, a: nat, b: nat)
    requires pri(a) == pri(b)
    ensures Enq(pri, [a], b) == [a, b] && Enq(pri, [], b) == [b] && Without([b], b) == []
  {
    assert [a][1..] == [];
  }

  lemma SignalHands(k: State, me: nat, other: nat)
    requires Holding(k, me, other) && Me(k).pc == SigForbid(other, {BitOf(other)})
    ensures var t := Signalled(k, other, {BitOf(other)});
            Path(k, 6, t) && Handing(t, me, other) && Me(t).pc == User(Done)
  {
    hide Path;
    assert {} + {BitOf(other)} == {BitOf(other)};
    EnqSecond(k.pri, IDLE, other);
    SignalWakes(k, other, {BitOf(other)});
  }

  lemma WaitPasses(k: State, me: nat, other: nat)
    requires Handing(k, me, other) && Me(k).pc == WaitForbid({BitOf(me)}, None)
    ensures var t := Blocked(k, {BitOf(me)}, None); Path(k, 6, t) && Passing(t, me, other)
  {
    hide Path;
    WaitBlocks(k, {BitOf(me)}, None);
    EnqSecond(k.pri, me, me);
  }

  lemma TickIdles(k: State, me: nat, other: nat)
    requires Passing(k, me, other)
    ensures Idling(Tick(k, false), me, other)
  {
    assert k.ready[1..] == [other];
  }

  lemma TickArrives(k: State, me: nat, other: nat)
    requires Idling(k, me, other)
    ensures Arriving(Tick(k, false), me, other)
  {
    EnqSecond(k.pri, other, IDLE);
    assert [other, IDLE][1..] == [IDLE];
  }

  lemma WaitHolds(k: State, me: nat, other: nat)
    requires Arriving(k, me, other)
    ensures var t := Woken(k, {BitOf(other)}, None);
            Path(k, 5, t) && Holding(t, other, me) && Me(t).pc.User?
  {
    hide Path;
    assert {BitOf(other)} - {BitOf(other)} == {};
    WaitWakes(k, {BitOf(other)}, None);
  }

  // ---- runs ----------------------------------------------------------------------------

  /** Some run leads from d to t. */
  ghost predicate Reaches(d: Sys, t: Sys)
  {
    Inv(d) && Inv(t) && exists actions :: Run(d, actions) == t
  }

  lemma {:induction false} RunJoin(d: Sys, a: seq<Action>, b: seq<Action>)
    requires Inv(d)
    ensures Inv(Run(d, a)) && Run(d, a + b) == Run(Run(d, a), b)
    decreases |a|
  {
    hide KernelInv.Inv, Programs, Next;
    RunKeepsInv(d, a);
    if a == [] {
      assert a + b == b;
    } else {
      NextKeepsInv(d, a[0]);
      RunJoin(Next(d, a[0]), a[1..], b);
      assert (a + b)[1..] == a[1..] + b;
    }
  }

  lemma Onward(d: Sys, u: Sys, t: Sys)
    requires Reaches(d, u) && Reaches(u, t)
    ensures Reaches(d, t)
  {
    hide Inv, Next, Run;
    var a :| Run(d, a) == u;
    var b :| Run(u, b) == t;
    RunJoin(d, a, b);
  }

  lemma Step(d: Sys, a: Action)
    requires Inv(d)
    ensures Inv(Next(d, a)) && Reaches(d, Next(d, a))
  {
    hide KernelInv.Inv, Programs, Next;
    NextKeepsInv(d, a);
    assert [a][1..] == [];
    assert Run(Next(d, a), []) == Next(d, a);
    assert Run(d, [a]) == Next(d, a);
  }

  lemma Here(d: Sys)
    requires Inv(d)
    ensures Reaches(d, d)
  {
    hide Inv;
    assert Run(d, []) == d;
  }

  /** A call runs on to where its path leads. */
  lemma {:induction false} Within(d: Sys, n: nat, k: State)
    requires Inv(d) && d.k.on && (d.k.current == PRODUCER || d.k.current == CONSUMER) && Path(d.k, n, k)
    ensures Reaches(d, d.(k := k)) && Inv(d.(k := k))
    decreases n
  {
    hide Inv, Next, Exec, Reaches;
    if n == 0 {
      Here(d);
    } else {
      InsideStep(d);
      Step(d, Statement);
      var u := d.(k := Exec(d.k, GetMsg(0)));
      Within(u, n - 1, k);
      Onward(d, u, d.(k := k));
    }
  }

  lemma InsideStep(d: Sys)
    requires Inv(d) && d.k.on && Inside(d.k) && (d.k.current == PRODUCER || d.k.current == CONSUMER)
    ensures Live(d) && Next(d, Statement) == d.(k := Exec(d.k, GetMsg(0)))
    ensures Exec(d.k, GetMsg(0)).on && Exec(d.k, GetMsg(0)).current == d.k.current
  {
    hide KernelInv.Inv, Programs;
    StepKeeps(d.k, GetMsg(0));
  }

  /** What the program of the running task does in a statement of its own. */
  function OwnStep(d: Sys): Sys
  {
    if d.k.current == PRODUCER then ProducerUser(d) else ConsumerUser(d)
  }

  function CallOf(d: Sys): Option<Call>
  {
    if d.k.current == PRODUCER then ProducerCall(d.producer) else ConsumerCall(d.consumer)
  }

  /** A statement of a program: its next call, or its count. */
  lemma Own(d: Sys)
    requires Inv(d) && d.k.on && (d.k.current == PRODUCER || d.k.current == CONSUMER)
    requires |d.k.tasks| == 4 && Me(d.k).pc.User?
    ensures var t := OwnStep(d).(k := if CallOf(d).Some? then Go(d.k, Entry(CallOf(d).value)) else d.k);
            Reaches(d, t) && Inv(t)
  {
    hide KernelInv.Inv, Programs, Reaches;
    Step(d, Statement);
  }

  lemma Ticks(d: Sys)
    requires Inv(d) && d.k.on && |d.k.tasks| == 4
    ensures Live(d) && d.k.current < |d.k.tasks| && (forall t | t in d.k.ready :: t < |d.k.tasks|)
    ensures var t := d.(k := Tick(d.k, false)); Reaches(d, t) && Inv(t)
  {
    hide Reaches, Programs;
    Step(d, Timer(false));
  }

  /** From the wait: the caller blocks, the idle task has its quantum, the other returns from its. */
  lemma Passes(d: Sys, me: nat, other: nat) returns (t: Sys)
    requires Inv(d) && Handing(d.k, me, other) && Me(d.k).pc == WaitForbid({BitOf(me)}, None)
    ensures Reaches(d, t) && Inv(t) && t == d.(k := t.k) && Holding(t.k, other, me) && Me(t.k).pc.User?
  {
    hide Inv, Reaches, Path, Tick, Blocked, Woken;
    WaitPasses(d.k, me, other);
    var blocked := d.(k := Blocked(d.k, {BitOf(me)}, None));
    Within(d, 6, blocked.k);
    Ticks(blocked);
    TickIdles(blocked.k, me, other);
    var idling := blocked.(k := Tick(blocked.k, false));
    Onward(d, blocked, idling);
    Ticks(idling);
    TickArrives(idling.k, me, other);
    var arriving := idling.(k := Tick(idling.k, false));
    Onward(d, idling, arriving);
    WaitHolds(arriving.k, me, other);
    t := arriving.(k := Woken(arriving.k, {BitOf(other)}, None));
    Within(arriving, 5, t.k);
    Onward(d, arriving, t);
  }

  /** The producer's half of a round, ending with the consumer awake. */
  lemma Produces(d: Sys) returns (t: Sys)
    requires Inv(d) && Holding(d.k, PRODUCER, CONSUMER) && Me(d.k).pc.User? && d.producer.PSignal?
    ensures Reaches(d, t) && Inv(t) && t == d.(k := t.k, produced := d.produced + 1)
    ensures Holding(t.k, CONSUMER, PRODUCER) && Me(t.k).pc.User?
  {
    hide Inv, Reaches, Path, Signalled;
    Own(d);
    var posting := d.(producer := PCount, k := Go(d.k, SigForbid(CONSUMER, {DATA})));
    SignalHands(posting.k, PRODUCER, CONSUMER);
    var posted := posting.(k := Signalled(posting.k, CONSUMER, {DATA}));
    Within(posting, 6, posted.k);
    Onward(d, posting, posted);
    Own(posted);
    var counted := ProducerUser(posted);
    Onward(d, posted, counted);
    Own(counted);
    var waiting := ProducerUser(counted).(k := Go(counted.k, WaitForbid({ACK}, None)));
    Onward(d, counted, waiting);
    t := Passes(waiting, PRODUCER, CONSUMER);
    Onward(d, waiting, t);
  }

  /** The consumer's half. */
  lemma Consumes(d: Sys) returns (t: Sys)
    requires Inv(d) && Holding(d.k, CONSUMER, PRODUCER) && Me(d.k).pc.User? && d.consumer.CCount?
    ensures Reaches(d, t) && Inv(t) && t == d.(k := t.k, consumed := d.consumed + 1)
    ensures Holding(t.k, PRODUCER, CONSUMER) && Me(t.k).pc.User?
  {
    hide Inv, Reaches, Path, Signalled;
    Own(d);
    var counted := ConsumerUser(d);
    Own(counted);
    var posting := ConsumerUser(counted).(k := Go(counted.k, SigForbid(PRODUCER, {ACK})));
    Onward(d, counted, posting);
    SignalHands(posting.k, CONSUMER, PRODUCER);
    var posted := posting.(k := Signalled(posting.k, PRODUCER, {ACK}));
    Within(posting, 6, posted.k);
    Onward(d, posting, posted);
    Own(posted);
    var waiting := ConsumerUser(posted).(k := Go(posted.k, WaitForbid({DATA}, None)));
    Onward(d, posted, waiting);
    t := Passes(waiting, CONSUMER, PRODUCER);
    Onward(d, waiting, t);
  }

  // ---- the first turns -----------------------------------------------------------------

  /** `running` has the processor, the other two are ready, nobody has yet made a call. */
  ghost predicate Untouched(k: State, running: nat, ready: seq<nat>)
  {
    && |k.tasks| == 4 && k.on && k.forbid == 0 && (forall x, y :: k.pri(x) == k.pri(y))
    && k.current == running && k.ready == ready && k.waiting == []
    && forall t | 0 < t < 4 :: k.tasks[t] == Tcb(if t == running then TS_RUN else TS_READY, {}, {}, User(Done))
  }

  lemma InitUntouched()
    ensures Untouched(Init().k, BOOT, [PRODUCER, CONSUMER, IDLE])
  {
    var pri: nat -> int := Init().k.pri;
    EnqSecond(pri, 1, 2);
    assert [1, 2][1..] == [2];
    EnqSecond(pri, 2, 3);
    assert Init().k.ready == Enq(pri, Enq(pri, Enq(pri, [], 1), 2), 3);
  }

  lemma TurnsBegin(k: State)
    requires Untouched(k, BOOT, [PRODUCER, CONSUMER, IDLE]) && k.tasks[BOOT].pc.User?
    ensures Untouched(Tick(k, false), PRODUCER, [CONSUMER, IDLE])
  {
    assert k.ready[1..] == [CONSUMER, IDLE];
  }

  lemma TurnsPass(k: State)
    requires Untouched(k, PRODUCER, [CONSUMER, IDLE])
    ensures Untouched(Tick(k, false), CONSUMER, [IDLE, PRODUCER])
  {
    assert k.ready[1..] == [IDLE];
    EnqSecond(k.pri, IDLE, PRODUCER);
    assert Enq(k.pri, k.ready, PRODUCER) == [CONSUMER] + [IDLE, PRODUCER];
  }

  /** The consumer blocks; the idle task and then the producer have the processor. */
  lemma ConsumerBlocks(k: State)
    requires Untouched(k, CONSUMER, [IDLE, PRODUCER])
    ensures var w := Go(k, WaitForbid({DATA}, None));
            var b := Blocked(w, {DATA}, None);
            && Path(w, 6, b) && b.on && |b.tasks| == 4 && b.current == CONSUMER && b.ready == [IDLE, PRODUCER]
            && (var i := Tick(b, false);
                && i.on && |i.tasks| == 4 && i.current == IDLE && i.ready == [PRODUCER]
                && Holding(Tick(i, false), PRODUCER, CONSUMER) && Me(Tick(i, false)).pc.User?)
  {
    hide Path;
    var w := Go(k, WaitForbid({DATA}, None));
    WaitBlocks(w, {DATA}, None);
    EnqSecond(k.pri, CONSUMER, CONSUMER);
    assert k.ready[1..] == [PRODUCER];
    EnqSecond(k.pri, PRODUCER, IDLE);
    assert [PRODUCER, IDLE][1..] == [IDLE];
  }

  lemma Begins() returns (t: Sys)
    ensures Inv(Init()) && Reaches(Init(), t) && Inv(t) && Holding(t.k, PRODUCER, CONSUMER) && Me(t.k).pc.User?
    ensures t == Init().(k := t.k, consumer := CCount)
  {
    hide Inv, Reaches, Path, Tick, Blocked;
    InitInv();
    InitUntouched();
    var d := Init();
    Ticks(d);
    TurnsBegin(d.k);
    var d1 := d.(k := Tick(d.k, false));
    Ticks(d1);
    TurnsPass(d1.k);
    var d2 := d1.(k := Tick(d1.k, false));
    Onward(d, d1, d2);
    Own(d2);
    ConsumerBlocks(d2.k);
    var d3 := ConsumerUser(d2).(k := Go(d2.k, WaitForbid({DATA}, None)));
    Onward(d, d2, d3);
    var d4 := d3.(k := Blocked(d3.k, {DATA}, None));
    Within(d3, 6, d4.k);
    Onward(d, d3, d4);
    Ticks(d4);
    var d5 := d4.(k := Tick(d4.k, false));
    Onward(d, d4, d5);
    Ticks(d5);
    t := d5.(k := Tick(d5.k, false));
    Onward(d, d5, t);
  }

  /** n rounds from the start. */
  lemma {:induction false} Rounds(n: nat) returns (t: Sys)
    ensures Inv(Init()) && Reaches(Init(), t) && Inv(t) && Holding(t.k, PRODUCER, CONSUMER) && Me(t.k).pc.User?
    ensures t.producer.PSignal? && t.consumer.CCount? && t.produced == n && t.consumed == n
  {
    hide Reaches, Holding, Inv;
    if n == 0 {
      t := Begins();
    } else {
      var u := Rounds(n - 1);
      var v := Produces(u);
      Onward(Init(), u, v);
      t := Consumes(v);
      Onward(Init(), v, t);
    }
  }

  /** Some run makes any number of rounds before the tick limit, both counts agreeing. */
  lemma EveryCountIsReached(n: nat)
    ensures exists actions :: var d := Reached(actions); !d.k.on && d.produced == n && d.consumed == n
  {
    hide KernelInv.Inv, Programs, Next, Reaches;
    var u := Rounds(n);
    Halts(u);
    var t := Next(u, Timer(true));
    Onward(Init(), u, t);
    ReachedBy(t);
  }

  lemma Halts(d: Sys)
    requires Inv(d) && Holding(d.k, PRODUCER, CONSUMER)
    ensures var t := Next(d, Timer(true)); Reaches(d, t) && !t.k.on && t == d.(k := t.k)
  {
    hide Programs;
    Step(d, Timer(true));
  }

  lemma ReachedBy(t: Sys)
    requires Inv(Init()) && Reaches(Init(), t)
    ensures exists actions :: Reached(actions) == t
  {
    hide Inv, Next;
    var actions :| Run(Init(), actions) == t;
    assert Reached(actions) == t;
  }
}
