/** One round of the exchange, from the client's call of PutMsg to its look at the reply, along one
    schedule: the client blocks, the idle task burns a quantum, the server serves and blocks, and
    the idle task burns another. It leads back to where it started, so any number of rounds is
    reached by some run. */
module Exchange {
  import opened PriList
  import opened Kernel
  import opened KernelInv
  import opened KernelCalls
  import opened KernelPaths
  import C = Rendezvous
  import opened Types

  const IDLE: nat := 3

  function PortOf(t: nat): nat { if t == C.SERVER then C.REQ else C.REPLY }

  function BitOf(t: nat): nat { if t == C.SERVER then C.SIGB_REQ else C.SIGB_REPLY }

  predicate Pair(me: nat, other: nat)
  {
    (me == C.SERVER && other == C.CLIENT) || (me == C.CLIENT && other == C.SERVER)
  }

  /** The scheduler is on, outside Forbid, with `me` running, the idle task first on the ready
      list, and these messages queued at the other's port and none at its own. */
  ghost predicate Basics(k: State, me: nat, other: nat, msgs: seq<nat>)
  {
    && |k.tasks| == 4 && |k.ports| == 2 && k.on && k.forbid == 0
    && (forall x, y :: k.pri(x) == k.pri(y))
    && k.ports[PortOf(me)] == Port(me, BitOf(me), []) && k.ports[PortOf(other)] == Port(other, BitOf(other), msgs)
    && k.tasks[IDLE].pc.User?
  }

  predicate Asleep(k: State, t: nat)
    requires t < |k.tasks|
  {
    k.tasks[t] == Tcb(TS_WAIT, {}, {BitOf(t)}, WaitSpin({BitOf(t)}, Some(PortOf(t))))
  }

  predicate Runs(k: State, t: nat)
    requires t < |k.tasks|
  {
    k.current == t && k.tasks[t].state == TS_RUN && k.tasks[t].recvd == {}
  }

  /** `me` is in user code, `other` blocked on its port. */
  ghost predicate Holding(k: State, me: nat, other: nat)
  {
    && Pair(me, other) && Basics(k, me, other, []) && k.ready == [IDLE] && k.waiting == [other]
    && Runs(k, me) && Asleep(k, other) && k.tasks[IDLE].state == TS_READY
  }

  /** `me` has put the message, and `other` has been made ready. */
  ghost predicate Handing(k: State, me: nat, other: nat)
  {
    && Pair(me, other) && Basics(k, me, other, [C.REQUEST]) && k.ready == [IDLE, other] && k.waiting == []
    && Runs(k, me) && k.tasks[IDLE].state == TS_READY
    && k.tasks[other] == Tcb(TS_READY, {BitOf(other)}, {BitOf(other)}, WaitSpin({BitOf(other)}, Some(PortOf(other))))
  }

  /** Enqueueing behind one node of equal priority. */
  lemma EnqSecond(pri: nat -> int, a: nat, b: nat)
    requires pri(a) == pri(b)
    ensures Enq(pri, [a], b) == [a, b] && Enq(pri, [], b) == [b] && Without([b], b) == []
  {
    assert [a][1..] == [];
  }

  lemma PutHands(k: State, me: nat, other: nat)
    requires Holding(k, me, other) && Me(k).pc == PutForbid(PortOf(other), C.REQUEST)
    ensures var t := Signalled(WithMsgs(k, PortOf(other), [C.REQUEST]), other, {BitOf(other)});
            Path(k, 10, t) && Handing(t, me, other) && Me(t).pc == User(Done)
  {
    hide Path;
    var p := PortOf(other);
    assert k.ports[p].msgs + [C.REQUEST] == [C.REQUEST];
    assert {} + {BitOf(other)} == {BitOf(other)};
    EnqSecond(k.pri, IDLE, other);
    PutWakes(k, p, C.REQUEST);
  }

  /** `me` is blocked, `other` ready behind the idle task. */
  ghost predicate Passing(k: State, me: nat, other: nat)
  {
    && Pair(me, other) && Basics(k, me, other, [C.REQUEST]) && k.ready == [IDLE, other] && k.waiting == [me]
    && k.current == me && Asleep(k, me) && k.tasks[IDLE].state == TS_READY
    && k.tasks[other] == Tcb(TS_READY, {BitOf(other)}, {BitOf(other)}, WaitSpin({BitOf(other)}, Some(PortOf(other))))
  }

  lemma WaitPasses(k: State, me: nat, other: nat)
    requires Handing(k, me, other) && Me(k).pc == PortTest(PortOf(me))
    ensures var t := Blocked(k, {BitOf(me)}, Some(PortOf(me))); Path(k, 7, t) && Passing(t, me, other)
  {
    hide Path;
    PortBlocks(k, PortOf(me));
    EnqSecond(k.pri, me, me);
  }

  /** `other` runs again, its message queued. */
  ghost predicate Arriving(k: State, me: nat, other: nat)
  {
    && Pair(me, other) && Basics(k, me, other, [C.REQUEST]) && k.ready == [IDLE] && k.waiting == [me]
    && k.current == other && Asleep(k, me) && k.tasks[IDLE].state == TS_READY
    && k.tasks[other] == Tcb(TS_RUN, {BitOf(other)}, {BitOf(other)}, WaitSpin({BitOf(other)}, Some(PortOf(other))))
  }

  /** The idle task's quantum. */
  ghost predicate Idling(k: State, me: nat, other: nat)
  {
    && Pair(me, other) && Basics(k, me, other, [C.REQUEST]) && k.ready == [other] && k.waiting == [me]
    && k.current == IDLE && Asleep(k, me) && k.tasks[IDLE].state == TS_RUN
    && k.tasks[other] == Tcb(TS_READY, {BitOf(other)}, {BitOf(other)}, WaitSpin({BitOf(other)}, Some(PortOf(other))))
  }

  lemma TickIdles(k: State, me: nat, other: nat)
    requires Passing(k, me, other)
    ensures Idling(Tick(k, false), me, other)
  {
    assert k.ready[1..] == [other];
  }

  lemma TickArrives(k: State, me: nat, other: nat)
    requires Idling(k, me, other)
    ensures Arriving(Tick(k, false), me, other)
  {
    EnqSecond(k.pri, other, IDLE);
    assert [other, IDLE][1..] == [IDLE];
  }

  /** `other` has returned from WaitPort. */
  ghost predicate Seeing(k: State, me: nat, other: nat)
  {
    && Pair(me, other) && Basics(k, me, other, [C.REQUEST]) && k.ready == [IDLE] && k.waiting == [me]
    && Asleep(k, me) && k.tasks[IDLE].state == TS_READY && Runs(k, other)
  }

  lemma PortSees(k: State, me: nat, other: nat)
    requires Arriving(k, me, other)
    ensures var t := Put(k, other, Me(k).(recvd := {}, pc := User(Peeked(Some(C.REQUEST)))));
            Path(k, 7, t) && Seeing(t, me, other)
  {
    hide Path;
    var b := {BitOf(other)};
    assert b - b == {};
    PortReturns(k, PortOf(other), b);
  }

  lemma GetHolds(k: State, me: nat, other: nat)
    requires Seeing(k, me, other) && Me(k).pc == GetForbid(PortOf(other))
    ensures var t := Go(WithMsgs(k, PortOf(other), []), User(Dequeued(Some(C.REQUEST))));
            Path(k, 3, t) && Holding(t, other, me)
  {
    hide Path;
    assert [C.REQUEST][1..] == [];
    GetTakes(k, PortOf(other));
  }

  /** The server looks again and finds nothing. */
  lemma GetFindsNone(k: State, me: nat, other: nat)
    requires Handing(k, me, other) && Me(k).pc == GetForbid(PortOf(me))
    ensures Path(k, 3, Go(k, User(Dequeued(None)))) && Handing(Go(k, User(Dequeued(None))), me, other)
  {
    hide Path;
    GetTakes(k, PortOf(me));
  }

  // ---- the exchange moves on by itself -------------------------------------------------

  /** A program is about to compute, or the client to look at its reply. */
  predicate Thinks(c: C.Sys)
    requires |c.k.tasks| > C.CLIENT
  {
    C.ServerThinks(c) || C.ClientThinks(c) || C.ClientLooks(c)
  }

  /** These statements and ticks lead from c to t, neither program computing on the way. */
  ghost predicate Glide(c: C.Sys, actions: seq<C.Action>, t: C.Sys)
    decreases |actions|
  {
    if actions == [] then t == c
    else
      && C.Inv(c) && c.k.on && !Thinks(c) && (actions[0] == C.Statement(false) || actions[0] == C.Timer(false))
      && Glide(C.Next(c, actions[0]), actions[1..], t)
  }

  ghost predicate Glides(c: C.Sys, t: C.Sys)
  {
    exists actions :: Glide(c, actions, t)
  }

  lemma Stays(c: C.Sys)
    ensures Glides(c, c)
  {
    assert Glide(c, [], c);
  }

  lemma {:induction false} GlideJoin(c: C.Sys, a: seq<C.Action>, u: C.Sys, b: seq<C.Action>, t: C.Sys)
    requires Glide(c, a, u) && Glide(u, b, t)
    ensures Glide(c, a + b, t)
    decreases |a|
  {
    hide C.Programs, KernelInv.Inv, C.Next, Thinks;
    if a == [] {
      assert a + b == b;
    } else {
      GlideJoin(C.Next(c, a[0]), a[1..], u, b, t);
      assert (a + b)[1..] == a[1..] + b;
    }
  }

  lemma Then(c: C.Sys, u: C.Sys, t: C.Sys)
    requires Glides(c, u) && Glides(u, t)
    ensures Glides(c, t)
  {
    var a :| Glide(c, a, u);
    var b :| Glide(u, b, t);
    GlideJoin(c, a, u, b, t);
  }

  lemma One(c: C.Sys, a: C.Action)
    requires C.Inv(c) && c.k.on && !Thinks(c) && (a == C.Statement(false) || a == C.Timer(false))
    ensures Glides(c, C.Next(c, a)) && C.Inv(C.Next(c, a))
  {
    hide C.Programs, KernelInv.Inv, C.Next, Thinks;
    C.NextMoves(c, a);
    var t := C.Next(c, a);
    assert Glide(t, [], t);
    assert [a][1..] == [];
    assert Glide(c, [a], t);
  }

  /** A call runs on to where its path leads. */
  lemma {:induction false} Within(c: C.Sys, n: nat, k: State)
    requires C.Inv(c) && c.k.on && (c.k.current == C.SERVER || c.k.current == C.CLIENT) && Path(c.k, n, k)
    ensures Glides(c, c.(k := k)) && C.Inv(c.(k := k))
    decreases n
  {
    hide C.Inv, C.Next, Exec, Glides, KernelInv.Inv;
    if n == 0 {
      Stays(c);
    } else {
      InsideStep(c);
      var u := c.(k := Exec(c.k, GetMsg(0)));
      One(c, C.Statement(false));
      Within(u, n - 1, k);
      Then(c, u, c.(k := k));
    }
  }

  lemma InsideStep(c: C.Sys)
    requires C.Inv(c) && c.k.on && Inside(c.k)
    ensures C.Next(c, C.Statement(false)) == c.(k := Exec(c.k, GetMsg(0))) && |c.k.tasks| > C.CLIENT && !Thinks(c)
    ensures Exec(c.k, GetMsg(0)).on && Exec(c.k, GetMsg(0)).current == c.k.current
  {
    hide Exec, KernelInv.Inv;
    StepKeeps(c.k, GetMsg(0));
  }

  /** A program makes its next call. */
  lemma Calls(c: C.Sys, call: Call)
    requires C.Inv(c) && c.k.on && c.k.current < |c.k.tasks| && Me(c.k).pc.User?
    requires || (c.k.current == C.SERVER && C.ServerCall(c) == Some(call))
             || (c.k.current == C.CLIENT && C.ClientCall(c) == Some(call))
    ensures var last := Me(c.k).pc.last;
            var u := if c.k.current == C.SERVER then C.ServerUser(c, last, false) else C.ClientUser(c, last, false);
            var t := u.(k := Go(c.k, Entry(call)));
            Glides(c, t) && C.Inv(t)
  {
    hide C.Inv, Glides, Legal;
    C.CallsAreLegal(c);
    ThinksNot(c);
    One(c, C.Statement(false));
  }

  lemma ThinksNot(c: C.Sys)
    requires C.Inv(c) && c.k.current < |c.k.tasks| && Me(c.k).pc.User?
    requires (c.k.current == C.SERVER && C.ServerCall(c).Some?) || (c.k.current == C.CLIENT && C.ClientCall(c).Some?)
    ensures |c.k.tasks| > C.CLIENT && !Thinks(c) && C.Live(c)
  {
  }

  /** A tick with neither the server nor the client in user code. */
  lemma Ticks(c: C.Sys)
    requires C.Inv(c) && c.k.on && c.k.current < |c.k.tasks| && (c.k.current == IDLE || !Me(c.k).pc.User?)
    ensures var t := c.(k := Tick(c.k, false)); Glides(c, t) && C.Inv(t)
  {
    hide Glides, Tick, KernelInv.Inv, C.Programs;
    One(c, C.Timer(false));
  }

  /** From the wait on its own port: the caller blocks, the idle task has its quantum, and the
      other returns from the wait on its port. */
  lemma Passes(c: C.Sys, me: nat, other: nat) returns (t: C.Sys)
    requires C.Inv(c) && Handing(c.k, me, other) && Me(c.k).pc == PortTest(PortOf(me))
    ensures Glides(c, t) && C.Inv(t) && t == c.(k := t.k)
    ensures Seeing(t.k, me, other) && Me(t.k).pc == User(Peeked(Some(C.REQUEST)))
  {
    hide C.Inv, Glides, Path, Blocked, Tick;
    WaitPasses(c.k, me, other);
    var blocked := c.(k := Blocked(c.k, {BitOf(me)}, Some(PortOf(me))));
    Within(c, 7, blocked.k);
    t := Arrives(blocked, me, other);
    Then(c, blocked, t);
  }

  lemma Arrives(c: C.Sys, me: nat, other: nat) returns (t: C.Sys)
    requires C.Inv(c) && Passing(c.k, me, other)
    ensures Glides(c, t) && C.Inv(t) && t == c.(k := t.k)
    ensures Seeing(t.k, me, other) && Me(t.k).pc == User(Peeked(Some(C.REQUEST)))
  {
    hide C.Inv, Glides, Path, Tick;
    var idling := c.(k := Tick(c.k, false));
    Ticks(c);
    TickIdles(c.k, me, other);
    var arriving := idling.(k := Tick(idling.k, false));
    Ticks(idling);
    TickArrives(idling.k, me, other);
    PortSees(arriving.k, me, other);
    t := arriving.(k := Put(arriving.k, other, Me(arriving.k).(recvd := {}, pc := User(Peeked(Some(C.REQUEST))))));
    Within(arriving, 7, t.k);
    Then(c, idling, arriving);
    Then(c, arriving, t);
  }

  /** The client's request: sent, waited for, taken by the server. */
  lemma RequestServed(c: C.Sys) returns (t: C.Sys)
    requires C.Inv(c) && Holding(c.k, C.CLIENT, C.SERVER) && Me(c.k).pc.User? && c.client.CSend? && c.server.SGet?
    ensures Glides(c, t) && C.Inv(t) && Holding(t.k, C.SERVER, C.CLIENT) && Me(t.k).pc.User?
    ensures t.server.SWork? && t.client.CGet?
  {
    hide C.Inv, Glides, Path, Signalled;
    Calls(c, PutMsg(C.REQ, C.REQUEST));
    var put := c.(client := C.CWait, k := Go(c.k, PutForbid(C.REQ, C.REQUEST)));
    PutHands(put.k, C.CLIENT, C.SERVER);
    var sent := put.(k := Signalled(WithMsgs(put.k, C.REQ, [C.REQUEST]), C.SERVER, {C.SIGB_REQ}));
    Within(put, 10, sent.k);
    Then(c, put, sent);
    Calls(sent, WaitPort(C.REPLY));
    var wait := sent.(client := C.CGet, k := Go(sent.k, PortTest(C.REPLY)));
    Then(c, sent, wait);
    var seen := Passes(wait, C.CLIENT, C.SERVER);
    Then(c, wait, seen);
    t := ServerTakes(seen);
    Then(c, seen, t);
  }

  lemma ServerTakes(c: C.Sys) returns (t: C.Sys)
    requires C.Inv(c) && Seeing(c.k, C.CLIENT, C.SERVER) && Me(c.k).pc.User? && c.client.CGet? && c.server.SGet?
    ensures Glides(c, t) && C.Inv(t) && Holding(t.k, C.SERVER, C.CLIENT) && Me(t.k).pc.User?
    ensures t.server.SWork? && t.client.CGet?
  {
    hide C.Inv, Glides, Path;
    Calls(c, GetMsg(C.REQ));
    var get := c.(server := C.SGot, k := Go(c.k, GetForbid(C.REQ)));
    GetHolds(get.k, C.CLIENT, C.SERVER);
    var got := get.(k := Go(WithMsgs(get.k, C.REQ, []), User(Dequeued(Some(C.REQUEST)))));
    Within(get, 3, got.k);
    Then(c, get, got);
    GotLooks(got);
    t := got.(server := C.SWork);
    Then(c, got, t);
  }

  /** The server's look at what GetMsg gave it. */
  lemma GotLooks(c: C.Sys)
    requires C.Inv(c) && c.k.on && c.k.current == C.SERVER < |c.k.tasks| && c.server.SGot? && Me(c.k).pc.User?
    ensures var t := C.ServerUser(c, Me(c.k).pc.last, false); Glides(c, t) && C.Inv(t)
  {
    hide Glides, KernelInv.Inv, C.Programs;
    One(c, C.Statement(false));
  }

  /** The server's reply: sent, its port found empty, waited on again; and taken by the client. */
  lemma ReplyTaken(c: C.Sys) returns (t: C.Sys)
    requires C.Inv(c) && Holding(c.k, C.SERVER, C.CLIENT) && Me(c.k).pc.User? && c.client.CGet? && c.server.SReply?
    ensures Glides(c, t) && C.Inv(t) && Holding(t.k, C.CLIENT, C.SERVER) && Me(t.k).pc.User?
    ensures t.server.SGet? && t.client.CTaken?
  {
    hide C.Inv, Glides, Path, Signalled;
    Calls(c, PutMsg(C.REPLY, C.REQUEST));
    var put := c.(server := C.SDrain, k := Go(c.k, PutForbid(C.REPLY, C.REQUEST)));
    PutHands(put.k, C.SERVER, C.CLIENT);
    var sent := put.(k := Signalled(WithMsgs(put.k, C.REPLY, [C.REQUEST]), C.CLIENT, {C.SIGB_REPLY}));
    Within(put, 10, sent.k);
    Then(c, put, sent);
    var wait := ServerDrains(sent);
    Then(c, sent, wait);
    var seen := Passes(wait, C.SERVER, C.CLIENT);
    Then(c, wait, seen);
    t := ClientTakes(seen);
    Then(c, seen, t);
  }

  lemma ServerDrains(c: C.Sys) returns (t: C.Sys)
    requires C.Inv(c) && Handing(c.k, C.SERVER, C.CLIENT) && Me(c.k).pc.User? && c.client.CGet? && c.server.SDrain?
    ensures Glides(c, t) && C.Inv(t) && Handing(t.k, C.SERVER, C.CLIENT) && Me(t.k).pc == PortTest(C.REQ)
    ensures t.server.SGet? && t.client.CGet?
  {
    hide C.Inv, Glides, Path;
    Calls(c, GetMsg(C.REQ));
    var get := c.(server := C.SGot, k := Go(c.k, GetForbid(C.REQ)));
    GetFindsNone(get.k, C.SERVER, C.CLIENT);
    var none := get.(k := Go(get.k, User(Dequeued(None))));
    Within(get, 3, none.k);
    Then(c, get, none);
    GotLooks(none);
    var idle := none.(server := C.SWait);
    Then(c, none, idle);
    Calls(idle, WaitPort(C.REQ));
    t := idle.(server := C.SGet, k := Go(idle.k, PortTest(C.REQ)));
    Then(c, idle, t);
  }

  lemma ClientTakes(c: C.Sys) returns (t: C.Sys)
    requires C.Inv(c) && Seeing(c.k, C.SERVER, C.CLIENT) && Me(c.k).pc.User? && c.client.CGet? && c.server.SGet?
    ensures Glides(c, t) && C.Inv(t) && Holding(t.k, C.CLIENT, C.SERVER) && Me(t.k).pc.User?
    ensures t.server.SGet? && t.client.CTaken?
  {
    hide C.Inv, Glides, Path;
    Calls(c, GetMsg(C.REPLY));
    var last := Me(c.k).pc.last;
    var get := C.ClientUser(c, last, false).(k := Go(c.k, GetForbid(C.REPLY)));
    GetHolds(get.k, C.SERVER, C.CLIENT);
    t := get.(k := Go(WithMsgs(get.k, C.REPLY, []), User(Dequeued(Some(C.REQUEST)))));
    Within(get, 3, t.k);
    Then(c, get, t);
  }

  // ---- the first turn ------------------------------------------------------------------

  /** All spawned, the boot task running. */
  ghost predicate Fresh(k: State)
  {
    && |k.tasks| == 4 && Basics(k, C.SERVER, C.CLIENT, []) && k.waiting == []
    && k.ready == [C.SERVER, C.CLIENT, IDLE] && k.current == BOOT
    && forall t | 0 < t < 4 :: k.tasks[t] == Tcb(TS_READY, {}, {}, User(Done))
  }

  lemma InitFresh()
    ensures Fresh(C.Init().k)
  {
    var pri: nat -> int := C.Init().k.pri;
    EnqSecond(pri, 1, 2);
    assert [1, 2][1..] == [2];
    EnqSecond(pri, 2, 3);
    assert C.Init().k.ready == Enq(pri, Enq(pri, Enq(pri, [], 1), 2), 3);
  }

  /** The server's turn. */
  ghost predicate Turn(k: State)
  {
    && Basics(k, C.SERVER, C.CLIENT, []) && k.waiting == [] && k.ready == [C.CLIENT, IDLE]
    && Runs(k, C.SERVER) && k.tasks[C.CLIENT] == Tcb(TS_READY, {}, {}, User(Done)) && k.tasks[IDLE].state == TS_READY
  }

  lemma FirstTick(k: State)
    requires Fresh(k)
    ensures Turn(Tick(k, false)) && Me(Tick(k, false)).pc == User(Done)
  {
    assert k.ready[1..] == [C.CLIENT, IDLE];
  }

  /** The server, blocked on its port, gives way to the client. */
  lemma SecondTick(k: State)
    requires Turn(k) && Me(k).pc == PortTest(C.REQ)
    ensures var b := Blocked(k, {C.SIGB_REQ}, Some(C.REQ));
            && Path(k, 7, b) && b.on && b.current == C.SERVER < |b.tasks| == 4 && Me(b).pc.WaitSpin?
            && b.ready == [C.CLIENT, IDLE]
    ensures var t := Tick(Blocked(k, {C.SIGB_REQ}, Some(C.REQ)), false);
            Holding(t, C.CLIENT, C.SERVER) && Me(t).pc == User(Done)
  {
    hide Path;
    PortBlocks(k, C.REQ);
    EnqSecond(k.pri, C.SERVER, C.SERVER);
    assert k.ready[1..] == [IDLE];
  }

  /** The client is about to compute its first request, the server waiting for it. */
  lemma Starts() returns (t: C.Sys)
    ensures C.Inv(C.Init()) && Glides(C.Init(), t) && C.Inv(t) && Holding(t.k, C.CLIENT, C.SERVER) && Me(t.k).pc.User?
    ensures t.server.SGet? && t.client.CThink?
  {
    hide C.Inv, Glides, Path, Tick, Blocked;
    var c := C.Init();
    C.InitInv();
    C.InitThinks();
    InitFresh();
    FirstTick(c.k);
    BootTicks(c);
    var turn := c.(k := Tick(c.k, false));
    Calls(turn, WaitPort(C.REQ));
    var wait := turn.(server := C.SGet, k := Go(turn.k, PortTest(C.REQ)));
    Then(c, turn, wait);
    SecondTick(wait.k);
    var blocked := wait.(k := Blocked(wait.k, {C.SIGB_REQ}, Some(C.REQ)));
    Within(wait, 7, blocked.k);
    Then(c, wait, blocked);
    Ticks(blocked);
    t := blocked.(k := Tick(blocked.k, false));
    Then(c, blocked, t);
  }

  lemma BootTicks(c: C.Sys)
    requires C.Inv(c) && c.k.on && c.k.current == BOOT
    ensures var t := c.(k := Tick(c.k, false)); Glides(c, t) && C.Inv(t)
  {
    hide Glides, Tick, KernelInv.Inv, C.Programs;
    One(c, C.Timer(false));
  }
}
