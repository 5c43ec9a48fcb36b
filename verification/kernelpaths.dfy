/** What each call does when no tick falls inside it, as one step. */
module KernelPaths {
  import opened PriList
  import opened Kernel
  import opened KernelInv
  import opened KernelCalls
  import opened Types

  /** The running task is inside a call. */
  predicate Inside(s: State)
  {
    s.current < |s.tasks| && s.current != BOOT && InRange(s, Me(s).pc) && !Me(s).pc.User?
  }

  /** The next n statements, all inside calls of the running task, lead from s to t. */
  ghost predicate Path(s: State, n: nat, t: State)
    decreases n
  {
    if n == 0 then t == s else Inside(s) && Path(Exec(s, GetMsg(0)), n - 1, t)
  }

  lemma Ends(s: State)
    ensures Path(s, 0, s)
  {
  }

  lemma Step(s: State, n: nat, u: State, t: State)
    requires Inside(s) && Exec(s, GetMsg(0)) == u && Path(u, n, t)
    ensures Path(s, n + 1, t)
  {
  }

  lemma {:induction false} Join(s: State, n: nat, u: State, m: nat, t: State)
    requires Path(s, n, u) && Path(u, m, t)
    ensures Path(s, n + m, t)
    decreases n
  {
    hide Exec;
    if n > 0 { Join(Exec(s, GetMsg(0)), n - 1, u, m, t); }
  }

  // ---- Wait ----------------------------------------------------------------------------

  lemma WaitStep(s: State, n: nat, u: State, t: State)
    requires s.current < |s.tasks| && s.current != BOOT && InWait(Me(s).pc) && ExecWait(s) == u && Path(u, n, t)
    ensures Path(s, n + 1, t)
  {
    ExecIsWait(s, GetMsg(0));
    hide Exec, ExecWait;
    Step(s, n, u, t);
  }

  /** The task as Wait leaves it when it blocks. */
  function Blocked(s: State, mask: Mask, back: Option<nat>): State
    requires s.current < |s.tasks|
  {
    Put(s, s.current, Me(s).(state := TS_WAIT, sigWait := mask, pc := WaitSpin(mask, back)))
      .(waiting := Enq(s.pri, s.waiting, s.current))
  }

  /** Wait with none of the bits received: six statements to the spin loop. */
  lemma WaitBlocks(s: State, mask: Mask, back: Option<nat>)
    requires s.current < |s.tasks| && s.current != BOOT && s.forbid == 0
    requires Me(s).pc == WaitForbid(mask, back) && Me(s).recvd * mask == {}
    ensures Path(s, 6, Blocked(s, mask, back))
  {
    hide Path, Blocked;
    var m := Put(s.(forbid := 1), s.current, Me(s).(sigWait := mask, pc := WaitState(mask, back)));
    WaitMarks(s, mask, back);
    WaitQueues(s, mask, back);
    Join(s, 3, m, 3, Blocked(s, mask, back));
  }

  lemma WaitMarks(s: State, mask: Mask, back: Option<nat>)
    requires s.current < |s.tasks| && s.current != BOOT && s.forbid == 0
    requires Me(s).pc == WaitForbid(mask, back) && Me(s).recvd * mask == {}
    ensures Path(s, 3, Put(s.(forbid := 1), s.current, Me(s).(sigWait := mask, pc := WaitState(mask, back))))
  {
    hide Path;
    var s1, t := Go(s.(forbid := 1), WaitTest(mask, back)),
                 Put(s.(forbid := 1), s.current, Me(s).(sigWait := mask, pc := WaitState(mask, back)));
    WaitTests(s, mask, back);
    WaitStep(s, 2, s1, t);
  }

  lemma WaitTests(s: State, mask: Mask, back: Option<nat>)
    requires s.current < |s.tasks| && s.current != BOOT && Me(s).recvd * mask == {}
    ensures Path(Go(s.(forbid := 1), WaitTest(mask, back)), 2,
                 Put(s.(forbid := 1), s.current, Me(s).(sigWait := mask, pc := WaitState(mask, back))))
  {
    hide Path;
    var f := s.(forbid := 1);
    var s1, s2 := Go(f, WaitTest(mask, back)), Go(f, WaitMark(mask, back));
    var t := Put(f, s.current, Me(s).(sigWait := mask, pc := WaitState(mask, back)));
    Ends(t);
    WaitStep(s2, 0, t, t);
    WaitStep(s1, 1, s2, t);
  }

  lemma WaitQueues(s: State, mask: Mask, back: Option<nat>)
    requires s.current < |s.tasks| && s.current != BOOT && s.forbid == 0
    ensures Path(Put(s.(forbid := 1), s.current, Me(s).(sigWait := mask, pc := WaitState(mask, back))), 3,
                 Blocked(s, mask, back))
  {
    hide Path, Enq;
    var f := s.(forbid := 1);
    var s1 := Put(f, s.current, Me(s).(sigWait := mask, pc := WaitState(mask, back)));
    var s2 := Put(f, s.current, Me(s).(sigWait := mask, state := TS_WAIT, pc := WaitEnqueue(mask, back)));
    var s3 := Go(s2.(waiting := Enq(s.pri, s.waiting, s.current)), WaitPermit(mask, back));
    var t := Blocked(s, mask, back);
    Ends(t);
    WaitStep(s3, 0, t, t);
    WaitStep(s2, 1, s3, t);
    WaitStep(s1, 2, s2, t);
  }

  /** The task as Wait leaves it when it returns. */
  function Woken(s: State, mask: Mask, back: Option<nat>): State
    requires s.current < |s.tasks|
  {
    var got := Me(s).recvd * mask;
    Put(s, s.current, Me(s).(recvd := Me(s).recvd - mask,
                             pc := match back case None => User(Received(got)) case Some(p) => PortTest(p)))
  }

  /** Wait once the task has been made ready and runs again: five statements to its return. */
  lemma WaitWakes(s: State, mask: Mask, back: Option<nat>)
    requires s.current < |s.tasks| && s.current != BOOT && s.forbid == 0
    requires Me(s).pc == WaitSpin(mask, back) && Me(s).state == TS_RUN
    ensures Path(s, 5, Woken(s, mask, back))
  {
    hide Path, Woken;
    var m := Go(s.(forbid := 1), WaitTake(mask, back));
    WaitLeaves(s, mask, back);
    WaitTakes(s, mask, back);
    Join(s, 2, m, 3, Woken(s, mask, back));
  }

  lemma WaitLeaves(s: State, mask: Mask, back: Option<nat>)
    requires s.current < |s.tasks| && s.current != BOOT && s.forbid == 0
    requires Me(s).pc == WaitSpin(mask, back) && Me(s).state == TS_RUN
    ensures Path(s, 2, Go(s.(forbid := 1), WaitTake(mask, back)))
  {
    hide Path;
    var s1, t := Go(s, WaitReforbid(mask, back)), Go(s.(forbid := 1), WaitTake(mask, back));
    Ends(t);
    WaitStep(s1, 0, t, t);
    WaitStep(s, 1, s1, t);
  }

  lemma WaitTakes(s: State, mask: Mask, back: Option<nat>)
    requires s.current < |s.tasks| && s.current != BOOT && s.forbid == 0
    ensures Path(Go(s.(forbid := 1), WaitTake(mask, back)), 3, Woken(s, mask, back))
  {
    hide Path;
    var f, got := s.(forbid := 1), Me(s).recvd * mask;
    var s1, s2 := Go(f, WaitTake(mask, back)), Go(f, WaitClear(mask, got, back));
    var s3 := Put(f, s.current, Me(s).(recvd := Me(s).recvd - mask, pc := WaitReturn(mask, got, back)));
    var t := Woken(s, mask, back);
    Ends(t);
    WaitStep(s3, 0, t, t);
    WaitStep(s2, 1, s3, t);
    WaitStep(s1, 2, s2, t);
  }

  // ---- Signal --------------------------------------------------------------------------

  /** Signal leaves the target, which was waiting for one of the bits, at the end of its priority
      on the ready list. */
  function Signalled(s: State, x: nat, mask: Mask): State
    requires s.current < |s.tasks| && x < |s.tasks|
  {
    Go(Put(s, x, s.tasks[x].(state := TS_READY, recvd := s.tasks[x].recvd + mask))
         .(waiting := Without(s.waiting, x), ready := Enq(s.pri, s.ready, x)),
       User(Done))
  }

  /** A target blocked in Wait for one of the bits. */
  predicate Wakes(s: State, x: nat, mask: Mask)
  {
    && s.current < |s.tasks| && s.current != BOOT && BOOT < x < |s.tasks| && x != s.current && s.forbid == 0
    && s.tasks[x].state == TS_WAIT && (s.tasks[x].recvd + mask) * s.tasks[x].sigWait != {}
  }

  lemma SignalWakes(s: State, x: nat, mask: Mask)
    requires Wakes(s, x, mask) && Me(s).pc == SigForbid(x, mask)
    ensures Path(s, 6, Signalled(s, x, mask))
  {
    hide Path, Signalled;
    var p := Posting(s, x, mask);
    SignalPosts(s, x, mask);
    SignalReadies(s, x, mask);
    Join(s, 3, Go(p.(waiting := Without(s.waiting, x)), SigReady(x)), 3, Signalled(s, x, mask));
  }

  /** Under Forbid, with the bits posted. */
  function Posting(s: State, x: nat, mask: Mask): State
    requires x < |s.tasks|
  {
    Put(s, x, s.tasks[x].(recvd := s.tasks[x].recvd + mask)).(forbid := 1)
  }

  lemma SignalPosts(s: State, x: nat, mask: Mask)
    requires Wakes(s, x, mask) && Me(s).pc == SigForbid(x, mask)
    ensures Path(s, 3, Go(Posting(s, x, mask).(waiting := Without(s.waiting, x)), SigReady(x)))
  {
    hide Path, Without;
    var p := Posting(s, x, mask);
    var s1, s2 := Go(s.(forbid := 1), SigPost(x, mask)), Go(p, SigTest(x));
    var t := Go(p.(waiting := Without(s.waiting, x)), SigReady(x));
    Ends(t);
    SignalStep(s2, 0, t, t);
    SignalStep(s1, 1, s2, t);
    SignalStep(s, 2, s1, t);
  }

  lemma SignalReadies(s: State, x: nat, mask: Mask)
    requires Wakes(s, x, mask)
    ensures Path(Go(Posting(s, x, mask).(waiting := Without(s.waiting, x)), SigReady(x)), 3, Signalled(s, x, mask))
  {
    hide Path, Enq, Without;
    var w := Posting(s, x, mask).(waiting := Without(s.waiting, x));
    var r := Put(w, x, w.tasks[x].(state := TS_READY));
    var s1, s2, s3 := Go(w, SigReady(x)), Go(r, SigEnqueue(x)), Go(r.(ready := Enq(s.pri, s.ready, x)), SigPermit);
    var t := Signalled(s, x, mask);
    Ends(t);
    SignalStep(s3, 0, t, t);
    SignalStep(s2, 1, s3, t);
    SignalStep(s1, 2, s2, t);
  }

  lemma SignalStep(s: State, n: nat, u: State, t: State)
    requires s.current < |s.tasks| && s.current != BOOT && InSignal(Me(s).pc) && InRange(s, Me(s).pc)
    requires ExecSignal(s) == u && Path(u, n, t)
    ensures Path(s, n + 1, t)
  {
    hide ExecSignal;
    Step(s, n, u, t);
  }

  // ---- the message calls ---------------------------------------------------------------

  function WithMsgs(s: State, p: nat, msgs: seq<nat>): State
    requires p < |s.ports|
  {
    s.(ports := s.ports[p := s.ports[p].(msgs := msgs)])
  }

  /** PutMsg to a port whose owner is blocked waiting on it: the message is queued and the owner
      made ready. */
  lemma PutWakes(s: State, p: nat, m: nat)
    requires p < |s.ports| && Wakes(s, s.ports[p].owner, {s.ports[p].bit}) && Me(s).pc == PutForbid(p, m)
    ensures Path(s, 10, Signalled(WithMsgs(s, p, s.ports[p].msgs + [m]), s.ports[p].owner, {s.ports[p].bit}))
  {
    hide Path, Signalled;
    var x, mask, q := s.ports[p].owner, {s.ports[p].bit}, WithMsgs(s, p, s.ports[p].msgs + [m]);
    var u := Go(q, SigForbid(x, mask));
    PutQueues(s, p, m);
    SignalWakes(u, x, mask);
    SignalledFrom(q, SigForbid(x, mask), x, mask);
    Join(s, 4, u, 6, Signalled(q, x, mask));
  }

  lemma SignalledFrom(s: State, pc: Pc, x: nat, mask: Mask)
    requires s.current < |s.tasks| && x < |s.tasks| && x != s.current
    ensures Signalled(Go(s, pc), x, mask) == Signalled(s, x, mask)
  {
  }

  lemma PutQueues(s: State, p: nat, m: nat)
    requires s.current < |s.tasks| && s.current != BOOT && s.forbid == 0 && p < |s.ports| && Me(s).pc == PutForbid(p, m)
    ensures Path(s, 4, Go(WithMsgs(s, p, s.ports[p].msgs + [m]), SigForbid(s.ports[p].owner, {s.ports[p].bit})))
  {
    hide Path;
    PutAdds(s, p, m);
    PutStep(s, 3, Go(s.(forbid := 1), PutAdd(p, m)),
            Go(WithMsgs(s, p, s.ports[p].msgs + [m]), SigForbid(s.ports[p].owner, {s.ports[p].bit})));
  }

  lemma PutAdds(s: State, p: nat, m: nat)
    requires s.current < |s.tasks| && s.current != BOOT && s.forbid == 0 && p < |s.ports|
    ensures Path(Go(s.(forbid := 1), PutAdd(p, m)), 3,
                 Go(WithMsgs(s, p, s.ports[p].msgs + [m]), SigForbid(s.ports[p].owner, {s.ports[p].bit})))
  {
    hide Path;
    var q := WithMsgs(s, p, s.ports[p].msgs + [m]);
    PutLeaves(q, p);
    PutStep(Go(s.(forbid := 1), PutAdd(p, m)), 2, Go(q.(forbid := 1), PutPermit(p)),
            Go(q, SigForbid(s.ports[p].owner, {s.ports[p].bit})));
  }

  lemma PutLeaves(s: State, p: nat)
    requires s.current < |s.tasks| && s.current != BOOT && s.forbid == 0 && p < |s.ports|
    ensures Path(Go(s.(forbid := 1), PutPermit(p)), 2, Go(s, SigForbid(s.ports[p].owner, {s.ports[p].bit})))
  {
    hide Path;
    var s1, s2 := Go(s.(forbid := 1), PutPermit(p)), Go(s, PutSignal(p));
    var t := Go(s, SigForbid(s.ports[p].owner, {s.ports[p].bit}));
    Ends(t);
    PutStep(s2, 0, t, t);
    PutStep(s1, 1, s2, t);
  }

  lemma PutStep(s: State, n: nat, u: State, t: State)
    requires s.current < |s.tasks| && s.current != BOOT && InRange(s, Me(s).pc)
    requires Me(s).pc.PutForbid? || Me(s).pc.PutAdd? || Me(s).pc.PutPermit? || Me(s).pc.PutSignal?
    requires ExecPut(s) == u && Path(u, n, t)
    ensures Path(s, n + 1, t)
  {
    hide ExecPut;
    Step(s, n, u, t);
  }

  lemma GetStep(s: State, n: nat, u: State, t: State)
    requires s.current < |s.tasks| && s.current != BOOT && InRange(s, Me(s).pc)
    requires || Me(s).pc.GetForbid? || Me(s).pc.GetRemove? || Me(s).pc.GetPermit?
             || Me(s).pc.PortTest? || Me(s).pc.PortPeek?
    requires ExecGet(s) == u && Path(u, n, t)
    ensures Path(s, n + 1, t)
  {
    hide ExecGet;
    Step(s, n, u, t);
  }

  /** GetMsg: the head comes off the queue. */
  lemma GetTakes(s: State, p: nat)
    requires s.current < |s.tasks| && s.current != BOOT && s.forbid == 0 && p < |s.ports| && Me(s).pc == GetForbid(p)
    ensures var q := s.ports[p].msgs;
            Path(s, 3, Go(if q == [] then s else WithMsgs(s, p, q[1..]), User(Dequeued(Head(s, p)))))
  {
    hide Path;
    GetRemoves(s, p);
    var q := s.ports[p].msgs;
    GetStep(s, 2, Go(s.(forbid := 1), GetRemove(p)),
            Go(if q == [] then s else WithMsgs(s, p, q[1..]), User(Dequeued(Head(s, p)))));
  }

  lemma GetRemoves(s: State, p: nat)
    requires s.current < |s.tasks| && s.current != BOOT && s.forbid == 0 && p < |s.ports|
    ensures var q := s.ports[p].msgs;
            Path(Go(s.(forbid := 1), GetRemove(p)), 2,
                 Go(if q == [] then s else WithMsgs(s, p, q[1..]), User(Dequeued(Head(s, p)))))
  {
    hide Path;
    var q := s.ports[p].msgs;
    var r := if q == [] then s else WithMsgs(s, p, q[1..]);
    GetLeaves(r, Head(s, p));
    GetStep(Go(s.(forbid := 1), GetRemove(p)), 1, Go(r.(forbid := 1), GetPermit(Head(s, p))),
            Go(r, User(Dequeued(Head(s, p)))));
  }

  lemma GetLeaves(s: State, head: Option<nat>)
    requires s.current < |s.tasks| && s.current != BOOT && s.forbid == 0
    ensures Path(Go(s.(forbid := 1), GetPermit(head)), 1, Go(s, User(Dequeued(head))))
  {
    hide Path;
    var t := Go(s, User(Dequeued(head)));
    Ends(t);
    GetStep(Go(s.(forbid := 1), GetPermit(head)), 0, t, t);
  }

  /** WaitPort on an empty port blocks. */
  lemma PortBlocks(s: State, p: nat)
    requires s.current < |s.tasks| && s.current != BOOT && s.forbid == 0
    requires p < |s.ports| && s.ports[p].owner < |s.tasks|
    requires Me(s).pc == PortTest(p) && s.ports[p].msgs == [] && s.ports[p].bit !in Me(s).recvd
    ensures Path(s, 7, Blocked(s, {s.ports[p].bit}, Some(p)))
  {
    hide Path;
    var mask := {s.ports[p].bit};
    var u := Go(s, WaitForbid(mask, Some(p)));
    assert Me(u).recvd * mask == {};
    WaitBlocks(u, mask, Some(p));
    assert Blocked(u, mask, Some(p)) == Blocked(s, mask, Some(p));
    GetStep(s, 6, u, Blocked(s, mask, Some(p)));
  }

  /** The owner, made ready by a message and running again, returns from WaitPort. */
  lemma PortReturns(s: State, p: nat, mask: Mask)
    requires s.current < |s.tasks| && s.current != BOOT && s.forbid == 0
    requires p < |s.ports| && s.ports[p].owner < |s.tasks|
    requires Me(s).pc == WaitSpin(mask, Some(p)) && Me(s).state == TS_RUN && s.ports[p].msgs != []
    ensures Path(s, 7, Put(s, s.current, Me(s).(recvd := Me(s).recvd - mask, pc := User(Peeked(Head(s, p))))))
  {
    hide Path, Woken;
    var w := Woken(s, mask, Some(p));
    WaitWakes(s, mask, Some(p));
    PortPeeks(s, p, mask);
    Join(s, 5, w, 2, Put(s, s.current, Me(s).(recvd := Me(s).recvd - mask, pc := User(Peeked(Head(s, p))))));
  }

  lemma PortPeeks(s: State, p: nat, mask: Mask)
    requires s.current < |s.tasks| && s.current != BOOT && p < |s.ports| && s.ports[p].owner < |s.tasks|
    requires s.ports[p].msgs != []
    ensures Path(Woken(s, mask, Some(p)), 2,
                 Put(s, s.current, Me(s).(recvd := Me(s).recvd - mask, pc := User(Peeked(Head(s, p))))))
  {
    hide Path;
    var w := Woken(s, mask, Some(p));
    var u := Go(w, PortPeek(p));
    var t := Put(s, s.current, Me(s).(recvd := Me(s).recvd - mask, pc := User(Peeked(Head(s, p)))));
    Ends(t);
    GetStep(u, 0, t, t);
    GetStep(w, 1, u, t);
  }
}
