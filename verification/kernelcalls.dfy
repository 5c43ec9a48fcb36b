/** What one statement of each call does to the caller's program counter and to the ports, for
    programs that make the calls. */
module KernelCalls {
  import opened Kernel
  import opened KernelInv
  import opened Types

  predicate InWaitPort(pc: Pc, p: nat)
  {
    pc == PortTest(p) || pc == PortPeek(p) || (InWait(pc) && pc.back == Some(p))
  }

  predicate InGetMsg(pc: Pc, p: nat)
  {
    pc == GetForbid(p) || pc == GetRemove(p) || pc.GetPermit?
  }

  /** In PutMsg of m, or in the Signal it ends with. */
  predicate InPutMsg(pc: Pc, p: nat, m: nat)
  {
    pc == PutForbid(p, m) || pc == PutAdd(p, m) || pc == PutPermit(p) || pc == PutSignal(p) || InSignal(pc)
  }

  function Head(s: State, p: nat): Option<nat>
    requires p < |s.ports|
  {
    if s.ports[p].msgs == [] then None else Some(s.ports[p].msgs[0])
  }

  lemma StepKeeps(s: State, c: Call)
    requires Inv(s) && s.current != BOOT && (Me(s).pc.User? ==> Legal(s, c))
    ensures Inv(Exec(s, c)) && PcStep(s, Exec(s, c))
  {
    ExecKeepsInv(s, c);
    ExecIsPcStep(s, c);
  }

  lemma CallBegins(s: State, c: Call)
    requires s.current < |s.tasks| && s.current != BOOT && Me(s).pc.User? && Legal(s, c)
    ensures var s' := Exec(s, c); s'.current == s.current < |s'.tasks| && Me(s').pc == Entry(c) && s'.ports == s.ports
  {
  }

  lemma WaitPortStep(s: State, p: nat, c: Call)
    requires s.current < |s.tasks| && s.current != BOOT && InWaitPort(Me(s).pc, p) && p < |s.ports|
    requires InRange(s, Me(s).pc)
    ensures var s' := Exec(s, c);
            && s'.current == s.current < |s'.tasks| && s'.ports == s.ports
            && (InWaitPort(Me(s').pc, p) || (Me(s).pc.PortPeek? && Me(s').pc == User(Peeked(Head(s, p)))))
            && (Me(s').pc.PortPeek? ==> s.ports[p].msgs != [])
  {
    if InWait(Me(s).pc) { WaitMoves(s, c); }
  }

  /** Wait's statements, for the caller and the ports. */
  lemma WaitMoves(s: State, c: Call)
    requires s.current < |s.tasks| && s.current != BOOT && InWait(Me(s).pc)
    ensures var s', pc := Exec(s, c), Me(s).pc;
            && s'.current == s.current && |s'.tasks| == |s.tasks| && s'.ports == s.ports
            && (if pc.WaitReturn? then Me(s').pc == (match pc.back
                                               case None => User(Received(pc.got))
                                               case Some(p) => PortTest(p))
                else InWait(Me(s').pc) && Me(s').pc.mask == pc.mask && Me(s').pc.back == pc.back)
            && (Me(s').pc.WaitReturn? <==> pc.WaitClear?)
  {
    ExecIsWait(s, c);
    hide Exec;
  }

  lemma ExecIsWait(s: State, c: Call)
    requires s.current < |s.tasks| && s.current != BOOT && InWait(Me(s).pc)
    ensures Exec(s, c) == ExecWait(s)
  {
    hide ExecWait;
  }

  /** GetMsg's statements: Forbid, RemHead, Permit and return. */
  predicate GetMsgMoves(s: State, p: nat, pc: Pc, pc': Pc, ports': seq<Port>)
    requires p < |s.ports|
  {
    var q := s.ports[p].msgs;
    && (pc.GetForbid? ==> pc' == GetRemove(p))
    && (pc.GetRemove? ==> pc' == GetPermit(Head(s, p)))
    && (pc.GetPermit? ==> pc' == User(Dequeued(pc.head)))
    && ports' == if pc.GetRemove? && q != [] then s.ports[p := s.ports[p].(msgs := q[1..])] else s.ports
  }

  /** PutMsg's statements up to the queue, then the Signal. */
  predicate PutMsgMoves(s: State, p: nat, m: nat, pc: Pc, pc': Pc, ports': seq<Port>)
    requires p < |s.ports|
  {
    && (InPutMsg(pc', p, m) || pc' == User(Done))
    && (pc.PutForbid? ==> pc'.PutAdd?)
    && (!pc.PutForbid? ==> !pc'.PutForbid? && !pc'.PutAdd?)
    && ports' == if pc.PutAdd? then s.ports[p := s.ports[p].(msgs := s.ports[p].msgs + [m])] else s.ports
  }

  lemma GetMsgStep(s: State, p: nat, c: Call)
    requires s.current < |s.tasks| && s.current != BOOT && InGetMsg(Me(s).pc, p) && p < |s.ports|
    ensures var s' := Exec(s, c);
            && s'.current == s.current < |s'.tasks|
            && GetMsgMoves(s, p, Me(s).pc, Me(s').pc, s'.ports)
  {
  }

  lemma PutMsgStep(s: State, p: nat, m: nat, c: Call)
    requires s.current < |s.tasks| && s.current != BOOT && InPutMsg(Me(s).pc, p, m) && p < |s.ports|
    requires InRange(s, Me(s).pc)
    ensures var s' := Exec(s, c);
            && s'.current == s.current < |s'.tasks|
            && PutMsgMoves(s, p, m, Me(s).pc, Me(s').pc, s'.ports)
  {
  }

  /** Signal's statements: the target's word gains the mask in the second, and nothing else is
      received by anyone. */
  lemma SignalCallStep(s: State, c: Call)
    requires s.current < |s.tasks| && s.current != BOOT && InSignal(Me(s).pc) && InRange(s, Me(s).pc)
    ensures var s', pc := Exec(s, c), Me(s).pc;
            && s'.current == s.current && |s'.tasks| == |s.tasks|
            && (Me(s').pc == User(Done) || InSignal(Me(s').pc))
            && (pc.SigForbid? ==> Me(s').pc == SigPost(pc.x, pc.mask))
            && (!pc.SigForbid? ==> !Me(s').pc.SigForbid? && !Me(s').pc.SigPost?)
            && forall t | 0 <= t < |s.tasks| ::
                 s'.tasks[t].recvd == if pc.SigPost? && t == pc.x then s.tasks[t].recvd + pc.mask else s.tasks[t].recvd
  {
  }

  /** Wait's statements: the mask's bits are taken in one, just before the last. */
  lemma WaitCallStep(s: State, c: Call)
    requires s.current < |s.tasks| && s.current != BOOT && InWait(Me(s).pc)
    ensures var s', pc := Exec(s, c), Me(s).pc;
            && s'.current == s.current && |s'.tasks| == |s.tasks|
            && (Me(s').pc.WaitReturn? <==> pc.WaitClear?)
            && (pc.back.None? ==>
                  if pc.WaitReturn? then Me(s').pc == User(Received(pc.got))
                  else InWait(Me(s').pc) && Me(s').pc.mask == pc.mask && Me(s').pc.back.None?)
            && forall t | 0 <= t < |s.tasks| ::
                 s'.tasks[t].recvd ==
                 if pc.WaitClear? && t == s.current then s.tasks[t].recvd - pc.mask else s.tasks[t].recvd
  {
    hide Exec, ExecWait;
    WaitMoves(s, c);
    forall t | 0 <= t < |s.tasks|
      ensures Exec(s, c).tasks[t].recvd ==
              if Me(s).pc.WaitClear? && t == s.current then s.tasks[t].recvd - Me(s).pc.mask else s.tasks[t].recvd
    {
      WaitWords(s, c, t);
    }
  }

  lemma WaitWords(s: State, c: Call, t: nat)
    requires s.current < |s.tasks| && s.current != BOOT && InWait(Me(s).pc) && t < |s.tasks|
    ensures |Exec(s, c).tasks| == |s.tasks|
    ensures Exec(s, c).tasks[t].recvd ==
            if Me(s).pc.WaitClear? && t == s.current then s.tasks[t].recvd - Me(s).pc.mask else s.tasks[t].recvd
  {
    ExecIsWait(s, c);
    hide Exec;
  }

  /** No other call touches a received word. */
  lemma OthersKeepWords(s: State, c: Call, t: nat)
    requires s.current < |s.tasks| && InRange(s, Me(s).pc) && t < |s.tasks|
    requires !InWait(Me(s).pc) && !InSignal(Me(s).pc)
    ensures |Exec(s, c).tasks| == |s.tasks| && Exec(s, c).tasks[t].recvd == s.tasks[t].recvd
  {
  }

  /** A tick, the last one included, leaves every program counter, signal word and queue alone. */
  lemma TimerStep(s: State, last: bool)
    requires Inv(s) && s.on
    ensures var s' := Tick(s, last);
            && |s'.tasks| == |s.tasks| && s'.ports == s.ports
            && (s'.on ==> Inv(s'))
            && forall t | 0 <= t < |s.tasks| :: SamePc(s, s', t)
  {
    hide Good, NotLost, Lists, Locks, Backs, MoverOk;
    TickKeepsInv(s, last);
    if s.forbid == 0 && !last && s.ready != [] { SwitchShape(s); }
  }
}
