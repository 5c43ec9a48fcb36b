/** A client and a server that exchange one message over two ports, beside a task that only burns
    time. Both message demonstrations run this exchange; what the two compute between the calls
    is added by their own modules. */
module Rendezvous {
  import opened Kernel
  import opened KernelInv
  import opened KernelCalls
  import KernelRuns
  import opened Types

  const SERVER: nat := 1
  const CLIENT: nat := 2
  const TASKS: nat := 3
  const REQ: nat := 0           // the server's port
  const REPLY: nat := 1         // the client's port
  const SIGB_REQ: nat := 8
  const SIGB_REPLY: nat := 9
  const REQUEST: nat := 0       // the one message

  /** The next user-level statement of each program; a call's statement is its return. In SWork
      and CThink the program computes, for as many statements as it likes. */
  datatype ServerPc = SWait | SGet | SGot | SWork | SReply | SDrain
  datatype ClientPc = CThink | CSend | CWait | CGet | CTaken

  datatype Sys = Sys(k: State, server: ServerPc, client: ClientPc, peeked: Option<nat>)

  function Init(): Sys
  {
    Sys(KernelRuns.Init(_ => 0, TASKS, [Port(SERVER, SIGB_REQ, []), Port(CLIENT, SIGB_REPLY, [])]),
        SWait, CThink, None)
  }

  /** `more`: a computing program has a further statement before its next call. */
  datatype Action = Statement(more: bool) | Timer(last: bool)

  /** The call a task in user code makes next, if its next statement is one. */
  function ServerCall(d: Sys): Option<Call>
  {
    match d.server
    case SWait => Some(WaitPort(REQ))
    case SGet | SDrain => Some(GetMsg(REQ))
    case SReply => Some(PutMsg(REPLY, REQUEST))
    case _ => None
  }

  function ClientCall(d: Sys): Option<Call>
  {
    match d.client
    case CSend => Some(PutMsg(REQ, REQUEST))
    case CWait => Some(WaitPort(REPLY))
    case CGet => Some(GetMsg(REPLY))
    case _ => None
  }

  function ServerUser(d: Sys, last: Result, more: bool): Sys
  {
    match d.server
    case SWait => d.(server := SGet)
    case SGet => d.(server := SGot)
    case SDrain => d.(server := SGot)
    case SGot => d.(server := if last.Dequeued? && last.msg.Some? then SWork else SWait)
    case SWork => d.(server := if more then SWork else SReply)
    case SReply => d.(server := SDrain)
  }

  function ClientUser(d: Sys, last: Result, more: bool): Sys
  {
    match d.client
    case CThink => d.(client := if more then CThink else CSend)
    case CSend => d.(client := CWait)
    case CWait => d.(client := CGet)
    case CGet => d.(client := CTaken, peeked := if last.Peeked? then last.msg else None)
    case CTaken => d.(client := CThink)
  }

  ghost predicate Live(d: Sys)
  {
    d.k.on ==> KernelInv.Inv(d.k)
  }

  /** One statement of whichever task is running, or one tick. */
  ghost function Next(d: Sys, a: Action): (d': Sys)
    requires Live(d)
  {
    if !d.k.on then d else
    match a
    case Timer(last) => d.(k := Tick(d.k, last))
    case Statement(more) =>
      var t, pc := d.k.current, Me(d.k).pc;
      if t == SERVER && pc.User? then
        (match ServerCall(d)
         case Some(c) => if Legal(d.k, c) then ServerUser(d, pc.last, more).(k := Exec(d.k, c)) else d
         case None => ServerUser(d, pc.last, more))
      else if t == CLIENT && pc.User? then
        (match ClientCall(d)
         case Some(c) => if Legal(d.k, c) then ClientUser(d, pc.last, more).(k := Exec(d.k, c)) else d
         case None => ClientUser(d, pc.last, more))
      else if pc.User? then d
      else d.(k := Exec(d.k, GetMsg(0)))
  }

  // ---- the invariant -------------------------------------------------------------------

  /** What each program counter says about the call in progress. */
  predicate ServerAt(u: ServerPc, pc: Pc)
  {
    match u
    case SGet => InWaitPort(pc, REQ) || pc.User?
    case SGot =>
      || pc == GetForbid(REQ) || pc == GetRemove(REQ) || pc == GetPermit(None) || pc == GetPermit(Some(REQUEST))
      || pc == User(Dequeued(None)) || pc == User(Dequeued(Some(REQUEST)))
    case SDrain => InPutMsg(pc, REPLY, REQUEST) || pc.User?
    case _ => pc.User?
  }

  predicate ClientAt(u: ClientPc, pc: Pc)
  {
    match u
    case CWait => InPutMsg(pc, REQ, REQUEST) || pc.User?
    case CGet => InWaitPort(pc, REPLY) || pc == User(Peeked(Some(REQUEST)))
    case CTaken => pc == GetForbid(REPLY) || pc == GetRemove(REPLY) || pc == GetPermit(Some(REQUEST))
                   || pc == User(Dequeued(Some(REQUEST)))
    case _ => pc.User?
  }

  /** The server has taken the request and not yet queued the reply. */
  predicate ServerHolds(u: ServerPc, pc: Pc)
  {
    || (u.SGot? && (pc == GetPermit(Some(REQUEST)) || pc == User(Dequeued(Some(REQUEST)))))
    || u.SWork? || u.SReply?
    || (u.SDrain? && (pc.PutForbid? || pc.PutAdd?))
  }

  /** The client has not yet queued the request, or has taken the reply. */
  predicate ClientHolds(u: ClientPc, pc: Pc)
  {
    || u.CThink? || u.CSend?
    || (u.CWait? && (pc.PutForbid? || pc.PutAdd?))
    || (u.CTaken? && (pc.GetPermit? || pc.User?))
  }

  datatype Where = AtClient | InRequestQueue | AtServer | InReplyQueue

  function Locate(d: Sys): Where
    requires |d.k.ports| == 2 && |d.k.tasks| > SERVER
  {
    if d.k.ports[REQ].msgs != [] then InRequestQueue
    else if d.k.ports[REPLY].msgs != [] then InReplyQueue
    else if ServerHolds(d.server, d.k.tasks[SERVER].pc) then AtServer
    else AtClient
  }

  ghost predicate Shape(d: Sys)
  {
    && |d.k.tasks| == TASKS + 1 && |d.k.ports| == 2
    && d.k.ports[REQ].owner == SERVER && d.k.ports[REPLY].owner == CLIENT
    && (forall t | 0 <= t <= TASKS && t != SERVER && t != CLIENT :: d.k.tasks[t].pc.User?)
  }

  /** The request is in exactly one place. */
  ghost predicate Located(d: Sys)
    requires Shape(d)
  {
    var w := Locate(d);
    && d.k.ports[REQ].msgs == (if w.InRequestQueue? then [REQUEST] else [])
    && d.k.ports[REPLY].msgs == (if w.InReplyQueue? then [REQUEST] else [])
    && (ServerHolds(d.server, d.k.tasks[SERVER].pc) <==> w.AtServer?)
    && (ClientHolds(d.client, d.k.tasks[CLIENT].pc) <==> w.AtClient?)
  }

  /** Once WaitPort has seen the reply it stays queued until the client takes it. */
  ghost predicate ReplySeen(d: Sys)
    requires Shape(d)
  {
    var pc := d.k.tasks[CLIENT].pc;
    && (d.client.CGet? && (pc.PortPeek? || pc.User?) ==> Locate(d).InReplyQueue?)
    && (d.client.CTaken? && (pc.GetForbid? || pc.GetRemove?) ==> Locate(d).InReplyQueue?)
    && (d.client.CTaken? ==> d.peeked == Some(REQUEST))
  }

  /** The programs' own state, apart from the kernel's. */
  ghost predicate Programs(d: Sys)
    requires Shape(d)
  {
    && ServerAt(d.server, d.k.tasks[SERVER].pc) && ClientAt(d.client, d.k.tasks[CLIENT].pc)
    && Located(d) && ReplySeen(d)
  }

  /** Where the exchange stands: being composed by the client, queued, served, answered but not
      yet queued, queued back, taken by the client and not yet looked at. */
  datatype Phase = Composing | Queued | Serving | Answering | Replied | Taken

  function PhaseOf(d: Sys): Phase
    requires |d.k.ports| == 2 && |d.k.tasks| > SERVER
  {
    match Locate(d)
    case InRequestQueue => Queued
    case InReplyQueue => Replied
    case AtServer => if d.server.SReply? || d.server.SDrain? then Answering else Serving
    case AtClient => if d.client.CTaken? then Taken else Composing
  }

  predicate ServerThinks(d: Sys)
    requires |d.k.tasks| > CLIENT
  {
    d.k.current == SERVER && d.k.tasks[SERVER].pc.User? && d.server.SWork?
  }

  predicate ClientThinks(d: Sys)
    requires |d.k.tasks| > CLIENT
  {
    d.k.current == CLIENT && d.k.tasks[CLIENT].pc.User? && d.client.CThink?
  }

  predicate ClientLooks(d: Sys)
    requires |d.k.tasks| > CLIENT
  {
    d.k.current == CLIENT && d.k.tasks[CLIENT].pc.User? && d.client.CTaken?
  }

  predicate PhaseNext(p: Phase, q: Phase)
  {
    q == p || (p.Composing? && q.Queued?) || (p.Queued? && q.Serving?) || (p.Answering? && q.Replied?)
      || (p.Replied? && q.Taken?)
  }

  /** A step in which neither program computes: the exchange goes on by at most one phase. */
  ghost predicate Quiet(d: Sys, d': Sys)
    requires Shape(d) && Shape(d')
  {
    && PhaseNext(PhaseOf(d), PhaseOf(d'))
    && (PhaseOf(d).Composing? && PhaseOf(d').Queued? ==> !d.client.CThink?)
    && (d'.client.CThink? <==> d.client.CThink?) && (d.server.SWork? ==> d'.server.SWork?)
  }

  /** What a step does to the exchange, the three computing statements apart. */
  ghost predicate Moves(d: Sys, d': Sys, more: bool)
    requires Shape(d) && Shape(d')
  {
    var p, q := PhaseOf(d), PhaseOf(d');
    if ServerThinks(d) then
      p.Serving? && q == (if more then Serving else Answering) && d'.server == (if more then SWork else SReply)
      && d'.client == d.client
    else if ClientThinks(d) then
      p.Composing? && q.Composing? && d'.client == (if more then CThink else CSend) && d'.server == d.server
    else if ClientLooks(d) then
      p.Taken? && q.Composing? && d'.client == CThink && d'.server == d.server && d.peeked == Some(REQUEST)
    else Quiet(d, d')
  }

  /** The exchange is in order, after the last tick too. */
  ghost predicate Inv(d: Sys)
  {
    Live(d) && Shape(d) && Programs(d)
  }

  // ---- every step keeps it -------------------------------------------------------------

  /** The programs do not see a tick. */
  lemma TimerKeeps(d: Sys, last: bool)
    requires Inv(d) && d.k.on
    ensures var d' := Next(d, Timer(last)); Inv(d') && Quiet(d, d')
  {
    hide KernelInv.Inv, Programs, SamePc;
    TimerStep(d.k, last);
    var d' := Next(d, Timer(last));
    forall t | 0 <= t < |d.k.tasks| ensures d'.k.tasks[t].pc == d.k.tasks[t].pc {
      PcOfSame(d.k, d'.k, t);
    }
    SamePrograms(d, d');
  }

  lemma PcOfSame(s: State, s': State, t: nat)
    requires t < |s.tasks| == |s'.tasks| && SamePc(s, s', t)
    ensures s'.tasks[t].pc == s.tasks[t].pc
  {
  }

  lemma SamePrograms(d: Sys, d': Sys)
    requires Shape(d) && Programs(d)
    requires d' == d.(k := d'.k) && d'.k.ports == d.k.ports && |d'.k.tasks| == |d.k.tasks|
    requires forall t | 0 <= t < |d.k.tasks| :: d'.k.tasks[t].pc == d.k.tasks[t].pc
    ensures Shape(d') && Programs(d') && Quiet(d, d')
  {
  }

  lemma ShapeKept(d: Sys, d': Sys)
    requires Shape(d) && d.k.current < |d.k.tasks| && PcStep(d.k, d'.k)
               && (d.k.current == SERVER || d.k.current == CLIENT)
    ensures Shape(d')
    ensures d.k.current == SERVER ==> d'.k.tasks[CLIENT].pc == d.k.tasks[CLIENT].pc
    ensures d.k.current == CLIENT ==> d'.k.tasks[SERVER].pc == d.k.tasks[SERVER].pc
  {
    assert SamePort(d.k, d'.k, REQ) && SamePort(d.k, d'.k, REPLY);
  }

  lemma ServerKernel(d: Sys, more: bool)
    requires Inv(d) && d.k.on && d.k.current == SERVER && !Me(d.k).pc.User?
    ensures var d' := Next(d, Statement(more)); Inv(d') && Quiet(d, d')
  {
    hide KernelInv.Inv, Exec, Locate, Located, ReplySeen, PcStep;
    CurrentInRange(d.k);
    var c := GetMsg(0);
    StepKeeps(d.k, c);
    ShapeKept(d, Next(d, Statement(more)));
    match d.server
    case SGet => WaitPortStep(d.k, REQ, c); ServerWaits(d, Next(d, Statement(more)));
    case SGot => GetMsgStep(d.k, REQ, c); ServerTakes(d, Next(d, Statement(more)));
    case SDrain => PutMsgStep(d.k, REPLY, REQUEST, c); ServerReplies(d, Next(d, Statement(more)));
  }

  lemma CurrentInRange(s: State)
    requires KernelInv.Inv(s)
    ensures s.current < |s.tasks| && InRange(s, Me(s).pc)
  {
  }

  /** Only the server's program counter moved, and no queue changed. */
  ghost predicate ServerMoved(d: Sys, d': Sys)
    requires Shape(d) && Shape(d')
  {
    d' == d.(k := d'.k) && d'.k.tasks[CLIENT].pc == d.k.tasks[CLIENT].pc
  }

  lemma ServerWaits(d: Sys, d': Sys)
    requires Shape(d) && Shape(d') && Programs(d) && ServerMoved(d, d') && d.server.SGet?
    requires d'.k.ports == d.k.ports && (InWaitPort(d'.k.tasks[SERVER].pc, REQ) || d'.k.tasks[SERVER].pc.User?)
    ensures Programs(d') && Quiet(d, d')
  {
  }

  lemma ServerTakes(d: Sys, d': Sys)
    requires Shape(d) && Shape(d') && Programs(d) && ServerMoved(d, d') && d.server.SGot?
    requires !d.k.tasks[SERVER].pc.User?
    requires GetMsgMoves(d.k, REQ, d.k.tasks[SERVER].pc, d'.k.tasks[SERVER].pc, d'.k.ports)
    ensures Programs(d') && Quiet(d, d')
  {
  }

  lemma ServerReplies(d: Sys, d': Sys)
    requires Shape(d) && Shape(d') && Programs(d) && ServerMoved(d, d') && d.server.SDrain?
    requires !d.k.tasks[SERVER].pc.User?
    requires PutMsgMoves(d.k, REPLY, REQUEST, d.k.tasks[SERVER].pc, d'.k.tasks[SERVER].pc, d'.k.ports)
    ensures Programs(d') && Quiet(d, d')
  {
  }

  /** Every call a program makes is legal: in particular the request is nowhere else when it is
      put on a queue. */
  lemma CallsAreLegal(d: Sys)
    requires Inv(d) && d.k.on && d.k.current < |d.k.tasks| && Me(d.k).pc.User?
    ensures d.k.current == SERVER && ServerCall(d).Some? ==> Legal(d.k, ServerCall(d).value)
    ensures d.k.current == CLIENT && ClientCall(d).Some? ==> Legal(d.k, ClientCall(d).value)
  {
    hide KernelInv.Inv;
    if (d.k.current == SERVER && d.server.SReply?) || (d.k.current == CLIENT && d.client.CSend?) {
      NotInFlight(d);
    }
  }

  lemma NotInFlight(d: Sys)
    requires Shape(d) && Programs(d)
    requires d.server.SReply? || (d.client.CSend? && d.k.tasks[CLIENT].pc.User?)
    ensures !InFlight(d.k, REQUEST)
  {
    forall p | 0 <= p < |d.k.ports| ensures REQUEST !in d.k.ports[p].msgs {
      assert p == REQ || p == REPLY;
    }
    forall t | 0 <= t < |d.k.tasks| ensures !PutsMessage(d.k.tasks[t].pc, REQUEST) {
    }
  }

  lemma ServerUserKeeps(d: Sys, more: bool)
    requires Inv(d) && d.k.on && d.k.current == SERVER && Me(d.k).pc.User?
    ensures var d' := Next(d, Statement(more)); Inv(d') && Moves(d, d', more)
  {
    hide KernelInv.Inv, Exec, Programs, PcStep, Legal;
    CurrentInRange(d.k);
    CallsAreLegal(d);
    var d' := Next(d, Statement(more));
    match ServerCall(d)
    case None => ServerComputes(d, d', more);
    case Some(c) =>
      StepKeeps(d.k, c);
      ShapeKept(d, d');
      CallBegins(d.k, c);
      ServerCalls(d, d');
  }

  lemma ServerComputes(d: Sys, d': Sys, more: bool)
    requires Shape(d) && Programs(d) && d.k.current == SERVER && d.k.tasks[SERVER].pc.User? && ServerCall(d).None?
    requires d' == ServerUser(d, d.k.tasks[SERVER].pc.last, more)
    ensures Programs(d') && Moves(d, d', more)
  {
  }

  lemma ServerCalls(d: Sys, d': Sys)
    requires Shape(d) && Shape(d') && Programs(d) && d.k.tasks[SERVER].pc.User? && ServerCall(d).Some?
    requires d' == ServerUser(d, d.k.tasks[SERVER].pc.last, false).(k := d'.k) && d'.k.ports == d.k.ports
    requires d'.k.tasks[SERVER].pc == Entry(ServerCall(d).value) && d'.k.tasks[CLIENT].pc == d.k.tasks[CLIENT].pc
    ensures Programs(d') && Quiet(d, d')
  {
  }

  lemma ClientKernel(d: Sys, more: bool)
    requires Inv(d) && d.k.on && d.k.current == CLIENT && !Me(d.k).pc.User?
    ensures var d' := Next(d, Statement(more)); Inv(d') && Quiet(d, d')
  {
    hide KernelInv.Inv, Exec, Locate, Located, PcStep;
    CurrentInRange(d.k);
    var c := GetMsg(0);
    StepKeeps(d.k, c);
    ShapeKept(d, Next(d, Statement(more)));
    match d.client
    case CWait => PutMsgStep(d.k, REQ, REQUEST, c); ClientSends(d, Next(d, Statement(more)));
    case CGet => WaitPortStep(d.k, REPLY, c); ClientWaits(d, Next(d, Statement(more)));
    case CTaken => GetMsgStep(d.k, REPLY, c); ClientTakes(d, Next(d, Statement(more)));
  }

  ghost predicate ClientMoved(d: Sys, d': Sys)
    requires Shape(d) && Shape(d')
  {
    d' == d.(k := d'.k) && d'.k.tasks[SERVER].pc == d.k.tasks[SERVER].pc
  }

  lemma ClientSends(d: Sys, d': Sys)
    requires Shape(d) && Shape(d') && Programs(d) && ClientMoved(d, d') && d.client.CWait?
    requires !d.k.tasks[CLIENT].pc.User?
    requires PutMsgMoves(d.k, REQ, REQUEST, d.k.tasks[CLIENT].pc, d'.k.tasks[CLIENT].pc, d'.k.ports)
    ensures Programs(d') && Quiet(d, d')
  {
  }

  lemma ClientWaits(d: Sys, d': Sys)
    requires Shape(d) && Shape(d') && Programs(d) && ClientMoved(d, d') && d.client.CGet?
    requires d'.k.ports == d.k.ports && !d.k.tasks[CLIENT].pc.User?
    requires var pc, pc' := d.k.tasks[CLIENT].pc, d'.k.tasks[CLIENT].pc;
             && (InWaitPort(pc', REPLY) || (pc.PortPeek? && pc' == User(Peeked(Head(d.k, REPLY)))))
             && (pc'.PortPeek? ==> d.k.ports[REPLY].msgs != [])
    ensures Programs(d') && Quiet(d, d')
  {
  }

  lemma ClientTakes(d: Sys, d': Sys)
    requires Shape(d) && Shape(d') && Programs(d) && ClientMoved(d, d') && d.client.CTaken?
    requires !d.k.tasks[CLIENT].pc.User?
    requires GetMsgMoves(d.k, REPLY, d.k.tasks[CLIENT].pc, d'.k.tasks[CLIENT].pc, d'.k.ports)
    ensures Programs(d') && Quiet(d, d')
  {
  }

  lemma ClientUserKeeps(d: Sys, more: bool)
    requires Inv(d) && d.k.on && d.k.current == CLIENT && Me(d.k).pc.User?
    ensures var d' := Next(d, Statement(more)); Inv(d') && Moves(d, d', more)
  {
    hide KernelInv.Inv, Exec, Programs, PcStep, Legal;
    CurrentInRange(d.k);
    CallsAreLegal(d);
    var d' := Next(d, Statement(more));
    match ClientCall(d)
    case None => ClientComputes(d, d', more);
    case Some(c) =>
      StepKeeps(d.k, c);
      ShapeKept(d, d');
      CallBegins(d.k, c);
      ClientCalls(d, d');
  }

  lemma ClientComputes(d: Sys, d': Sys, more: bool)
    requires Shape(d) && Programs(d) && d.k.current == CLIENT && d.k.tasks[CLIENT].pc.User? && ClientCall(d).None?
    requires d' == ClientUser(d, d.k.tasks[CLIENT].pc.last, more)
    ensures Programs(d') && Moves(d, d', more)
  {
  }

  lemma ClientCalls(d: Sys, d': Sys)
    requires Shape(d) && Shape(d') && Programs(d) && d.k.tasks[CLIENT].pc.User? && ClientCall(d).Some?
    requires d' == ClientUser(d, d.k.tasks[CLIENT].pc.last, false).(k := d'.k) && d'.k.ports == d.k.ports
    requires d'.k.tasks[CLIENT].pc == Entry(ClientCall(d).value) && d'.k.tasks[SERVER].pc == d.k.tasks[SERVER].pc
    ensures Programs(d') && Quiet(d, d')
  {
  }

  /** Every step keeps the exchange in order, and moves it as the programs say. */
  lemma NextMoves(d: Sys, a: Action)
    requires Inv(d)
    ensures var d' := Next(d, a);
            && Inv(d')
            && if !d.k.on then d' == d else if a.Timer? then Quiet(d, d') else Moves(d, d', a.more)
  {
    hide KernelInv.Inv, Programs, Exec, Quiet;
    if d.k.on {
      CurrentInRange(d.k);
      if a.Timer? { TimerKeeps(d, a.last); }
      else if d.k.current == SERVER {
        if Me(d.k).pc.User? { ServerUserKeeps(d, a.more); } else { ServerKernel(d, a.more); }
      } else if d.k.current == CLIENT {
        if Me(d.k).pc.User? { ClientUserKeeps(d, a.more); } else { ClientKernel(d, a.more); }
      } else {
        Idles(d);
      }
    }
  }

  /** The third task makes no calls. */
  lemma Idles(d: Sys)
    requires Inv(d) && d.k.on && d.k.current != SERVER && d.k.current != CLIENT && d.k.current < |d.k.tasks|
    ensures Me(d.k).pc.User? && Quiet(d, d)
  {
    hide KernelInv.Inv;
  }

  // ---- the start, and states any run can reach -----------------------------------------

  lemma InitInv()
    ensures Inv(Init()) && Init().k.on && PhaseOf(Init()) == Composing
  {
    KernelRuns.InitInv(Init().k.pri, TASKS, Init().k.ports);
  }

  lemma InitThinks()
    ensures Init().client.CThink? && Init().server.SWait?
  {
  }

  lemma LooksIsTaken(d: Sys)
    requires Inv(d) && ClientLooks(d)
    ensures PhaseOf(d).Taken?
  {
    hide KernelInv.Inv;
  }

  ghost function Run(d: Sys, actions: seq<Action>): Sys
    requires Inv(d)
    decreases |actions|
  {
    if actions == [] then d else NextMoves(d, actions[0]); Run(Next(d, actions[0]), actions[1..])
  }

  lemma {:induction false} RunKeepsInv(d: Sys, actions: seq<Action>)
    requires Inv(d)
    ensures Inv(Run(d, actions))
    decreases |actions|
  {
    hide KernelInv.Inv, Programs, Next;
    if actions == [] {
    } else {
      NextMoves(d, actions[0]);
      RunKeepsInv(Next(d, actions[0]), actions[1..]);
    }
  }

  ghost function Reached(actions: seq<Action>): Sys
  {
    InitInv();
    Run(Init(), actions)
  }

  /** Under any schedule and whatever the two compute: the message is in exactly one place, once. */
  lemma OneMessageInFlight(actions: seq<Action>)
    ensures var d := Reached(actions);
            && |d.k.ports| == 2 && |d.k.tasks| == TASKS + 1
            && (var w := Locate(d);
                && d.k.ports[REQ].msgs == (if w.InRequestQueue? then [REQUEST] else [])
                && d.k.ports[REPLY].msgs == (if w.InReplyQueue? then [REQUEST] else [])
                && (ServerHolds(d.server, d.k.tasks[SERVER].pc) <==> w.AtServer?)
                && (ClientHolds(d.client, d.k.tasks[CLIENT].pc) <==> w.AtClient?))
  {
    hide Next, KernelInv.Inv;
    InitInv();
    RunKeepsInv(Init(), actions);
  }

  /** Under any schedule: what the client dequeues is its own message, and nothing else. */
  lemma ClientGetsItsOwn(actions: seq<Action>)
    ensures var d := Reached(actions);
            |d.k.tasks| == TASKS + 1 && (ClientLooks(d) ==>
              d.k.tasks[CLIENT].pc == User(Dequeued(Some(REQUEST))) && d.peeked == Some(REQUEST))
  {
    hide Next, KernelInv.Inv;
    InitInv();
    RunKeepsInv(Init(), actions);
  }

  /** Under any schedule: wherever a switch can happen, client and server are not both blocked. */
  lemma NeverBothBlocked(actions: seq<Action>)
    ensures var d := Reached(actions);
            |d.k.tasks| == TASKS + 1 && (d.k.on && d.k.forbid == 0 ==>
              d.k.tasks[SERVER].state != TS_WAIT || d.k.tasks[CLIENT].state != TS_WAIT)
  {
    hide Next;
    InitInv();
    RunKeepsInv(Init(), actions);
    var d := Reached(actions);
    if d.k.on && d.k.forbid == 0 && d.k.tasks[SERVER].state == TS_WAIT { ServerBlockedClientNot(d); }
  }

  lemma ServerBlockedClientNot(d: Sys)
    requires Inv(d) && d.k.on && d.k.forbid == 0 && |d.k.tasks| == TASKS + 1 && d.k.tasks[SERVER].state == TS_WAIT
    ensures d.k.tasks[CLIENT].state != TS_WAIT
  {
    var server, client := d.k.tasks[SERVER].pc, d.k.tasks[CLIENT].pc;
    BlockedInWait(d, SERVER);
    if d.k.tasks[CLIENT].state == TS_WAIT {
      BlockedInWait(d, CLIENT);
      if Locate(d).InRequestQueue? { KernelRuns.BlockedHasSender(d.k, SERVER, REQ); }
      else { KernelRuns.BlockedHasSender(d.k, CLIENT, REPLY); }
    }
  }

  lemma BlockedInWait(d: Sys, t: nat)
    requires KernelInv.Inv(d.k) && d.k.forbid == 0 && t < |d.k.tasks| && d.k.tasks[t].state == TS_WAIT
    ensures d.k.tasks[t].pc.WaitSpin? && !BeingWoken(d.k, t)
  {
    assert Good(d.k, t);
    assert !d.k.tasks[t].pc.Critical();
  }

  // ---- the exchange runs on the kernel -------------------------------------------------

  /** A step of the exchange is a step of the kernel, or one the kernel does not see. */
  lemma StepIsKernels(d: Sys, a: Action)
    requires Inv(d)
    ensures KernelRuns.Live(d.k)
    ensures var k' := Next(d, a).k;
            match a
            case Timer(last) => k' == KernelRuns.Next(d.k, KernelRuns.Timer(last))
            case Statement(_) => k' == d.k || exists c :: k' == KernelRuns.Next(d.k, KernelRuns.Statement(c))
  {
    hide KernelInv.Inv, Programs, Exec, Tick;
    if a.Statement? && d.k.on {
      CurrentInRange(d.k);
      var pc := Me(d.k).pc;
      var call := if !pc.User? then GetMsg(0)
                  else if d.k.current == SERVER && ServerCall(d).Some? then ServerCall(d).value
                  else if d.k.current == CLIENT && ClientCall(d).Some? then ClientCall(d).value
                  else GetMsg(0);
      assert KernelRuns.Next(d.k, KernelRuns.Statement(call)) == Exec(d.k, call);
    }
  }

  /** So every run of it is a run of the kernel, and the kernel's theorems are about it. */
  lemma {:induction false} RunIsKernels(d: Sys, actions: seq<Action>)
    requires Inv(d)
    ensures KernelRuns.Live(d.k) && exists steps :: KernelRuns.Run(d.k, steps) == Run(d, actions).k
    decreases |actions|
  {
    hide KernelInv.Inv, Programs, Next, KernelRuns.Next;
    if actions == [] {
      assert KernelRuns.Run(d.k, []) == d.k;
    } else {
      NextMoves(d, actions[0]);
      StepIsKernels(d, actions[0]);
      var u := Next(d, actions[0]);
      RunIsKernels(u, actions[1..]);
      var rest :| KernelRuns.Run(u.k, rest) == Run(u, actions[1..]).k;
      if u.k == d.k {
        assert KernelRuns.Run(d.k, rest) == Run(d, actions).k;
      } else {
        var step := if actions[0].Timer? then KernelRuns.Timer(actions[0].last)
                    else KernelRuns.Statement(KernelCall(d, u));
        assert ([step] + rest)[1..] == rest;
        assert KernelRuns.Run(d.k, [step] + rest) == Run(d, actions).k;
      }
    }
  }

  ghost function KernelCall(d: Sys, u: Sys): (c: Call)
    requires KernelRuns.Live(d.k) && exists c :: u.k == KernelRuns.Next(d.k, KernelRuns.Statement(c))
    ensures u.k == KernelRuns.Next(d.k, KernelRuns.Statement(c))
  {
    var c :| u.k == KernelRuns.Next(d.k, KernelRuns.Statement(c));
    c
  }
}
