/** The programs of the message-port demonstration: the client sends a number, the server squares
    it, and the client checks the square. */
module RequestReply {
  import C = Rendezvous
  import opened Types

  /** Statements the client computes between taking one reply and sending the next request. */
  datatype Compose = CountRound | CountUp | SetValue | SetResult | Composed

  datatype Sys = Sys(c: C.Sys, compose: Compose, squared: bool,
                     n: int, value: int, result: int, rounds: int, errors: int, served: int)

  function Init(): Sys
  {
    Sys(C.Init(), CountUp, false, 0, 0, 0, 0, 0, 0)
  }

  datatype Action = Statement | Timer(last: bool)

  /** One statement of the server's loop body: the square, then the count. */
  function Serve(d: Sys): Sys
  {
    if !d.squared then d.(result := d.value * d.value, squared := true)
    else d.(served := d.served + 1, squared := false)
  }

  /** One statement of the client's loop body before the request is sent. */
  function ComposeStep(d: Sys): Sys
  {
    match d.compose
    case CountRound => d.(rounds := d.rounds + 1, compose := CountUp)
    case CountUp => d.(n := d.n + 1, compose := SetValue)
    case SetValue => d.(value := d.n, compose := SetResult)
    case SetResult | Composed => d.(result := -1, compose := Composed)
  }

  /** The check of the reply, made through the pointer WaitPort returned. */
  function Verify(d: Sys): Sys
  {
    d.(compose := CountRound,
       errors := if d.c.peeked == Some(C.REQUEST) && d.result == d.value * d.value then d.errors else d.errors + 1)
  }

  /** It counts an error exactly for a reply that is not the client's request, or not the square. */
  lemma WrongReplyCounts(d: Sys)
    ensures Verify(d).errors == d.errors <==> d.c.peeked == Some(C.REQUEST) && d.result == d.value * d.value
    ensures d.errors <= Verify(d).errors <= d.errors + 1
  {
  }

  ghost function Next(d: Sys, a: Action): Sys
    requires C.Inv(d.c)
  {
    if !d.c.k.on then d else
    match a
    case Timer(last) => d.(c := C.Next(d.c, C.Timer(last)))
    case Statement =>
      if C.ServerThinks(d.c) then Serve(d).(c := C.Next(d.c, C.Statement(!d.squared)))
      else if C.ClientThinks(d.c) then
        var e := ComposeStep(d);
        e.(c := C.Next(d.c, C.Statement(!e.compose.Composed?)))
      else if C.ClientLooks(d.c) then Verify(d).(c := C.Next(d.c, C.Statement(false)))
      else d.(c := C.Next(d.c, C.Statement(false)))
  }

  /** The number and its square, by where the exchange stands. */
  ghost predicate DataOk(d: Sys)
    requires C.Shape(d.c)
  {
    var p := C.PhaseOf(d.c);
    && d.errors == 0
    && (d.squared ==> d.c.server.SWork? && p.Serving?)
    && match p
       case Composing =>
         && (d.compose.Composed? <==> !d.c.client.CThink?)
         && d.n == (if d.compose.CountUp? then d.rounds else d.rounds + 1)
         && (d.compose.CountRound? ==> d.result == d.value * d.value && d.value == d.n)
         && (d.compose.SetResult? || d.compose.Composed? ==> d.value == d.n)
         && (d.compose.Composed? ==> d.result == -1)
         && d.served == (if d.compose.CountRound? then d.rounds + 1 else d.rounds)
       case Queued => d.value == d.n == d.rounds + 1 && d.served == d.rounds && d.result == -1
       case Serving =>
         && d.value == d.n == d.rounds + 1 && d.served == d.rounds
         && d.result == if d.squared then d.value * d.value else -1
       case Answering | Replied | Taken =>
         d.value == d.n == d.rounds + 1 && d.served == d.rounds + 1 && d.result == d.value * d.value
  }

  ghost predicate Inv(d: Sys)
  {
    C.Inv(d.c) && DataOk(d)
  }

  lemma NextKeepsInv(d: Sys, a: Action)
    requires Inv(d)
    ensures Inv(Next(d, a))
  {
    hide C.Inv, C.Next, C.PhaseOf;
    OnShape(d.c);
    if d.c.k.on {
      var more := if C.ServerThinks(d.c) then !d.squared else C.ClientThinks(d.c) && !ComposeStep(d).compose.Composed?;
      var ca := if a.Timer? then C.Timer(a.last) else C.Statement(more);
      C.NextMoves(d.c, ca);
      var d' := Next(d, a);
      assert d'.c == C.Next(d.c, ca);
      OnShape(d'.c);
      if a.Timer? { QuietKeeps(d, d'); } else { MovesKeep(d, d', more); }
    }
  }

  lemma OnShape(c: C.Sys)
    requires C.Inv(c)
    ensures C.Shape(c) && C.Live(c)
  {
  }

  lemma QuietKeeps(d: Sys, d': Sys)
    requires C.Shape(d.c) && C.Shape(d'.c) && DataOk(d) && C.Quiet(d.c, d'.c) && d' == d.(c := d'.c)
    ensures DataOk(d')
  {
    hide C.PhaseOf;
  }

  lemma MovesKeep(d: Sys, d': Sys, more: bool)
    requires C.Shape(d.c) && C.Shape(d'.c) && DataOk(d) && C.Moves(d.c, d'.c, more)
    requires d' == (if C.ServerThinks(d.c) then Serve(d) else if C.ClientThinks(d.c) then ComposeStep(d)
                    else if C.ClientLooks(d.c) then Verify(d) else d).(c := d'.c)
    requires C.ServerThinks(d.c) ==> more == !d.squared
    requires C.ClientThinks(d.c) ==> more == !ComposeStep(d).compose.Composed?
    ensures DataOk(d')
  {
    hide C.PhaseOf;
  }

  ghost function Run(d: Sys, actions: seq<Action>): Sys
    requires Inv(d)
    decreases |actions|
  {
    if actions == [] then d else NextKeepsInv(d, actions[0]); Run(Next(d, actions[0]), actions[1..])
  }

  lemma {:induction false} RunKeepsInv(d: Sys, actions: seq<Action>)
    requires Inv(d)
    ensures Inv(Run(d, actions))
    decreases |actions|
  {
    hide C.Inv, DataOk, Next;
    if actions == [] {
    } else {
      NextKeepsInv(d, actions[0]);
      RunKeepsInv(Next(d, actions[0]), actions[1..]);
    }
  }

  lemma InitInv()
    ensures Inv(Init())
  {
    hide C.Inv, C.PhaseOf;
    C.InitInv();
    OnShape(C.Init());
  }

  ghost function Reached(actions: seq<Action>): Sys
  {
    InitInv();
    Run(Init(), actions)
  }

  /** Under any schedule, and when it is over: no reply is wrong, and the server has counted as
      many rounds as the client, or one more. */
  lemma EveryReplyIsRight(actions: seq<Action>)
    ensures var d := Reached(actions);
            d.errors == 0 && (d.served == d.rounds || d.served == d.rounds + 1)
  {
    hide C.Inv, Next, C.PhaseOf;
    InitInv();
    RunKeepsInv(Init(), actions);
    OnShape(Reached(actions).c);
  }

  /** Under any schedule: the number under way is one more than the rounds counted so far, the answer
      is -1 until the server has written it, and its square from then on. */
  lemma RequestCarriesItsRound(actions: seq<Action>)
    ensures var d := Reached(actions);
            && |d.c.k.tasks| == C.TASKS + 1 && |d.c.k.ports| == 2
            && (!C.PhaseOf(d.c).Composing? ==> d.value == d.rounds + 1)
            && (C.PhaseOf(d.c).Queued? ==> d.result == -1)
            && (C.PhaseOf(d.c).Replied? || C.PhaseOf(d.c).Taken? ==> d.result == (d.rounds + 1) * (d.rounds + 1))
  {
    hide C.Inv, Next, C.PhaseOf;
    InitInv();
    RunKeepsInv(Init(), actions);
    OnShape(Reached(actions).c);
  }
}
