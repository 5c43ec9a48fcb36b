/** Runs of the message-port demonstration: any number of rounds is reached by some run. */
module RequestRounds {
  import opened RequestReply
  import opened Exchange
  import C = Rendezvous

  /** Some run of the two programs leads from d to t. */
  ghost predicate Reaches(d: Sys, t: Sys)
  {
    Inv(d) && exists actions :: Run(d, actions) == t
  }

  lemma Here(d: Sys)
    requires Inv(d)
    ensures Reaches(d, d)
  {
    hide Inv;
    assert Run(d, []) == d;
  }

  lemma {:induction false} RunJoin(d: Sys, a: seq<Action>, b: seq<Action>)
    requires Inv(d)
    ensures Inv(Run(d, a)) && Run(d, a + b) == Run(Run(d, a), b)
    decreases |a|
  {
    hide C.Inv, DataOk, Next;
    RunKeepsInv(d, a);
    if a == [] {
      assert a + b == b;
    } else {
      NextKeepsInv(d, a[0]);
      RunJoin(Next(d, a[0]), a[1..], b);
      assert (a + b)[1..] == a[1..] + b;
    }
  }

  lemma Onward(d: Sys, u: Sys, t: Sys)
    requires Reaches(d, u) && Reaches(u, t)
    ensures Reaches(d, t)
  {
    hide Inv, Next, Run;
    var a :| Run(d, a) == u;
    var b :| Run(u, b) == t;
    RunJoin(d, a, b);
  }

  lemma Step(d: Sys, a: Action)
    requires Inv(d)
    ensures Inv(Next(d, a)) && Reaches(d, Next(d, a))
  {
    hide C.Inv, DataOk, Next;
    NextKeepsInv(d, a);
    assert [a][1..] == [];
    assert Run(Next(d, a), []) == Next(d, a);
    assert Run(d, [a]) == Next(d, a);
  }

  /** What the exchange does between two computing statements changes nothing else. */
  lemma {:induction false} Lifts(d: Sys, actions: seq<C.Action>, c: C.Sys)
    requires Inv(d) && Glide(d.c, actions, c)
    ensures Reaches(d, d.(c := c)) && Inv(d.(c := c))
    decreases |actions|
  {
    hide Inv, Next, C.Next, Thinks, Reaches;
    if actions == [] {
      Here(d);
    } else {
      var a := if actions[0].Timer? then Timer(false) else Statement;
      GlideStep(d, actions[0]);
      Step(d, a);
      var u := d.(c := C.Next(d.c, actions[0]));
      Lifts(u, actions[1..], c);
      Onward(d, u, d.(c := c));
    }
  }

  lemma GlideStep(d: Sys, a: C.Action)
    requires Inv(d) && d.c.k.on && |d.c.k.tasks| > C.CLIENT && !Thinks(d.c)
    requires a == C.Statement(false) || a == C.Timer(false)
    ensures C.Inv(d.c) && Next(d, if a.Timer? then Timer(false) else Statement) == d.(c := C.Next(d.c, a))
  {
    hide C.Next, C.Inv, DataOk;
    OnShape(d.c);
  }

  lemma Glided(d: Sys, c: C.Sys)
    requires Inv(d) && Glides(d.c, c)
    ensures Reaches(d, d.(c := c)) && Inv(d.(c := c))
  {
    hide Inv, Reaches;
    var actions :| Glide(d.c, actions, c);
    Lifts(d, actions, c);
  }

  // ---- one round -----------------------------------------------------------------------

  /** The client is about to compute, the server blocked on its port. */
  ghost predicate Home(d: Sys)
  {
    && Inv(d) && Holding(d.c.k, C.CLIENT, C.SERVER) && d.c.k.tasks[C.CLIENT].pc.User?
    && d.c.client.CThink? && d.c.server.SGet? && !d.squared
  }

  /** The server is about to make a statement of its own. */
  ghost predicate AtWork(d: Sys)
  {
    && Inv(d) && Holding(d.c.k, C.SERVER, C.CLIENT) && d.c.k.tasks[C.SERVER].pc.User?
    && d.c.server.SWork? && d.c.client.CGet?
  }

  /** A statement of the client's loop that is no call. */
  lemma Computes(d: Sys)
    requires Home(d) && (d.compose.CountRound? || d.compose.CountUp? || d.compose.SetValue?)
    ensures Reaches(d, ComposeStep(d)) && Home(ComposeStep(d))
  {
    hide C.Inv, DataOk;
    Step(d, Statement);
  }

  /** The request is complete, sent, and taken by the server. */
  lemma Sends(d: Sys) returns (t: Sys)
    requires Home(d) && d.compose.SetResult?
    ensures Reaches(d, t) && AtWork(t) && t == ComposeStep(d).(c := t.c)
  {
    hide Reaches, C.Inv, DataOk, Glides;
    Step(d, Statement);
    var sent := ComposeStep(d).(c := d.c.(client := C.CSend));
    Submits(d);
    var c := RequestServed(sent.c);
    Glided(sent, c);
    t := sent.(c := c);
    Onward(d, sent, t);
  }

  lemma Submits(d: Sys)
    requires Home(d) && d.compose.SetResult?
    ensures Next(d, Statement) == ComposeStep(d).(c := d.c.(client := C.CSend))
  {
    hide C.Inv, DataOk;
  }

  /** The server squares the number. */
  lemma Squares(d: Sys)
    requires AtWork(d) && !d.squared
    ensures Reaches(d, Serve(d)) && AtWork(Serve(d))
  {
    hide C.Inv, DataOk;
    Step(d, Statement);
  }

  /** It counts the round and replies; the client checks the reply. */
  lemma Replies(d: Sys) returns (t: Sys)
    requires AtWork(d) && d.squared
    ensures Reaches(d, t) && Home(t) && t.rounds == d.rounds && t.served == d.served + 1 && t.compose.CountRound?
  {
    hide Reaches, C.Inv, DataOk, Glides;
    Step(d, Statement);
    var served := Serve(d).(c := d.c.(server := C.SReply));
    LeavesWork(d);
    var c := ReplyTaken(served.c);
    Glided(served, c);
    var taken := served.(c := c);
    Onward(d, served, taken);
    Step(taken, Statement);
    t := Verify(taken).(c := c.(client := C.CThink));
    Looks(taken);
    Onward(d, taken, t);
  }

  lemma LeavesWork(d: Sys)
    requires AtWork(d) && d.squared
    ensures Next(d, Statement) == Serve(d).(c := d.c.(server := C.SReply))
  {
    hide C.Inv, DataOk;
  }

  lemma Looks(d: Sys)
    requires Inv(d) && Holding(d.c.k, C.CLIENT, C.SERVER) && d.c.k.tasks[C.CLIENT].pc.User? && d.c.client.CTaken?
    ensures Next(d, Statement) == Verify(d).(c := d.c.(client := C.CThink))
  {
    hide DataOk;
  }

  lemma Round(d: Sys) returns (t: Sys)
    requires Home(d) && d.compose.CountUp?
    ensures Reaches(d, t) && Home(t) && t.compose.CountUp? && t.rounds == d.rounds + 1 && t.served == d.served + 1
  {
    hide Reaches, Inv, Holding;
    Computes(d);
    var counted := ComposeStep(d);
    Computes(counted);
    var valued := ComposeStep(counted);
    Onward(d, counted, valued);
    var sent := Sends(valued);
    Onward(d, valued, sent);
    Squares(sent);
    var squared := Serve(sent);
    Onward(d, sent, squared);
    var replied := Replies(squared);
    Onward(d, squared, replied);
    Computes(replied);
    t := ComposeStep(replied);
    Onward(d, replied, t);
  }

  /** n rounds from the start. */
  lemma {:induction false} Rounds(n: nat) returns (t: Sys)
    ensures Inv(Init()) && Reaches(Init(), t) && Home(t) && t.compose.CountUp? && t.rounds == n && t.served == n
  {
    hide Reaches, Home, Inv;
    if n == 0 {
      t := Begins();
    } else {
      var u := Rounds(n - 1);
      t := Round(u);
      Onward(Init(), u, t);
    }
  }

  lemma Begins() returns (t: Sys)
    ensures Inv(Init()) && Reaches(Init(), t) && Home(t) && t == Init().(c := t.c)
  {
    hide Reaches, Glides, C.Inv, DataOk;
    InitInv();
    var c := Starts();
    Glided(Init(), c);
    t := Init().(c := c);
  }

  /** Some run makes any number of rounds, and no error, before the tick limit. */
  lemma EveryCountIsReached(n: nat)
    ensures exists actions ::
              var d := Reached(actions); !d.c.k.on && d.rounds == n && d.served == n && d.errors == 0
  {
    hide C.Inv, DataOk, Home, Next, Reaches;
    var u := Rounds(n);
    Halts(u);
    var t := Next(u, Timer(true));
    Onward(Init(), u, t);
    ReachedBy(t);
    var actions :| Reached(actions) == t;
    EveryReplyIsRight(actions);
  }

  lemma Halts(d: Sys)
    requires Home(d)
    ensures Inv(d) && (var t := Next(d, Timer(true)); Reaches(d, t) && Inv(t) && !t.c.k.on && t == d.(c := t.c))
  {
    hide DataOk, C.Programs;
    Step(d, Timer(true));
  }

  lemma ReachedBy(t: Sys)
    requires Inv(Init()) && Reaches(Init(), t)
    ensures exists actions :: Reached(actions) == t
  {
    hide Inv, Next;
    var actions :| Run(Init(), actions) == t;
    assert Reached(actions) == t;
  }
}
