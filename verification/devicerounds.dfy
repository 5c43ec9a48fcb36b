/** Runs of the device demonstration: with a host that does what it is asked, any number of rounds
    is reached by some run, and the closing check of the file can then go either way. */
module DeviceRounds {
  import opened DeviceIO
  import opened Exchange
  import C = Rendezvous

  /** Some run of the two programs leads from d to t. */
  ghost predicate Reaches(d: Sys, t: Sys)
  {
    Inv(d) && exists actions :: Run(d, actions) == t
  }

  lemma Here(d: Sys)
    requires Inv(d)
    ensures Reaches(d, d)
  {
    hide Inv;
    assert Run(d, []) == d;
  }

  lemma {:induction false} RunJoin(d: Sys, a: seq<Action>, b: seq<Action>)
    requires Inv(d)
    ensures Inv(Run(d, a)) && Run(d, a + b) == Run(Run(d, a), b)
    decreases |a|
  {
    hide C.Inv, DataOk, Next;
    RunKeepsInv(d, a);
    if a == [] {
      assert a + b == b;
    } else {
      NextKeepsInv(d, a[0]);
      RunJoin(Next(d, a[0]), a[1..], b);
      assert (a + b)[1..] == a[1..] + b;
    }
  }

  lemma Onward(d: Sys, u: Sys, t: Sys)
    requires Reaches(d, u) && Reaches(u, t)
    ensures Reaches(d, t)
  {
    hide Inv, Next, Run;
    var a :| Run(d, a) == u;
    var b :| Run(u, b) == t;
    RunJoin(d, a, b);
  }

  lemma Step(d: Sys, a: Action)
    requires Inv(d)
    ensures Inv(Next(d, a)) && Reaches(d, Next(d, a))
  {
    hide C.Inv, DataOk, Next;
    NextKeepsInv(d, a);
    assert [a][1..] == [];
    assert Run(Next(d, a), []) == Next(d, a);
    assert Run(d, [a]) == Next(d, a);
  }

  /** What the exchange does between two computing statements changes nothing else. */
  lemma {:induction false} Lifts(d: Sys, actions: seq<C.Action>, c: C.Sys)
    requires Inv(d) && Glide(d.c, actions, c)
    ensures Reaches(d, d.(c := c)) && Inv(d.(c := c))
    decreases |actions|
  {
    hide Inv, Next, C.Next, Thinks, Reaches;
    if actions == [] {
      Here(d);
    } else {
      var a := if actions[0].Timer? then Timer(false) else Statement(0);
      GlideStep(d, actions[0]);
      Step(d, a);
      var u := d.(c := C.Next(d.c, actions[0]));
      Lifts(u, actions[1..], c);
      Onward(d, u, d.(c := c));
    }
  }

  lemma GlideStep(d: Sys, a: C.Action)
    requires Inv(d) && d.c.k.on && |d.c.k.tasks| > C.CLIENT && !Thinks(d.c)
    requires a == C.Statement(false) || a == C.Timer(false)
    ensures C.Inv(d.c) && Next(d, if a.Timer? then Timer(false) else Statement(0)) == d.(c := C.Next(d.c, a))
  {
    hide C.Next, C.Inv, DataOk;
    OnShape(d.c);
  }

  lemma Glided(d: Sys, c: C.Sys)
    requires Inv(d) && Glides(d.c, c)
    ensures Reaches(d, d.(c := c)) && Inv(d.(c := c))
  {
    hide Inv, Reaches;
    var actions :| Glide(d.c, actions, c);
    Lifts(d, actions, c);
  }

  // ---- one DoIO ------------------------------------------------------------------------

  /** The client is about to compute, the device task blocked on its port. */
  ghost predicate Home(d: Sys)
  {
    && Inv(d) && Holding(d.c.k, C.CLIENT, C.SERVER) && d.c.k.tasks[C.CLIENT].pc.User?
    && d.c.client.CThink? && d.c.server.SGet? && d.service.DoCall?
  }

  /** The device task is about to make a statement of its own. */
  ghost predicate AtWork(d: Sys)
  {
    && Inv(d) && Holding(d.c.k, C.SERVER, C.CLIENT) && d.c.k.tasks[C.SERVER].pc.User?
    && d.c.server.SWork? && d.c.client.CGet?
  }

  /** A statement of the client's loop that is no call. */
  lemma Computes(d: Sys)
    requires Home(d) && !d.stage.Sent? && !Compute(d).stage.Sent?
    ensures Reaches(d, Compute(d)) && Home(Compute(d))
  {
    hide C.Inv, DataOk;
    Step(d, Statement(0));
  }

  /** DoIO: the request is filled in, sent and taken by the device task. */
  lemma Sends(d: Sys) returns (t: Sys)
    requires Home(d) && !d.stage.Sent? && Compute(d).stage.Sent?
    ensures Reaches(d, t) && AtWork(t) && t == Compute(d).(c := t.c)
  {
    hide Reaches, C.Inv, DataOk, Glides;
    Step(d, Statement(0));
    var sent := Compute(d).(c := d.c.(client := C.CSend));
    Submits(d);
    var c := RequestServed(sent.c);
    Glided(sent, c);
    t := sent.(c := c);
    Onward(d, sent, t);
  }

  lemma Submits(d: Sys)
    requires Home(d) && !d.stage.Sent? && Compute(d).stage.Sent?
    ensures Next(d, Statement(0)) == Compute(d).(c := d.c.(client := C.CSend))
  {
    hide C.Inv, DataOk;
  }

  /** A statement of the device task, the host answering n if it is asked. */
  lemma Serves(d: Sys, n: int)
    requires AtWork(d) && !d.service.SetError?
    ensures Reaches(d, Serve(d, n)) && AtWork(Serve(d, n))
  {
    hide C.Inv, DataOk;
    Step(d, Statement(n));
  }

  /** The reply: sent, and looked at by the client. */
  lemma Replies(d: Sys) returns (t: Sys)
    requires AtWork(d) && d.service.SetError?
    ensures Reaches(d, t) && Home(t) && t == Returned(Serve(d, 0)).(c := t.c)
  {
    hide Reaches, C.Inv, DataOk, Glides;
    Step(d, Statement(0));
    var served := Serve(d, 0).(c := d.c.(server := C.SReply));
    LeavesWork(d);
    var c := ReplyTaken(served.c);
    Glided(served, c);
    var taken := served.(c := c);
    Onward(d, served, taken);
    Step(taken, Statement(0));
    t := Returned(taken).(c := c.(client := C.CThink));
    Looks(taken);
    Onward(d, taken, t);
  }

  lemma LeavesWork(d: Sys)
    requires AtWork(d) && d.service.SetError?
    ensures Next(d, Statement(0)) == Serve(d, 0).(c := d.c.(server := C.SReply))
  {
    hide C.Inv, DataOk;
  }

  lemma Looks(d: Sys)
    requires Inv(d) && Holding(d.c.k, C.CLIENT, C.SERVER) && d.c.k.tasks[C.CLIENT].pc.User? && d.c.client.CTaken?
    ensures Next(d, Statement(0)) == Returned(d).(c := d.c.(client := C.CThink))
  {
    hide DataOk;
    C.LooksIsTaken(d.c);
  }

  lemma WorkAsked(d: Sys)
    requires AtWork(d) && d.service.DoCall?
    ensures Asked(d)
  {
    hide C.Inv, Asked, Answered, CountsOk;
    OnShape(d.c);
  }

  /** The parts of the state a DoIO leaves alone. */
  predicate Same(d: Sys, t: Sys)
  {
    && t.round == d.round && t.rounds == d.rounds && t.errors == d.errors && t.faults == d.faults
    && t.stamped == d.stamped && t.lastRound == d.lastRound
  }

  /** One DoIO with a host that does what it is asked. */
  lemma Transfers(d: Sys) returns (t: Sys)
    requires Home(d) && (d.stage.AskWrite? || d.stage.AskRead?)
    ensures Reaches(d, t) && Home(t) && Same(d, t) && t.stage == if d.stage.AskWrite? then ClearBuffer else Compare
  {
    hide Reaches, C.Inv, DataOk, Holding;
    var sent := Sends(d);
    WorkAsked(sent);
    var called := Serve(sent, BUFSZ);
    Serves(sent, BUFSZ);
    Onward(d, sent, called);
    var actual := Serve(called, 0);
    Serves(called, 0);
    Onward(d, called, actual);
    t := Replies(actual);
    Onward(d, actual, t);
  }

  // ---- one round -----------------------------------------------------------------------

  /** The round is opened: its pattern is ready to be written. */
  lemma Opens(d: Sys) returns (t: Sys)
    requires Home(d) && d.stage.NextRound?
    ensures Reaches(d, t) && Home(t) && t.stage.AskWrite? && Same(d.(round := d.round + 1), t)
  {
    hide Reaches, Home;
    var u := Compute(d);
    Computes(d);
    t := Compute(u);
    Computes(u);
    Onward(d, u, t);
  }

  /** The round is closed: its pattern is compared, reported and counted. */
  lemma Closes(d: Sys) returns (t: Sys)
    requires Home(d) && d.stage.Compare? && d.wbuf == d.rbuf
    ensures Reaches(d, t) && Home(t) && t.stage.NextRound? && t.log == []
    ensures Same(d.(rounds := d.rounds + 1, stamped := true, lastRound := d.round), t)
  {
    hide Reaches, Home;
    var u := Compute(d);
    Computes(d);
    var v := Compute(u);
    Computes(u);
    Onward(d, u, v);
    t := Compute(v);
    Computes(v);
    Onward(d, v, t);
  }

  lemma ReadsBack(d: Sys)
    requires Home(d) && d.stage.Compare?
    ensures d.wbuf == d.rbuf
  {
    hide C.Inv, CountsOk;
    OnShape(d.c);
  }

  /** A whole round with a host that does what it is asked. */
  lemma Round(d: Sys) returns (t: Sys)
    requires Home(d) && d.stage.NextRound?
    ensures Reaches(d, t) && Home(t) && t.stage.NextRound? && t.log == []
    ensures t.round == d.round + 1 && t.rounds == d.rounds + 1 && t.errors == d.errors && t.faults == d.faults
    ensures t.stamped && t.lastRound == t.round
  {
    hide Reaches, Home;
    var begun := Opens(d);
    var written := Transfers(begun);
    Onward(d, begun, written);
    var cleared := Compute(written);
    Computes(written);
    Onward(d, written, cleared);
    var read := Transfers(cleared);
    Onward(d, cleared, read);
    ReadsBack(read);
    t := Closes(read);
    Onward(d, read, t);
  }

  /** n rounds from the start. */
  lemma {:induction false} Rounds(file: seq<int>, n: nat) returns (t: Sys)
    ensures Inv(Init(file)) && Reaches(Init(file), t) && Home(t) && t.stage.NextRound? && t.log == []
    ensures t.round == n && t.rounds == n && t.errors == 0 && t.faults == 0
    ensures n > 0 ==> t.stamped && t.lastRound == n
  {
    hide Reaches, Home, Inv;
    if n == 0 {
      t := Begins(file);
    } else {
      var u := Rounds(file, n - 1);
      t := Round(u);
      Onward(Init(file), u, t);
    }
  }

  lemma Begins(file: seq<int>) returns (t: Sys)
    ensures Inv(Init(file)) && Reaches(Init(file), t) && Home(t) && t == Init(file).(c := t.c)
  {
    hide Reaches, Glides, C.Inv, DataOk, Pattern;
    InitInv(file);
    var c := Starts();
    Glided(Init(file), c);
    t := Init(file).(c := c);
  }

  /** The last tick, wherever the running task is outside Forbid. */
  lemma Halts(d: Sys)
    requires Inv(d) && d.c.k.on && d.c.k.forbid == 0
    ensures var t := Next(d, Timer(true)); Reaches(d, t) && Inv(t) && !t.c.k.on && t == d.(c := t.c)
  {
    hide DataOk, C.Programs;
    Step(d, Timer(true));
  }

  // ---- what runs reach -----------------------------------------------------------------

  /** Any number of rounds is reached, without an error, and with the tick limit then reached the
      closing check of the file passes. */
  lemma CheckCanPass(file: seq<int>, n: nat)
    requires n > 0
    ensures exists actions ::
              var d := Reached(file, actions);
              !d.c.k.on && d.rounds == n && d.errors == 0 && d.stamped && Pattern(d.last) <= d.file
  {
    hide C.Inv, DataOk, Home, Pattern, Next, Reaches;
    var u := Rounds(file, n);
    AtRest(u);
    Halts(u);
    var t := Next(u, Timer(true));
    Onward(Init(file), u, t);
    ReachedBy(file, t);
    var actions :| Reached(file, actions) == t;
    AnyStoreSpoilsTheCheck(file, actions);
  }

  lemma AtRest(d: Sys)
    requires Home(d)
    ensures Inv(d) && d.c.k.on && d.c.k.forbid == 0
  {
  }

  /** Any number of rounds is reached, without an error, by a run in which the tick limit falls just
      after the device stored the next pattern: the closing check of the file then fails. */
  lemma CheckCanFail(file: seq<int>, n: nat)
    requires n > 0
    ensures exists actions ::
              var d := Reached(file, actions);
              !d.c.k.on && d.rounds == n && d.errors == 0 && d.stamped && !(Pattern(d.last) <= d.file)
  {
    hide Inv, Home, Pattern, Next, Reaches;
    var u := Rounds(file, n);
    var t := StopsMidway(u);
    Onward(Init(file), u, t);
    ReachedBy(file, t);
  }

  lemma ReachedBy(file: seq<int>, t: Sys)
    requires Inv(Init(file)) && Reaches(Init(file), t)
    ensures exists actions :: Reached(file, actions) == t
  {
    hide Inv, Next;
    var actions :| Run(Init(file), actions) == t;
    assert Reached(file, actions) == t;
  }

  /** From the end of a round into the next write, and no further. */
  lemma StopsMidway(d: Sys) returns (t: Sys)
    requires Home(d) && d.stage.NextRound? && d.stamped && d.lastRound == d.round
    ensures Reaches(d, t) && !t.c.k.on && t.rounds == d.rounds && t.errors == d.errors && t.stamped
    ensures !(Pattern(t.last) <= t.file)
  {
    hide Reaches, Pattern, Next;
    var begun := Opens(d);
    var sent := Sends(begun);
    Onward(d, begun, sent);
    WorkAsked(sent);
    Serves(sent, BUFSZ);
    var called := Serve(sent, BUFSZ);
    Onward(d, sent, called);
    WorkCounts(sent);
    NextWriteFailsTheCheck(sent);
    WorkOn(called);
    Halts(called);
    t := Next(called, Timer(true));
    Onward(d, called, t);
  }

  lemma WorkCounts(d: Sys)
    requires AtWork(d)
    ensures Sized(d) && CountsOk(d)
  {
    hide C.Inv, CountsOk;
    OnShape(d.c);
  }

  lemma WorkOn(d: Sys)
    requires AtWork(d)
    ensures Inv(d) && d.c.k.on && d.c.k.forbid == 0
  {
  }
}
